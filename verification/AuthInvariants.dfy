/** The inductive invariant of the protocol, and the proof that every step keeps it. */
module AuthInvariants {
  import opened Options
  import opened SessionTable
  import opened AuthTokens
  import opened AuthProtocol

  predicate Matches(row: Row, m: Minted) {
    && row.userId == m.userId
    && row.familyId == m.familyId
    && row.expiresAt == m.expiresAt
  }

  predicate Known(h: History, row: Row) {
    row.jti in h.minted && Matches(row, h.minted[row.jti])
  }

  // -------------------------------------------------------- what was minted

  ghost predicate MintedOk(s: State) {
    var m := s.hist.minted;
    && (forall j <- m :: j in s.w.used && m[j].familyId in s.w.used)
    && (forall j1, j2 | j1 in m && j2 in m && m[j1].familyId == m[j2].familyId :: m[j1].userId == m[j2].userId)
    && (forall j <- m | m[j].parent.Some? ::
          var p := m[j].parent.value;
          p in s.hist.rotated && p in m && m[p].familyId == m[j].familyId)
    && (forall c <- s.w.issued | c.typ == Refresh ::
          c.jti in m && m[c.jti].userId == c.sub && m[c.jti].familyId == c.fam && m[c.jti].expiresAt == c.exp * 1000)
    && s.hist.rotated <= s.hist.stored <= m.Keys
  }

  // ------------------------------------------------------------------- rows

  predicate RowOk(s: State, row: Row) {
    && Known(s.hist, row)
    && row.jti in s.hist.stored
    && row.replacedBy == None
    && (row.revoked.Some? ==> row.revoked.value.reason != Reason.UserInactive)
  }

  ghost predicate RowsOk(s: State) {
    && (forall j <- s.w.sessions :: RowOk(s, s.w.sessions[j]))
    && s.hist.stored == s.w.sessions.Keys + s.hist.purged
    && s.w.sessions.Keys !! s.hist.purged
    && (forall j <- s.hist.rotated :: !ActiveRow(s, j))
  }

  // --------------------------------------------------------------- requests

  ghost predicate PcOk(s: State, pc: Pc) {
    match pc
    case Presented(c) => c in s.w.issued && c.typ == Refresh
    case LoggingOut(c) => c in s.w.issued && c.typ == Refresh
    case Found(row) => Known(s.hist, row) && row.jti in s.hist.stored
    case Reused(row) => Known(s.hist, row) && row.jti in s.hist.stored
    case Won(row) => Known(s.hist, row) && row.jti in s.hist.rotated
    case ActiveUser(row) => Known(s.hist, row) && row.jti in s.hist.rotated
    case InactiveUser(row) => Known(s.hist, row) && row.jti in s.hist.rotated
    case Storing(row, parent) =>
      && Known(s.hist, row)
      && row.jti !in s.hist.stored
      && row.Active() && row.replacedBy == None
      && s.hist.minted[row.jti].parent == parent
      && (parent.None? ==> OnlyMember(s.hist, row))
    case _ => true
  }

  ghost predicate OnlyMember(h: History, row: Row) {
    forall j <- h.minted :: h.minted[j].familyId == row.familyId ==> j == row.jti
  }

  ghost predicate ReqsOk(s: State) {
    forall r <- s.reqs :: PcOk(s, s.reqs[r])
  }

  // ------------------------------------------- one claim on every family

  /** A family has at most one of: an unrevoked row, or a request that won the
      revoke or opened the family and has not finished. */
  ghost predicate OneClaim(s: State) {
    && (forall j1, j2 | ActiveRow(s, j1) && ActiveRow(s, j2) ::
          s.w.sessions[j1].familyId == s.w.sessions[j2].familyId ==> j1 == j2)
    && (forall r1, r2 | r1 in s.reqs && r2 in s.reqs && Holds(s.reqs[r1]).Some? ::
          Holds(s.reqs[r1]) == Holds(s.reqs[r2]) ==> r1 == r2)
    && (forall j, r | ActiveRow(s, j) && r in s.reqs :: Holds(s.reqs[r]) != Some(s.w.sessions[j].familyId))
  }

  // -------------------------------------------- what became of every win

  ghost predicate InFlight(s: State, j: Uuid) {
    exists r <- s.reqs :: Spent(s.reqs[r]) == Some(j)
  }

  ghost predicate WinsOk(s: State) {
    && s.hist.succeeded + s.hist.abandoned <= s.hist.rotated
    && s.hist.succeeded !! s.hist.abandoned
    && (forall r <- s.reqs | Spent(s.reqs[r]).Some? ::
          var j := Spent(s.reqs[r]).value;
          j in s.hist.rotated && j !in s.hist.succeeded && j !in s.hist.abandoned)
    && (forall j <- s.hist.rotated :: j in s.hist.succeeded || j in s.hist.abandoned || InFlight(s, j))
  }

  ghost predicate Inv(s: State) {
    MintedOk(s) && RowsOk(s) && ReqsOk(s) && OneClaim(s) && WinsOk(s)
  }

  lemma InitInv(s: State)
    requires Init(s)
    ensures Inv(s)
  {
  }

  // ------------------------------------------------- one lemma per effect

  function HoldsAt(s: State, r: RequestId): Option<Uuid> {
    if r in s.reqs then Holds(s.reqs[r]) else None
  }

  function SpentAt(s: State, r: RequestId): Option<Uuid> {
    if r in s.reqs then Spent(s.reqs[r]) else None
  }

  /** Clock, users and attempts may change under the invariant. */
  lemma WorldKeeps(s: State, w: World)
    requires Inv(s) && w.sessions == s.w.sessions && w.issued == s.w.issued && w.used == s.w.used
    ensures Inv(s.(w := w))
  {
    var t := s.(w := w);
    forall r <- t.reqs ensures PcOk(t, t.reqs[r]) {
      assert PcOk(s, s.reqs[r]);
    }
    forall j <- t.hist.rotated ensures j in t.hist.succeeded || j in t.hist.abandoned || InFlight(t, j) {
      assert InFlight(s, j) ==> InFlight(t, j);
    }
  }

  /** A request moves on without gaining or losing a claim. */
  lemma GotoKeeps(s: State, r: RequestId, pc: Pc)
    requires Inv(s) && PcOk(s, pc)
    requires Holds(pc) == HoldsAt(s, r) && Spent(pc) == SpentAt(s, r)
    ensures Inv(Goto(s, r, pc))
  {
    hide OneClaim, WinsOk, ReqsOk;
    GotoKeepsReqs(s, r, pc);
    GotoKeepsClaim(s, r, pc);
    GotoKeepsWins(s, r, pc);
  }

  lemma GotoKeepsReqs(s: State, r: RequestId, pc: Pc)
    requires ReqsOk(s) && PcOk(s, pc)
    ensures ReqsOk(Goto(s, r, pc))
  {
    var t := Goto(s, r, pc);
    forall q <- t.reqs ensures PcOk(t, t.reqs[q]) {
      assert q != r ==> PcOk(s, s.reqs[q]);
    }
  }

  lemma GotoKeepsClaim(s: State, r: RequestId, pc: Pc)
    requires OneClaim(s) && Holds(pc) == HoldsAt(s, r)
    ensures OneClaim(Goto(s, r, pc))
  {
    hide Holds;
    var t := Goto(s, r, pc);
    forall j | ActiveRow(t, j) ensures ActiveRow(s, j) {}
  }

  lemma GotoKeepsWins(s: State, r: RequestId, pc: Pc)
    requires WinsOk(s) && Spent(pc) == SpentAt(s, r)
    ensures WinsOk(Goto(s, r, pc))
  {
    hide Spent;
    var t := Goto(s, r, pc);
    forall j <- t.hist.rotated ensures j in t.hist.succeeded || j in t.hist.abandoned || InFlight(t, j) {
      if InFlight(s, j) {
        var q :| q in s.reqs && Spent(s.reqs[q]) == Some(j);
        assert q in t.reqs && Spent(t.reqs[q]) == Some(j);
      }
    }
  }

  /** A request ends without success, whatever it held. */
  lemma EndKeeps(s: State, r: RequestId)
    requires Inv(s) && r in s.reqs
    ensures Inv(End(s, r))
  {
    var t := End(s, r);
    forall q <- t.reqs ensures PcOk(t, t.reqs[q]) {
      assert PcOk(s, s.reqs[q]);
    }
    forall q <- t.reqs | Spent(t.reqs[q]).Some? ensures Spent(t.reqs[q]) != Spent(s.reqs[r]) {
      SpentIsExclusive(s, q, r);
    }
    forall j <- t.hist.rotated ensures j in t.hist.succeeded || j in t.hist.abandoned || InFlight(t, j) {
      if InFlight(s, j) {
        var q :| q in s.reqs && Spent(s.reqs[q]) == Some(j);
        assert q != r ==> q in t.reqs && Spent(t.reqs[q]) == Some(j);
      }
    }
  }

  /** Two rotations in flight never spend the same token. */
  lemma SpentIsExclusive(s: State, q: RequestId, r: RequestId)
    requires Inv(s) && q in s.reqs && r in s.reqs && q != r
    requires Spent(s.reqs[q]).Some?
    ensures Spent(s.reqs[q]) != Spent(s.reqs[r])
  {
    assert PcOk(s, s.reqs[q]) && PcOk(s, s.reqs[r]);
    if Spent(s.reqs[q]) == Spent(s.reqs[r]) {
      SpentFamily(s, q);
      SpentFamily(s, r);
      assert false;
    }
  }

  /** What a rotation spent belongs to the family it holds. */
  lemma SpentFamily(s: State, r: RequestId)
    requires Inv(s) && r in s.reqs && Spent(s.reqs[r]).Some?
    ensures var j := Spent(s.reqs[r]).value;
      j in s.hist.minted && Holds(s.reqs[r]) == Some(s.hist.minted[j].familyId)
  {
    assert PcOk(s, s.reqs[r]);
  }

  /** Any of the three conditional updates. */
  lemma UpdateKeeps(s: State, sel: Selector, reason: Reason)
    requires Inv(s)
    requires sel.ByJti? ==> sel.replacedBy == None
    requires reason == Reason.UserInactive ==> HitSet(s.w.sessions, sel) == {}
    ensures Inv(Update(s, sel, reason))
  {
    var t := Update(s, sel, reason);
    forall j <- t.w.sessions ensures RowOk(t, t.w.sessions[j]) {
      assert RowOk(s, s.w.sessions[j]);
      assert sel.Hits(s.w.sessions[j]) ==> j in HitSet(s.w.sessions, sel);
    }
    assert t.w.sessions.Keys == s.w.sessions.Keys;
    forall j | ActiveRow(t, j) ensures ActiveRow(s, j) && t.w.sessions[j] == s.w.sessions[j] {
    }
    forall r <- t.reqs ensures PcOk(t, t.reqs[r]) {
      assert PcOk(s, s.reqs[r]);
    }
    forall j <- t.hist.rotated ensures j in t.hist.succeeded || j in t.hist.abandoned || InFlight(t, j) {
      assert InFlight(s, j) ==> InFlight(t, j);
    }
  }

  /** The revoke that decides a refresh: the claim passes from row to request. */
  lemma RevokePresentedKeeps(s: State, r: RequestId)
    requires Inv(s) && At(s, RevokePresented(r))
    ensures Inv(Next(s, RevokePresented(r)))
  {
    var row := s.reqs[r].row;
    var sel := ByJti(row.jti, None);
    assert PcOk(s, Found(row));
    if HitSet(s.w.sessions, sel) == {} {
      GotoKeeps(s, r, Reused(row));
    } else {
      hide Inv;
      UpdateKeeps(s, sel, Rotated);
      WonRowIsFree(s, row);
      WinKeeps(Update(s, sel, Rotated), r, row);
    }
  }

  /** After the revoke that won, nothing else in the family is claimed. */
  lemma WonRowIsFree(s: State, row: Row)
    requires Inv(s) && Known(s.hist, row) && HitSet(s.w.sessions, ByJti(row.jti, None)) != {}
    ensures var t := Update(s, ByJti(row.jti, None), Rotated);
      && (forall j | ActiveRow(t, j) :: t.w.sessions[j].familyId != row.familyId)
      && (forall q <- t.reqs :: Holds(t.reqs[q]) != Some(row.familyId))
      && row.jti !in t.hist.rotated && !ActiveRow(t, row.jti)
  {
    hide WinsOk, ReqsOk, MintedOk;
    var t := Update(s, ByJti(row.jti, None), Rotated);
    var j :| j in HitSet(s.w.sessions, ByJti(row.jti, None));
    assert j == row.jti && ActiveRow(s, j) && RowOk(s, s.w.sessions[j]);
    forall i | ActiveRow(t, i) ensures ActiveRow(s, i) && i != j {}
  }

  function Win(s: State, r: RequestId, row: Row): State {
    Goto(s, r, Won(row)).(hist := s.hist.(rotated := s.hist.rotated + {row.jti}))
  }

  lemma WinKeeps(s: State, r: RequestId, row: Row)
    requires Inv(s) && r in s.reqs && s.reqs[r] == Found(row)
    requires forall j | ActiveRow(s, j) :: s.w.sessions[j].familyId != row.familyId
    requires forall q <- s.reqs :: Holds(s.reqs[q]) != Some(row.familyId)
    requires row.jti !in s.hist.rotated && !ActiveRow(s, row.jti)
    ensures Inv(Win(s, r, row))
  {
    hide MintedOk, RowsOk, ReqsOk, OneClaim, WinsOk;
    WinKeepsMinted(s, r, row);
    WinKeepsReqs(s, r, row);
    WinKeepsClaim(s, r, row);
    WinKeepsWins(s, r, row);
  }

  lemma WinKeepsMinted(s: State, r: RequestId, row: Row)
    requires MintedOk(s) && RowsOk(s) && ReqsOk(s) && r in s.reqs && s.reqs[r] == Found(row)
    requires !ActiveRow(s, row.jti)
    ensures MintedOk(Win(s, r, row)) && RowsOk(Win(s, r, row))
  {
    var t := Win(s, r, row);
    assert PcOk(s, s.reqs[r]);
    forall j <- t.w.sessions ensures RowOk(t, t.w.sessions[j]) {
      assert RowOk(s, s.w.sessions[j]);
    }
  }

  lemma WinKeepsReqs(s: State, r: RequestId, row: Row)
    requires ReqsOk(s) && r in s.reqs && s.reqs[r] == Found(row)
    ensures ReqsOk(Win(s, r, row))
  {
    var t := Win(s, r, row);
    assert PcOk(s, s.reqs[r]);
    forall q <- t.reqs ensures PcOk(t, t.reqs[q]) {
      assert q != r ==> PcOk(s, s.reqs[q]);
    }
  }

  lemma WinKeepsClaim(s: State, r: RequestId, row: Row)
    requires OneClaim(s) && r in s.reqs && s.reqs[r] == Found(row)
    requires forall j | ActiveRow(s, j) :: s.w.sessions[j].familyId != row.familyId
    requires forall q <- s.reqs :: Holds(s.reqs[q]) != Some(row.familyId)
    ensures OneClaim(Win(s, r, row))
  {
    var t := Win(s, r, row);
    assert Holds(t.reqs[r]) == Some(row.familyId);
    hide Holds;
    forall j | ActiveRow(t, j) ensures ActiveRow(s, j) {}
  }

  lemma WinKeepsWins(s: State, r: RequestId, row: Row)
    requires WinsOk(s) && r in s.reqs && s.reqs[r] == Found(row) && row.jti !in s.hist.rotated
    ensures WinsOk(Win(s, r, row))
  {
    var t := Win(s, r, row);
    forall j <- t.hist.rotated ensures j in t.hist.succeeded || j in t.hist.abandoned || InFlight(t, j) {
      if j == row.jti {
        assert r in t.reqs && Spent(t.reqs[r]) == Some(j);
      } else if InFlight(s, j) {
        var q :| q in s.reqs && Spent(s.reqs[q]) == Some(j);
        assert q in t.reqs && Spent(t.reqs[q]) == Some(j);
      }
    }
  }

  /** Signing mints a new jti, in a kept family or in a brand-new one. */
  lemma SignKeeps(s: State, r: RequestId, user: UserId, familyId: Option<Uuid>, parent: Option<Uuid>, m: Mint)
    requires Inv(s) && r in s.reqs && Fresh(s.w, m)
    requires SpentAt(s, r) == parent && HoldsAt(s, r) == familyId
    requires familyId.None? ==> parent.None?
    requires familyId.Some? ==>
      && parent.Some?
      && parent.value in s.hist.minted
      && s.hist.minted[parent.value].familyId == familyId.value
      && s.hist.minted[parent.value].userId == user
    ensures Inv(DoSign(s, r, user, familyId, parent, m))
  {
    if SignTokenPair(user, familyId, m, s.w.clock).None? {
      EndKeeps(s, r);
    } else {
      SignKeepsMinted(s, r, user, familyId, parent, m);
      SignKeepsRows(s, r, user, familyId, parent, m);
      SignKeepsReqs(s, r, user, familyId, parent, m);
      SignKeepsClaims(s, r, user, familyId, parent, m);
      SignKeepsWins(s, r, user, familyId, parent, m);
    }
  }

  lemma SignKeepsRows(s: State, r: RequestId, user: UserId, familyId: Option<Uuid>, parent: Option<Uuid>, m: Mint)
    requires Inv(s) && r in s.reqs && Fresh(s.w, m) && m.refreshTtl > 0
    ensures RowsOk(DoSign(s, r, user, familyId, parent, m))
  {
    var t := DoSign(s, r, user, familyId, parent, m);
    forall j <- t.w.sessions ensures RowOk(t, t.w.sessions[j]) {
      assert RowOk(s, s.w.sessions[j]);
    }
    forall j <- t.hist.rotated ensures !ActiveRow(t, j) {
      assert !ActiveRow(s, j);
    }
  }

  lemma SignKeepsReqs(s: State, r: RequestId, user: UserId, familyId: Option<Uuid>, parent: Option<Uuid>, m: Mint)
    requires Inv(s) && r in s.reqs && Fresh(s.w, m) && m.refreshTtl > 0
    requires familyId.None? ==> parent.None? && HoldsAt(s, r).None?
    requires familyId.Some? ==> parent.Some? && HoldsAt(s, r) == familyId
    ensures ReqsOk(DoSign(s, r, user, familyId, parent, m))
  {
    var t := DoSign(s, r, user, familyId, parent, m);
    forall q <- t.reqs ensures PcOk(t, t.reqs[q]) {
      assert PcOk(s, s.reqs[q]);
      if q != r && t.reqs[q].Storing? {
        assert Holds(s.reqs[q]) == Some(t.reqs[q].row.familyId);
      }
    }
  }

  lemma SignKeepsWins(s: State, r: RequestId, user: UserId, familyId: Option<Uuid>, parent: Option<Uuid>, m: Mint)
    requires WinsOk(s) && r in s.reqs && m.refreshTtl > 0
    requires SpentAt(s, r) == parent
    ensures WinsOk(DoSign(s, r, user, familyId, parent, m))
  {
    var t := DoSign(s, r, user, familyId, parent, m);
    forall j <- t.hist.rotated ensures j in t.hist.succeeded || j in t.hist.abandoned || InFlight(t, j) {
      if InFlight(s, j) {
        var q :| q in s.reqs && Spent(s.reqs[q]) == Some(j);
        assert q in t.reqs && Spent(t.reqs[q]) == Some(j);
      }
    }
  }

  lemma SignKeepsMinted(s: State, r: RequestId, user: UserId, familyId: Option<Uuid>, parent: Option<Uuid>, m: Mint)
    requires Inv(s) && r in s.reqs && Fresh(s.w, m) && m.refreshTtl > 0
    requires familyId.None? ==> parent.None?
    requires familyId.Some? ==>
      && parent.Some? && SpentAt(s, r) == parent
      && parent.value in s.hist.minted
      && s.hist.minted[parent.value].familyId == familyId.value
      && s.hist.minted[parent.value].userId == user
    ensures MintedOk(DoSign(s, r, user, familyId, parent, m))
  {
    if parent.Some? { SpentIsRotated(s, r); }
    hide RowsOk, ReqsOk, OneClaim, WinsOk;
    SignExtendsMinted(s, r, user, familyId, parent, m);
  }

  lemma SpentIsRotated(s: State, r: RequestId)
    requires Inv(s) && SpentAt(s, r).Some?
    ensures SpentAt(s, r).value in s.hist.rotated
  {
    hide RowsOk, MintedOk, OneClaim;
  }

  lemma SignExtendsMinted(s: State, r: RequestId, user: UserId, familyId: Option<Uuid>, parent: Option<Uuid>, m: Mint)
    requires MintedOk(s) && r in s.reqs && Fresh(s.w, m) && m.refreshTtl > 0
    requires familyId.None? ==> parent.None?
    requires familyId.Some? ==>
      && parent.Some? && parent.value in s.hist.rotated
      && parent.value in s.hist.minted
      && s.hist.minted[parent.value].familyId == familyId.value
      && s.hist.minted[parent.value].userId == user
    ensures MintedOk(DoSign(s, r, user, familyId, parent, m))
  {
    hide HitSet;
    var t := DoSign(s, r, user, familyId, parent, m);
    var was, row := s.hist.minted, t.reqs[r].row;
    var entry := Minted(user, row.familyId, row.expiresAt, parent);
    assert t.hist.minted == was[row.jti := entry];
    assert forall j <- was :: was[j].familyId in s.w.used;
    OneUserPerFamily(was, row.jti, entry);
  }

  lemma OneUserPerFamily(was: map<Uuid, Minted>, jti: Uuid, entry: Minted)
    requires forall j1, j2 | j1 in was && j2 in was && was[j1].familyId == was[j2].familyId ::
      was[j1].userId == was[j2].userId
    requires forall j <- was | was[j].familyId == entry.familyId :: was[j].userId == entry.userId
    ensures var now := was[jti := entry];
      forall j1, j2 | j1 in now && j2 in now && now[j1].familyId == now[j2].familyId :: now[j1].userId == now[j2].userId
  {
  }

  lemma SignKeepsClaims(s: State, r: RequestId, user: UserId, familyId: Option<Uuid>, parent: Option<Uuid>, m: Mint)
    requires Inv(s) && r in s.reqs && Fresh(s.w, m) && m.refreshTtl > 0
    requires familyId.None? ==> HoldsAt(s, r).None?
    requires familyId.Some? ==> HoldsAt(s, r) == familyId
    ensures OneClaim(DoSign(s, r, user, familyId, parent, m))
  {
    var t := DoSign(s, r, user, familyId, parent, m);
    var f := t.reqs[r].row.familyId;
    if familyId.None? {
      forall q <- s.reqs ensures Holds(s.reqs[q]) != Some(f) {
        assert PcOk(s, s.reqs[q]);
      }
      forall j | ActiveRow(s, j) ensures s.w.sessions[j].familyId != f {
        assert RowOk(s, s.w.sessions[j]);
      }
    }
    forall j | ActiveRow(t, j) ensures ActiveRow(s, j) {}
  }

  /** The insert: the claim passes from the request to its row. */
  lemma StoreKeeps(s: State, r: RequestId, row: Row, parent: Option<Uuid>)
    requires Inv(s) && r in s.reqs && s.reqs[r] == Storing(row, parent)
    ensures row.jti !in s.w.sessions
    ensures Inv(DoStore(s, r, row, parent))
  {
    assert PcOk(s, s.reqs[r]);
    forall q <- s.reqs | q != r ensures parent.Some? ==> Spent(s.reqs[q]) != parent {
      if parent.Some? { SpentIsExclusive(s, r, q); }
    }
    StoreKeepsRows(s, r, row, parent);
    StoreKeepsReqs(s, r, row, parent);
    StoreKeepsClaim(s, r, row, parent);
    StoreKeepsWins(s, r, row, parent);
  }

  lemma StoreKeepsRows(s: State, r: RequestId, row: Row, parent: Option<Uuid>)
    requires MintedOk(s) && RowsOk(s) && r in s.reqs && row.jti !in s.w.sessions
    requires PcOk(s, Storing(row, parent))
    ensures RowsOk(DoStore(s, r, row, parent)) && MintedOk(DoStore(s, r, row, parent))
  {
    var t := DoStore(s, r, row, parent);
    forall j <- t.w.sessions ensures RowOk(t, t.w.sessions[j]) {
      assert j != row.jti ==> RowOk(s, s.w.sessions[j]);
    }
    forall j <- t.hist.rotated ensures !ActiveRow(t, j) {
      assert !ActiveRow(s, j);
    }
  }

  lemma StoreKeepsReqs(s: State, r: RequestId, row: Row, parent: Option<Uuid>)
    requires ReqsOk(s) && OneClaim(s) && r in s.reqs && row.jti !in s.w.sessions
    requires s.reqs[r] == Storing(row, parent)
    ensures ReqsOk(DoStore(s, r, row, parent))
  {
    var t := DoStore(s, r, row, parent);
    forall q <- t.reqs ensures PcOk(t, t.reqs[q]) {
      assert PcOk(s, s.reqs[q]) && PcOk(s, s.reqs[r]);
      assert t.reqs[q].Storing? ==> Holds(s.reqs[q]) != Holds(s.reqs[r]);
    }
  }

  lemma StoreKeepsClaim(s: State, r: RequestId, row: Row, parent: Option<Uuid>)
    requires OneClaim(s) && r in s.reqs && row.jti !in s.w.sessions
    requires s.reqs[r] == Storing(row, parent)
    ensures OneClaim(DoStore(s, r, row, parent))
  {
    var t := DoStore(s, r, row, parent);
    assert Holds(s.reqs[r]) == Some(row.familyId);
    hide Holds;
    forall j | ActiveRow(t, j) ensures j == row.jti || ActiveRow(s, j) {}
  }

  lemma StoreKeepsWins(s: State, r: RequestId, row: Row, parent: Option<Uuid>)
    requires WinsOk(s) && r in s.reqs && row.jti !in s.w.sessions
    requires s.reqs[r] == Storing(row, parent)
    requires forall q <- s.reqs | q != r :: parent.Some? ==> Spent(s.reqs[q]) != parent
    ensures WinsOk(DoStore(s, r, row, parent))
  {
    var t := DoStore(s, r, row, parent);
    assert Spent(s.reqs[r]) == parent;
    forall j <- t.hist.rotated ensures j in t.hist.succeeded || j in t.hist.abandoned || InFlight(t, j) {
      if InFlight(s, j) {
        var q :| q in s.reqs && Spent(s.reqs[q]) == Some(j);
        assert q != r ==> q in t.reqs && Spent(t.reqs[q]) == Some(j);
      }
    }
  }

  lemma PurgeKeeps(s: State, before: int)
    requires Inv(s)
    ensures Inv(DoPurge(s, before))
  {
    var t := DoPurge(s, before);
    forall j <- t.w.sessions ensures RowOk(t, t.w.sessions[j]) {
      assert RowOk(s, s.w.sessions[j]);
    }
    forall j | ActiveRow(t, j) ensures ActiveRow(s, j) {}
    forall q <- t.reqs ensures PcOk(t, t.reqs[q]) {
      assert PcOk(s, s.reqs[q]);
    }
    forall j <- t.hist.rotated ensures j in t.hist.succeeded || j in t.hist.abandoned || InFlight(t, j) {
      assert InFlight(s, j) ==> InFlight(t, j);
    }
  }

  /** revokeFamily in the inactive-user branch finds nothing left to revoke. */
  lemma InactiveRevokesNothing(s: State, r: RequestId)
    requires Inv(s) && r in s.reqs && s.reqs[r].InactiveUser?
    ensures HitSet(s.w.sessions, ByFamily(s.reqs[r].row.familyId)) == {}
  {
    var sel := ByFamily(s.reqs[r].row.familyId);
    forall j | j in s.w.sessions ensures !sel.Hits(s.w.sessions[j]) {
      assert ActiveRow(s, j) ==> Holds(s.reqs[r]) != Some(s.w.sessions[j].familyId);
    }
  }

  // ---------------------------------------------------------- every step

  lemma StepKeepsInv(s: State, step: Step)
    requires Inv(s) && At(s, step)
    ensures Inv(Next(s, step))
  {
    if
    case IsRefresh(step) => RefreshKeepsInv(s, step);
    case IsLogin(step) => LoginKeepsInv(s, step);
    case !IsRefresh(step) && !IsLogin(step) => OtherKeepsInv(s, step);
  }

  predicate IsRefresh(step: Step) {
    || step.VerifyRefresh? || step.FindSession? || step.RevokePresented? || step.RevokeReused?
    || step.LookUpUser? || step.RevokeInactive? || step.SignRotation?
  }

  predicate IsLogin(step: Step) {
    || step.BeginLogin? || step.CountByEmail? || step.CountByIp? || step.CheckPassword?
    || step.RecordAttempt? || step.ClearAttempts?
  }

  lemma InvMinted(s: State)
    requires Inv(s)
    ensures MintedOk(s)
  {
  }

  lemma InvWins(s: State)
    requires Inv(s)
    ensures WinsOk(s)
  {
  }

  lemma PcHolds(s: State, r: RequestId)
    requires Inv(s) && r in s.reqs
    ensures PcOk(s, s.reqs[r])
  {
  }

  lemma RefreshKeepsInv(s: State, step: Step)
    requires Inv(s) && At(s, step) && IsRefresh(step)
    ensures Inv(Next(s, step))
  {
    hide Inv;
    match step
    case VerifyRefresh(r, token) =>
      if Next(s, step) != s { GotoKeeps(s, r, Presented(token)); }
    case FindSession(r) => FindKeeps(s, r);
    case RevokePresented(r) => RevokePresentedKeeps(s, r);
    case RevokeReused(r) =>
      var sel := ByFamily(s.reqs[r].row.familyId);
      UpdateKeeps(s, sel, ReuseDetected);
      EndKeeps(Update(s, sel, ReuseDetected), r);
    case LookUpUser(r) =>
      PcHolds(s, r);
      GotoKeeps(s, r, Next(s, step).reqs[r]);
    case RevokeInactive(r) =>
      InactiveRevokesNothing(s, r);
      var sel := ByFamily(s.reqs[r].row.familyId);
      UpdateKeeps(s, sel, Reason.UserInactive);
      EndKeeps(Update(s, sel, Reason.UserInactive), r);
    case SignRotation(r, m) =>
      var row := s.reqs[r].row;
      PcHolds(s, r);
      SignKeeps(s, r, row.userId, Some(row.familyId), Some(row.jti), m);
  }

  lemma LoginKeepsInv(s: State, step: Step)
    requires Inv(s) && At(s, step) && IsLogin(step)
    ensures Inv(Next(s, step))
  {
    hide Inv;
    match step
    case BeginLogin(r, email, ip) => GotoKeeps(s, r, CountingEmail(email, ip, s.w.clock - WINDOW));
    case CountByEmail(r) =>
      var pc := s.reqs[r];
      GotoKeeps(s, r, CountingIp(pc.email, pc.ip, pc.since, CountSince(s.w.attempts, Email(pc.email), pc.since)));
    case CountByIp(r) =>
      EndKeeps(s, r);
      GotoKeeps(s, r, Admitted(s.reqs[r].email, s.reqs[r].ip));
    case CheckPassword(r, found, matches) =>
      GotoKeeps(s, r, if Accepts(s.w, found, matches) then Clearing(s.reqs[r].email, found.value)
                      else Failing(s.reqs[r].email, s.reqs[r].ip));
    case RecordAttempt(r) =>
      RecordKeeps(s, r, s.w.attempts + [Attempt(s.reqs[r].email, s.reqs[r].ip, s.w.clock)]);
    case ClearAttempts(r) =>
      ClearKeeps(s, r, ClearEmail(s.w.attempts, s.reqs[r].email));
  }

  lemma RecordKeeps(s: State, r: RequestId, attempts: seq<Attempt>)
    requires Inv(s) && r in s.reqs
    ensures Inv(End(s.(w := s.w.(attempts := attempts)), r))
  {
    WorldKeeps(s, s.w.(attempts := attempts));
    EndKeeps(s.(w := s.w.(attempts := attempts)), r);
  }

  lemma ClearKeeps(s: State, r: RequestId, attempts: seq<Attempt>)
    requires Inv(s) && r in s.reqs && s.reqs[r].Clearing?
    ensures Inv(Goto(s.(w := s.w.(attempts := attempts)), r, Opening(s.reqs[r].user)))
  {
    WorldKeeps(s, s.w.(attempts := attempts));
    GotoKeeps(s.(w := s.w.(attempts := attempts)), r, Opening(s.reqs[r].user));
  }

  lemma OtherKeepsInv(s: State, step: Step)
    requires Inv(s) && At(s, step) && !IsRefresh(step) && !IsLogin(step)
    ensures Inv(Next(s, step))
  {
    match step
    case Tick(to) => WorldKeeps(s, s.w.(clock := to));
    case SetUser(u, record) => WorldKeeps(s, Next(s, step).w);
    case Crash(r) => EndKeeps(s, r);
    case VerifyLogout(r, token) =>
      if Next(s, step) != s { GotoKeeps(s, r, LoggingOut(token)); }
    case RevokeLogout(r) =>
      var sel := ByJti(s.reqs[r].claims.jti, None);
      UpdateKeeps(s, sel, LoggedOut);
      EndKeeps(Update(s, sel, LoggedOut), r);
    case RevokeAll(u) => UpdateKeeps(s, ByUser(u), LoggedOutAll);
    case BeginOpen(r, u) => GotoKeeps(s, r, Opening(u));
    case SignOpening(r, m) => SignKeeps(s, r, s.reqs[r].user, None, None, m);
    case StoreRow(r) => StoreKeeps(s, r, s.reqs[r].row, s.reqs[r].parent);
    case PurgeSessionRows(before) => PurgeKeeps(s, before);
    case PurgeAttemptRows(before) => WorldKeeps(s, Next(s, step).w);
  }

  lemma FindKeeps(s: State, r: RequestId)
    requires Inv(s) && At(s, FindSession(r))
    ensures Inv(Next(s, FindSession(r)))
  {
    var jti := s.reqs[r].claims.jti;
    if jti in s.w.sessions {
      assert RowOk(s, s.w.sessions[jti]);
      GotoKeeps(s, r, Found(s.w.sessions[jti]));
    } else {
      EndKeeps(s, r);
    }
  }

  lemma {:induction false} RunKeepsInv(s: State, steps: seq<Step>)
    requires Inv(s) && Runs(s, steps)
    ensures Inv(Run(s, steps))
    decreases |steps|
  {
    if steps != [] {
      StepKeepsInv(s, steps[0]);
      RunKeepsInv(Next(s, steps[0]), steps[1..]);
    }
  }
}
