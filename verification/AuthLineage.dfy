/** Who can still be active in a family that was revoked as a whole: the heirs of
    the one claim in flight at that moment, along the chain of replacements. */
module AuthLineage {
  import opened Options
  import opened SessionTable
  import opened AuthTokens
  import opened AuthProtocol
  import opened AuthInvariants
  import opened AuthTheorems
  import opened AuthRuns

  /** A chain of replacements from p down to the last element. */
  ghost predicate IsLineage(minted: map<Uuid, Minted>, chain: seq<Uuid>) {
    && chain != []
    && (forall i | 0 <= i < |chain| :: chain[i] in minted)
    && (forall i | 0 < i < |chain| :: minted[chain[i]].parent == Some(chain[i - 1]))
  }

  /** j replaced p, directly or through a chain of rotations (or is p). */
  ghost predicate Descends(minted: map<Uuid, Minted>, p: Uuid, j: Uuid) {
    exists chain :: IsLineage(minted, chain) && chain[0] == p && chain[|chain| - 1] == j
  }

  lemma DescendsSelf(minted: map<Uuid, Minted>, p: Uuid)
    requires p in minted
    ensures Descends(minted, p, p)
  {
    assert IsLineage(minted, [p]);
  }

  lemma DescendsNext(minted: map<Uuid, Minted>, p: Uuid, j: Uuid, child: Uuid)
    requires Descends(minted, p, j) && child in minted && minted[child].parent == Some(j)
    ensures Descends(minted, p, child)
  {
    var chain :| IsLineage(minted, chain) && chain[0] == p && chain[|chain| - 1] == j;
    assert IsLineage(minted, chain + [child]);
    assert (chain + [child])[0] == p && (chain + [child])[|chain|] == child;
  }

  lemma DescendsGrows(minted: map<Uuid, Minted>, more: map<Uuid, Minted>, p: Uuid, j: Uuid)
    requires Descends(minted, p, j)
    requires forall k <- minted :: k in more && more[k] == minted[k]
    ensures Descends(more, p, j)
  {
    var chain :| IsLineage(minted, chain) && chain[0] == p && chain[|chain| - 1] == j;
    assert IsLineage(more, chain);
  }

  /** Where the rows a claim will add descend from: the token a rotation has
      spent, or the first token of a family that is being opened. */
  function Root(pc: Pc): Option<Uuid> {
    if Spent(pc).Some? then Spent(pc) else if pc.Storing? then Some(pc.row.jti) else None
  }

  /** All life left in the family descends from p. */
  ghost predicate OnlyHeirsOf(s: State, f: Uuid, p: Uuid) {
    && f in s.w.used
    && (forall j | ActiveRow(s, j) && s.w.sessions[j].familyId == f :: Descends(s.hist.minted, p, j))
    && (forall r <- s.reqs | Holds(s.reqs[r]) == Some(f) ::
          Root(s.reqs[r]).Some? && Descends(s.hist.minted, p, Root(s.reqs[r]).value))
  }

  ghost predicate Grown(s: State, t: State) {
    && (forall k <- s.hist.minted :: k in t.hist.minted && t.hist.minted[k] == s.hist.minted[k])
    && s.hist.rotated <= t.hist.rotated
    && s.w.used <= t.w.used
  }

  lemma MintedOnlyGrows(s: State, step: Step)
    requires Inv(s) && At(s, step)
    ensures Grown(s, Next(s, step))
  {
    InvMinted(s);
    hide Inv, Grown;
    match step
    case SignRotation(r, m) =>
      SignGrows(s, r, s.reqs[r].row.userId, Some(s.reqs[r].row.familyId), Some(s.reqs[r].row.jti), m);
    case SignOpening(r, m) => SignGrows(s, r, s.reqs[r].user, None, None, m);
    case _ => UnsignedGrows(s, step);
  }

  lemma SignGrows(s: State, r: RequestId, user: UserId, familyId: Option<Uuid>, parent: Option<Uuid>, m: Mint)
    requires MintedOk(s) && r in s.reqs && Fresh(s.w, m)
    ensures Grown(s, DoSign(s, r, user, familyId, parent, m))
  {
    hide Spent;
  }

  lemma UnsignedGrows(s: State, step: Step)
    requires At(s, step) && !step.SignRotation? && !step.SignOpening?
    ensures Grown(s, Next(s, step))
  {
    hide Verify, CountSince, IpCount, ClearEmail, PurgeAttempts, RevokeWhere, PurgeSessions, HitSet, IsLookup, Accepts,
      Limited, UserEnabled, Spent;
  }

  lemma {:induction false} HistoryOnlyGrows(s: State, steps: seq<Step>)
    requires Inv(s) && Runs(s, steps)
    ensures Grown(s, Run(s, steps))
    ensures Inv(Run(s, steps))
    decreases |steps|
  {
    hide Inv, Next;
    if steps != [] {
      StepKeepsInv(s, steps[0]);
      MintedOnlyGrows(s, steps[0]);
      HistoryOnlyGrows(Next(s, steps[0]), steps[1..]);
    }
  }

  lemma HeirsAfterClaims(s: State, step: Step, f: Uuid, p: Uuid)
    requires Inv(s) && OnlyHeirsOf(s, f, p) && At(s, step)
    ensures forall r <- Next(s, step).reqs | Holds(Next(s, step).reqs[r]) == Some(f) ::
      var pc := Next(s, step).reqs[r]; Root(pc).Some? && Descends(s.hist.minted, p, Root(pc).value)
  {
    hide Inv;
    var t := Next(s, step);
    if step.RevokePresented? {
      SnapshotFamily(s, step.r);
      RevokePresentedOutcome(s, step.r);
    }
    forall r <- t.reqs | Holds(t.reqs[r]) == Some(f)
      ensures Root(t.reqs[r]).Some? && Descends(s.hist.minted, p, Root(t.reqs[r]).value)
    {
      assert step.RevokePresented? || step.SignOpening? || (r in s.reqs && Holds(s.reqs[r]) == Some(f));
    }
  }

  lemma HeirsAfterRows(s: State, step: Step, f: Uuid, p: Uuid)
    requires Inv(s) && OnlyHeirsOf(s, f, p) && At(s, step)
    ensures forall j | ActiveRow(Next(s, step), j) && Next(s, step).w.sessions[j].familyId == f ::
      Descends(s.hist.minted, p, j)
  {
    hide Inv;
    var t := Next(s, step);
    if step.StoreRow? && s.reqs[step.r].row.familyId == f {
      var row, parent := s.reqs[step.r].row, s.reqs[step.r].parent;
      PcHolds(s, step.r);
      assert Holds(s.reqs[step.r]) == Some(f);
      if parent.Some? { DescendsNext(s.hist.minted, p, parent.value, row.jti); }
    }
    forall j | ActiveRow(t, j) && t.w.sessions[j].familyId == f ensures Descends(s.hist.minted, p, j) {
      assert ActiveRow(s, j) || (step.StoreRow? && j == s.reqs[step.r].row.jti);
    }
  }

  lemma StepKeepsHeirs(s: State, step: Step, f: Uuid, p: Uuid)
    requires Inv(s) && OnlyHeirsOf(s, f, p) && At(s, step)
    ensures OnlyHeirsOf(Next(s, step), f, p)
  {
    hide Inv;
    var t := Next(s, step);
    MintedOnlyGrows(s, step);
    HeirsAfterClaims(s, step, f, p);
    HeirsAfterRows(s, step, f, p);
    hide Next;
    forall j | ActiveRow(t, j) && t.w.sessions[j].familyId == f ensures Descends(t.hist.minted, p, j) {
      DescendsGrows(s.hist.minted, t.hist.minted, p, j);
    }
    forall r <- t.reqs | Holds(t.reqs[r]) == Some(f)
      ensures Root(t.reqs[r]).Some? && Descends(t.hist.minted, p, Root(t.reqs[r]).value)
    {
      DescendsGrows(s.hist.minted, t.hist.minted, p, Root(t.reqs[r]).value);
    }
  }

  lemma {:induction false} HeirsStayHeirs(s: State, steps: seq<Step>, f: Uuid, p: Uuid)
    requires Inv(s) && OnlyHeirsOf(s, f, p) && Runs(s, steps)
    ensures OnlyHeirsOf(Run(s, steps), f, p)
    decreases |steps|
  {
    hide Inv, OnlyHeirsOf, Next;
    if steps != [] {
      StepKeepsInv(s, steps[0]);
      StepKeepsHeirs(s, steps[0], f, p);
      HeirsStayHeirs(Next(s, steps[0]), steps[1..], f, p);
    }
  }

  // ------------------------------------------- a family with no active row

  lemma OnlyOneHolder(t: State, f: Uuid, q: RequestId)
    requires Inv(t) && q in Holders(t, f)
    ensures Holders(t, f) == {q}
  {
  }

  lemma RotatedIsNotActive(t: State, p: Uuid)
    requires Inv(t) && p in t.hist.rotated
    ensures !ActiveRow(t, p)
  {
  }

  /** The sole holder of a family that has no active row. */
  lemma SoleClaimHasTheHeirs(t: State, f: Uuid, q: RequestId)
    requires Inv(t) && f in t.w.used && ActiveIn(t, f) == {}
    requires Holders(t, f) == {q}
    ensures Root(t.reqs[q]).Some? && OnlyHeirsOf(t, f, Root(t.reqs[q]).value)
    ensures Spent(t.reqs[q]).Some? ==> Spent(t.reqs[q]).value in t.hist.rotated
  {
    assert q in Holders(t, f);
    PcHolds(t, q);
    if Spent(t.reqs[q]).Some? { SpentFamily(t, q); }
    DescendsSelf(t.hist.minted, Root(t.reqs[q]).value);
    forall r <- t.reqs | Holds(t.reqs[r]) == Some(f) ensures r == q {
      assert r in Holders(t, f);
    }
    forall j | ActiveRow(t, j) ensures t.w.sessions[j].familyId != f {
      assert j !in ActiveIn(t, f);
    }
  }

  lemma RejectedHolderMeansDoomed(t: State, f: Uuid, q: RequestId)
    requires f in t.w.used && ActiveIn(t, f) == {} && Holders(t, f) == {q} && t.reqs[q].InactiveUser?
    ensures Doomed(t, f)
  {
    forall j | ActiveRow(t, j) ensures t.w.sessions[j].familyId != f {
      assert j !in ActiveIn(t, f);
    }
    forall r <- t.reqs | Holds(t.reqs[r]) == Some(f) ensures r == q {
      assert r in Holders(t, f);
    }
  }

  /** From a state where the family has no active row: a row of it that is ever
      active descends from the one claim in flight at that state. */
  lemma OnlyTheClaimInFlightLives(t: State, f: Uuid, steps: seq<Step>, j: Uuid)
    requires Inv(t) && f in t.w.used && ActiveIn(t, f) == {} && Runs(t, steps)
    requires j in ActiveIn(Run(t, steps), f)
    ensures exists q <- t.reqs ::
      && Holders(t, f) == {q} && !t.reqs[q].InactiveUser?
      && (Spent(t.reqs[q]).Some? ==> j != Spent(t.reqs[q]).value)
      && Root(t.reqs[q]).Some? && Descends(Run(t, steps).hist.minted, Root(t.reqs[q]).value, j)
  {
    hide Inv, Next, Doomed;
    LifeMeansNotDoomed(t, f, steps, j);
    var q := HolderUnlessDoomed(t, f);
    SoleClaimHasTheHeirs(t, f, q);
    HeirsStayHeirs(t, steps, f, Root(t.reqs[q]).value);
    HistoryOnlyGrows(t, steps);
    assert ActiveRow(Run(t, steps), j);
    if Spent(t.reqs[q]).Some? { RotatedIsNotActive(Run(t, steps), Spent(t.reqs[q]).value); }
  }

  lemma LifeMeansNotDoomed(t: State, f: Uuid, steps: seq<Step>, j: Uuid)
    requires Inv(t) && Runs(t, steps) && j in ActiveIn(Run(t, steps), f)
    ensures !Doomed(t, f)
  {
    hide Inv, Doomed;
    if Doomed(t, f) {
      DoomedStaysDoomed(t, steps, f);
      DoomedIsInactive(Run(t, steps), f);
    }
  }

  /** The one claim on a family without an active row that is not doomed. */
  lemma HolderUnlessDoomed(t: State, f: Uuid) returns (q: RequestId)
    requires Inv(t) && f in t.w.used && ActiveIn(t, f) == {} && !Doomed(t, f)
    ensures q in t.reqs && Holders(t, f) == {q} && !t.reqs[q].InactiveUser?
  {
    hide Inv, Doomed;
    assert Holders(t, f) != {} by {
      if Holders(t, f) == {} { NoHolderMeansDoomed(t, f); }
    }
    q :| q in Holders(t, f);
    OnlyOneHolder(t, f, q);
    if t.reqs[q].InactiveUser? { RejectedHolderMeansDoomed(t, f, q); }
  }

  // ------------------------------------------------------- reuse, logout of all

  /** The moment reuse is detected: nothing in the family is active any more,
      and what claim there is belongs to a rotation, never to a login. */
  lemma ReuseRevokesTheFamily(s: State, r: RequestId)
    requires Inv(s) && At(s, RevokeReused(r))
    ensures var f, t := s.reqs[r].row.familyId, Next(s, RevokeReused(r));
      && f in t.w.used
      && ActiveIn(t, f) == {}
      && forall q <- t.reqs | Holds(t.reqs[q]) == Some(f) :: Spent(t.reqs[q]).Some?
  {
    var f, t := s.reqs[r].row.familyId, Next(s, RevokeReused(r));
    PcHolds(s, r);
    forall q <- t.reqs | Holds(t.reqs[q]) == Some(f) ensures Spent(t.reqs[q]).Some? {
      PcHolds(s, q);
    }
    forall j ensures j !in ActiveIn(t, f) {
      assert j in s.w.sessions && ByFamily(f).Hits(s.w.sessions[j]) ==> !t.w.sessions[j].Active();
    }
  }

  /** Reuse ends the family, up to the one rotation already in flight at that
      step: every row that is ever active again descends, by replacement, from
      the token it spent. */
  lemma ReuseKillsAllButTheRotationInFlight(s: State, r: RequestId, steps: seq<Step>, j: Uuid)
    requires Reachable(s) && At(s, RevokeReused(r)) && Runs(Next(s, RevokeReused(r)), steps)
    requires j in ActiveIn(Run(Next(s, RevokeReused(r)), steps), s.reqs[r].row.familyId)
    ensures var f, t := s.reqs[r].row.familyId, Next(s, RevokeReused(r));
      exists q <- t.reqs ::
        && Holders(t, f) == {q} && !t.reqs[q].InactiveUser?
        && Spent(t.reqs[q]).Some?
        && j != Spent(t.reqs[q]).value
        && Descends(Run(t, steps).hist.minted, Spent(t.reqs[q]).value, j)
  {
    hide Inv;
    var f, t := s.reqs[r].row.familyId, Next(s, RevokeReused(r));
    ReachableInv(s);
    ReuseRevokesTheFamily(s, r);
    StepKeepsInv(s, RevokeReused(r));
    hide Next;
    OnlyTheClaimInFlightLives(t, f, steps, j);
    forall q | Holders(t, f) == {q} ensures Spent(t.reqs[q]).Some? {
      assert q in Holders(t, f);
    }
  }

  lemma RowHasItsUser(t: State, j: Uuid)
    requires Inv(t) && j in t.w.sessions
    ensures j in t.hist.minted && Matches(t.w.sessions[j], t.hist.minted[j])
  {
    InvRows(t);
    assert RowOk(t, t.w.sessions[j]);
  }

  lemma SameFamilySameUser(t: State, i: Uuid, j: Uuid)
    requires Inv(t) && i in t.hist.minted && j in t.hist.minted
    requires t.hist.minted[i].familyId == t.hist.minted[j].familyId
    ensures t.hist.minted[i].userId == t.hist.minted[j].userId
  {
  }

  /** Right after the step no row of the user is active, so none of a family that
      will ever have a row of the user. */
  lemma LogoutAllEmptiesFamilies(s: State, u: UserId, steps: seq<Step>, j: Uuid)
    requires Inv(s) && Runs(Next(s, RevokeAll(u)), steps)
    requires var last := Run(Next(s, RevokeAll(u)), steps).w.sessions; j in last && last[j].userId == u
    ensures ActiveIn(Next(s, RevokeAll(u)), Run(Next(s, RevokeAll(u)), steps).w.sessions[j].familyId) == {}
  {
    hide Inv;
    var t := Next(s, RevokeAll(u));
    var end := Run(t, steps);
    var f := end.w.sessions[j].familyId;
    StepKeepsInv(s, RevokeAll(u));
    HistoryOnlyGrows(t, steps);
    RowHasItsUser(end, j);
    forall i | i in ActiveIn(t, f) ensures t.w.sessions[i].userId == u {
      RowHasItsUser(t, i);
      SameFamilySameUser(end, i, j);
    }
    NoActiveRowOfUser(s, u);
    assert forall i | i in ActiveIn(t, f) :: ActiveRow(t, i);
  }

  lemma NoActiveRowOfUser(s: State, u: UserId)
    ensures forall i | ActiveRow(Next(s, RevokeAll(u)), i) :: Next(s, RevokeAll(u)).w.sessions[i].userId != u
  {
  }

  /** logoutAll ends every session of the user, up to what is in flight: a row of
      the user that is active later belongs to a family opened later, or descends
      from the one rotation, or opening, that held its family at that step. */
  lemma LogoutAllKillsAllButTheClaimsInFlight(s: State, u: UserId, steps: seq<Step>, j: Uuid)
    requires Reachable(s) && Runs(Next(s, RevokeAll(u)), steps)
    requires var end := Run(Next(s, RevokeAll(u)), steps); ActiveRow(end, j) && end.w.sessions[j].userId == u
    ensures var t := Next(s, RevokeAll(u));
      var end := Run(t, steps);
      var f := end.w.sessions[j].familyId;
      || f !in t.w.used
      || exists q <- t.reqs ::
           && Holders(t, f) == {q} && !t.reqs[q].InactiveUser? && Root(t.reqs[q]).Some?
           && (Spent(t.reqs[q]).Some? ==> j != Spent(t.reqs[q]).value)
           && Descends(end.hist.minted, Root(t.reqs[q]).value, j)
  {
    hide Inv;
    ReachableInv(s);
    LogoutAllEmptiesFamilies(s, u, steps, j);
    StepKeepsInv(s, RevokeAll(u));
    var t := Next(s, RevokeAll(u));
    hide Next;
    var f := Run(t, steps).w.sessions[j].familyId;
    if f in t.w.used {
      assert j in ActiveIn(Run(t, steps), f);
      OnlyTheClaimInFlightLives(t, f, steps, j);
    }
  }
}
