/** Families that end, lineage after a detected reuse, and what no step undoes. */
module AuthRuns {
  import opened Options
  import opened SessionTable
  import opened AuthTokens
  import opened AuthProtocol
  import opened AuthInvariants
  import opened AuthTheorems

  // ----------------------------------------------------- families that end

  /** Nothing in the family is active, and whoever still has a claim on it is
      only about to reject an inactive user. */
  ghost predicate Doomed(s: State, f: Uuid) {
    && f in s.w.used
    && (forall j | ActiveRow(s, j) :: s.w.sessions[j].familyId != f)
    && (forall r <- s.reqs | Holds(s.reqs[r]) == Some(f) :: s.reqs[r].InactiveUser?)
  }

  /** The snapshot a request took shows the family the stored row has. */
  lemma SnapshotFamily(s: State, r: RequestId)
    requires Inv(s) && r in s.reqs && s.reqs[r].Found?
    ensures var row := s.reqs[r].row;
      row.jti in s.w.sessions ==> s.w.sessions[row.jti].familyId == row.familyId
  {
    PcHolds(s, r);
    forall j <- s.w.sessions ensures RowOk(s, s.w.sessions[j]) {}
  }

  lemma StepKeepsDoomed(s: State, step: Step, f: Uuid)
    requires Inv(s) && Doomed(s, f) && At(s, step)
    ensures Doomed(Next(s, step), f)
    ensures step.RevokePresented? && s.reqs[step.r].row.familyId == f ==> Next(s, step).reqs[step.r].Reused?
    ensures !(step.StoreRow? && s.reqs[step.r].row.familyId == f)
  {
    hide Inv;
    if step.RevokePresented? {
      SnapshotFamily(s, step.r);
      RevokePresentedKeepsDoomed(s, step.r, s.reqs[step.r].row, f);
    } else if step.StoreRow? {
      assert Holds(s.reqs[step.r]) == Some(s.reqs[step.r].row.familyId);
    } else {
      OtherStepsKeepDoomed(s, step, f);
    }
  }

  lemma RevokePresentedKeepsDoomed(s: State, r: RequestId, row: Row, f: Uuid)
    requires Doomed(s, f) && r in s.reqs && s.reqs[r] == Found(row)
    requires row.jti in s.w.sessions ==> s.w.sessions[row.jti].familyId == row.familyId
    ensures Doomed(DoRevokePresented(s, r, row), f)
    ensures row.familyId == f ==> DoRevokePresented(s, r, row).reqs[r].Reused?
  {
    RevokePresentedOutcome(s, r);
    var t := DoRevokePresented(s, r, row);
    forall j | ActiveRow(t, j) ensures t.w.sessions[j].familyId != f {
      assert ActiveRow(s, j);
    }
  }

  lemma OtherStepsKeepDoomed(s: State, step: Step, f: Uuid)
    requires Doomed(s, f) && At(s, step) && !step.RevokePresented? && !step.StoreRow?
    ensures Doomed(Next(s, step), f)
  {
    if step.SignRotation? {
      var row := s.reqs[step.r].row;
      SignKeepsDoomed(s, step.r, row.userId, Some(row.familyId), Some(row.jti), step.mint, f);
    } else if step.SignOpening? {
      SignKeepsDoomed(s, step.r, s.reqs[step.r].user, None, None, step.mint, f);
    } else {
      hide Doomed, DoSign;
      NoNewRows(s, step);
      NoNewClaims(s, step, f);
      FewerIsDoomed(s, Next(s, step), f);
    }
  }

  /** A request signs for a family it holds, or for a new one. */
  lemma SignKeepsDoomed(s: State, r: RequestId, user: UserId, familyId: Option<Uuid>, parent: Option<Uuid>,
        m: Mint, f: Uuid)
    requires Doomed(s, f) && r in s.reqs && Fresh(s.w, m) && (familyId.Some? ==> familyId == Holds(s.reqs[r]))
    requires !s.reqs[r].InactiveUser?
    ensures Doomed(DoSign(s, r, user, familyId, parent, m), f)
  {
    var t := DoSign(s, r, user, familyId, parent, m);
    forall j | ActiveRow(t, j) ensures t.w.sessions[j].familyId != f {
      assert ActiveRow(s, j);
    }
    assert Holds(s.reqs[r]) != Some(f);
  }

  /** Only storing activates a row, and no step changes a row's family. */
  lemma NoNewRows(s: State, step: Step)
    requires At(s, step) && !step.RevokePresented? && !step.StoreRow?
    ensures forall j | ActiveRow(Next(s, step), j) ::
      ActiveRow(s, j) && Next(s, step).w.sessions[j].familyId == s.w.sessions[j].familyId
  {
    hide Verify, CountSince, IpCount, ClearEmail, PurgeAttempts, SignTokenPair, IsLookup, Accepts, Limited, UserEnabled;
  }

  /** A claim is kept or dropped; a claim on a doomed family is already lost. */
  lemma NoNewClaims(s: State, step: Step, f: Uuid)
    requires Doomed(s, f) && At(s, step) && !step.RevokePresented? && !step.StoreRow?
    requires !step.SignRotation? && !step.SignOpening?
    ensures s.w.used <= Next(s, step).w.used
    ensures forall r <- Next(s, step).reqs | Holds(Next(s, step).reqs[r]) == Some(f) ::
      Next(s, step).reqs[r].InactiveUser?
  {
    hide Verify, CountSince, IpCount, ClearEmail, PurgeAttempts, RevokeWhere, PurgeSessions, IsLookup, Accepts, Limited,
      UserEnabled, ActiveRow;
  }

  lemma FewerIsDoomed(s: State, t: State, f: Uuid)
    requires Doomed(s, f) && s.w.used <= t.w.used
    requires forall j | ActiveRow(t, j) :: ActiveRow(s, j) && t.w.sessions[j].familyId == s.w.sessions[j].familyId
    requires forall r <- t.reqs | Holds(t.reqs[r]) == Some(f) :: t.reqs[r].InactiveUser?
    ensures Doomed(t, f)
  {
  }

  lemma RevokePresentedOutcome(s: State, r: RequestId)
    requires At(s, RevokePresented(r))
    ensures var row, t := s.reqs[r].row, Next(s, RevokePresented(r));
      && (t.reqs[r] == Won(row) <==> ActiveRow(s, row.jti))
      && (t.reqs[r] == Reused(row) <==> !ActiveRow(s, row.jti))
  {
    var row := s.reqs[r].row;
    var hits := HitSet(s.w.sessions, ByJti(row.jti, None));
    if ActiveRow(s, row.jti) {
      assert row.jti in hits;
    }
  }

  lemma {:induction false} DoomedStaysDoomed(s: State, steps: seq<Step>, f: Uuid)
    requires Inv(s) && Doomed(s, f) && Runs(s, steps)
    ensures Doomed(Run(s, steps), f)
    decreases |steps|
  {
    hide Inv, Doomed, Next;
    if steps != [] {
      StepKeepsInv(s, steps[0]);
      StepKeepsDoomed(s, steps[0], f);
      DoomedStaysDoomed(Next(s, steps[0]), steps[1..], f);
    }
  }

  lemma DoomedIsInactive(s: State, f: Uuid)
    requires Doomed(s, f)
    ensures ActiveIn(s, f) == {}
  {
    forall j ensures j !in ActiveIn(s, f) {
      assert j in ActiveIn(s, f) ==> ActiveRow(s, j);
    }
  }

  /** A family with no unrevoked row and no claim in flight never has one again. */
  lemma DeadFamilyStaysDead(s: State, steps: seq<Step>, f: Uuid)
    requires Reachable(s) && Runs(s, steps) && f in s.w.used
    requires ActiveIn(s, f) == {} && Holders(s, f) == {}
    ensures ActiveIn(Run(s, steps), f) == {}
  {
    ReachableInv(s);
    assert Doomed(s, f) by {
      forall j | ActiveRow(s, j) ensures s.w.sessions[j].familyId != f {
        assert j !in ActiveIn(s, f);
      }
      forall r <- s.reqs ensures Holds(s.reqs[r]) != Some(f) {
        assert r !in Holders(s, f);
      }
    }
    hide Inv;
    DoomedStaysDoomed(s, steps, f);
    DoomedIsInactive(Run(s, steps), f);
  }

  /** A refresh whose user is absent or not active ends its family for good,
      even if the user becomes active later. */
  lemma InactiveUserEndsTheFamily(s: State, r: RequestId, steps: seq<Step>)
    requires Reachable(s) && At(s, LookUpUser(r))
    requires var u := s.reqs[r].row.userId;
      u !in s.w.users || s.w.users[u].status == Inactive || s.w.users[u].status == Blocked
    requires Runs(Next(s, LookUpUser(r)), steps)
    ensures ActiveIn(Run(Next(s, LookUpUser(r)), steps), s.reqs[r].row.familyId) == {}
  {
    var f, t := s.reqs[r].row.familyId, Next(s, LookUpUser(r));
    ReachableInv(s);
    assert Doomed(t, f) by {
      PcHolds(s, r);
      assert Holds(s.reqs[r]) == Some(f);
    }
    StepKeepsInv(s, LookUpUser(r));
    hide Inv;
    DoomedStaysDoomed(t, steps, f);
    DoomedIsInactive(Run(t, steps), f);
  }

  lemma NoHolderMeansDoomed(t: State, f: Uuid)
    requires f in t.w.used && ActiveIn(t, f) == {} && Holders(t, f) == {}
    ensures Doomed(t, f)
  {
    forall j | ActiveRow(t, j) ensures t.w.sessions[j].familyId != f {
      assert j !in ActiveIn(t, f);
    }
    forall q <- t.reqs ensures Holds(t.reqs[q]) != Some(f) {
      assert q !in Holders(t, f);
    }
  }

  // ------------------------------------------------------ what is never undone

  /** What one run may do to the session table. */
  ghost predicate Evolved(s: State, t: State) {
    && s.hist.stored <= t.hist.stored
    && s.hist.purged <= t.hist.purged
    && (forall j <- t.w.sessions ::
          if j in s.w.sessions then SameSession(s.w.sessions[j], t.w.sessions[j])
          else j !in s.hist.stored)
  }

  /** Identity columns never change; a revocation, once written, is final. */
  predicate SameSession(before: Row, after: Row) {
    && after.userId == before.userId && after.jti == before.jti
    && after.familyId == before.familyId && after.expiresAt == before.expiresAt
    && (!before.Active() ==> after == before)
  }

  lemma StepEvolves(s: State, step: Step)
    requires Inv(s) && At(s, step)
    ensures Evolved(s, Next(s, step))
  {
    hide Inv;
    if step.StoreRow? {
      PcHolds(s, step.r);
    }
  }

  lemma EvolvesOn(s: State, t: State, u: State)
    requires Evolved(s, t) && Evolved(t, u) && s.w.sessions.Keys <= s.hist.stored
    ensures Evolved(s, u)
  {
  }

  /** Over any run: a row keeps its identity, a revocation keeps its time and
      reason, and a row that was ever deleted never comes back. */
  lemma {:induction false} RevocationIsFinal(s: State, steps: seq<Step>)
    requires Inv(s) && Runs(s, steps)
    ensures Evolved(s, Run(s, steps))
    decreases |steps|
  {
    if steps != [] {
      var t := Next(s, steps[0]);
      hide Next;
      StepKeepsInv(s, steps[0]);
      StepEvolves(s, steps[0]);
      RevocationIsFinal(t, steps[1..]);
      EvolvesOn(s, t, Run(t, steps[1..]));
    }
  }

  // ---------------------------------------------------------- conservation

  ghost function ActiveRows(s: State): set<Uuid> {
    set j | j in s.w.sessions && s.w.sessions[j].Active()
  }

  ghost function RevokedFor(s: State, reason: Reason): set<Uuid> {
    set j | j in s.w.sessions && s.w.sessions[j].revoked.Some? && s.w.sessions[j].revoked.value.reason == reason
  }

  /** Rows ever stored are active, revoked for one of four reasons, or purged. */
  lemma RowsAreConserved(s: State)
    requires Reachable(s)
    ensures |s.hist.stored| == |ActiveRows(s)| + |s.hist.purged|
      + |RevokedFor(s, Rotated)| + |RevokedFor(s, LoggedOut)| + |RevokedFor(s, LoggedOutAll)|
      + |RevokedFor(s, ReuseDetected)|
    ensures RevokedFor(s, Reason.UserInactive) == {}
  {
    hide Inv;
    ReachableInv(s);
    NoRowSaysInactive(s);
    InvRows(s);
    RowsSplitByReason(s);
    assert |s.hist.stored| == |s.w.sessions.Keys| + |s.hist.purged|;
  }

  lemma NoRowSaysInactive(s: State)
    requires Reachable(s)
    ensures RevokedFor(s, Reason.UserInactive) == {}
  {
    RevokeFamilyTouchesAtMostOne(s, 0);
  }

  lemma RowsSplitByReason(s: State)
    requires RevokedFor(s, Reason.UserInactive) == {}
    ensures |s.w.sessions.Keys| == |ActiveRows(s)|
      + |RevokedFor(s, Rotated)| + |RevokedFor(s, LoggedOut)| + |RevokedFor(s, LoggedOutAll)|
      + |RevokedFor(s, ReuseDetected)|
  {
    var a, b, c := ActiveRows(s), RevokedFor(s, Rotated), RevokedFor(s, LoggedOut);
    var d, e := RevokedFor(s, LoggedOutAll), RevokedFor(s, ReuseDetected);
    EveryRowHasAReason(s);
    ReasonsAreDisjoint(s);
    hide ActiveRows, RevokedFor;
    SizeOfFive(a, b, c, d, e);
  }

  lemma EveryRowHasAReason(s: State)
    requires RevokedFor(s, Reason.UserInactive) == {}
    ensures s.w.sessions.Keys == ActiveRows(s) + (RevokedFor(s, Rotated) + (RevokedFor(s, LoggedOut)
      + (RevokedFor(s, LoggedOutAll) + RevokedFor(s, ReuseDetected))))
  {
    forall j <- s.w.sessions ensures j in ActiveRows(s) || j in RevokedFor(s, s.w.sessions[j].revoked.value.reason) {}
    assert forall j <- s.w.sessions :: j !in RevokedFor(s, Reason.UserInactive);
  }

  lemma ReasonsAreDisjoint(s: State)
    ensures forall r1, r2 | r1 != r2 :: RevokedFor(s, r1) !! RevokedFor(s, r2)
    ensures forall r1 :: ActiveRows(s) !! RevokedFor(s, r1)
  {
  }

  lemma SizeOfFive<T>(a: set<T>, b: set<T>, c: set<T>, d: set<T>, e: set<T>)
    requires a !! b && a !! c && a !! d && a !! e && b !! c && b !! d && b !! e && c !! d && c !! e && d !! e
    ensures |a + (b + (c + (d + e)))| == |a| + |b| + |c| + |d| + |e|
  {
    assert d !! e && c !! d + e && b !! c + (d + e) && a !! b + (c + (d + e));
  }

  lemma InvRows(s: State)
    requires Inv(s)
    ensures RowsOk(s)
  {
  }

  /** The rows a refresh spent are exactly those the table calls rotated. */
  ghost predicate RotatedRowsSaySo(s: State) {
    forall j <- s.w.sessions ::
      j in s.hist.rotated <==> (s.w.sessions[j].revoked.Some? && s.w.sessions[j].revoked.value.reason == Rotated)
  }

  lemma WinMarksTheRow(s: State, r: RequestId, row: Row)
    requires RotatedRowsSaySo(s) && r in s.reqs && s.reqs[r] == Found(row)
    ensures RotatedRowsSaySo(DoRevokePresented(s, r, row))
  {
    if row.jti in s.w.sessions && s.w.sessions[row.jti].Active() {
      assert row.jti in HitSet(s.w.sessions, ByJti(row.jti, None));
    }
  }

  lemma StepKeepsRotatedRows(s: State, step: Step)
    requires Inv(s) && RotatedRowsSaySo(s) && At(s, step)
    ensures RotatedRowsSaySo(Next(s, step))
  {
    hide Inv, RotatedRowsSaySo;
    InvRotatedStored(s);
    match step
    case RevokePresented(r) => WinMarksTheRow(s, r, s.reqs[r].row);
    case StoreRow(r) => PcHolds(s, r); StoreKeepsMarks(s, r, s.reqs[r].row, s.reqs[r].parent);
    case RevokeInactive(r) =>
      InactiveRevokesNothing(s, r);
      UpdateKeepsMarks(s, ByFamily(s.reqs[r].row.familyId), Reason.UserInactive);
    case RevokeReused(r) => UpdateKeepsMarks(s, ByFamily(s.reqs[r].row.familyId), ReuseDetected);
    case RevokeLogout(r) => UpdateKeepsMarks(s, ByJti(s.reqs[r].claims.jti, None), LoggedOut);
    case RevokeAll(u) => UpdateKeepsMarks(s, ByUser(u), LoggedOutAll);
    case PurgeSessionRows(before) => PurgeKeepsMarks(s, before);
    case _ => SameRowsKeepMarks(s, step);
  }

  lemma StoreKeepsMarks(s: State, r: RequestId, row: Row, parent: Option<Uuid>)
    requires RotatedRowsSaySo(s) && r in s.reqs && row.jti !in s.hist.rotated && row.Active()
    ensures RotatedRowsSaySo(DoStore(s, r, row, parent))
  {
  }

  /** An update for another reason never touches a row a refresh has spent. */
  lemma UpdateKeepsMarks(s: State, sel: Selector, reason: Reason)
    requires RotatedRowsSaySo(s) && reason != Rotated && forall j <- s.hist.rotated :: !ActiveRow(s, j)
    ensures forall t: State | t.w.sessions == Update(s, sel, reason).w.sessions && t.hist.rotated == s.hist.rotated ::
      RotatedRowsSaySo(t)
  {
    var u := Update(s, sel, reason);
    assert RotatedRowsSaySo(u);
  }

  lemma PurgeKeepsMarks(s: State, before: int)
    requires RotatedRowsSaySo(s)
    ensures RotatedRowsSaySo(DoPurge(s, before))
  {
  }

  lemma SameRowsKeepMarks(s: State, step: Step)
    requires RotatedRowsSaySo(s) && At(s, step)
    requires !step.RevokePresented? && !step.StoreRow? && !step.RevokeInactive? && !step.RevokeReused?
    requires !step.RevokeLogout? && !step.RevokeAll? && !step.PurgeSessionRows?
    ensures RotatedRowsSaySo(Next(s, step))
  {
    hide RotatedRowsSaySo, Verify, CountSince, IpCount, ClearEmail, PurgeAttempts, SignTokenPair, Accepts,
      Limited, UserEnabled;
    var t := Next(s, step);
    assert t.w.sessions == s.w.sessions && t.hist.rotated == s.hist.rotated;
    MarksCarry(s, t);
  }

  lemma MarksCarry(s: State, t: State)
    requires RotatedRowsSaySo(s) && t.w.sessions == s.w.sessions && t.hist.rotated == s.hist.rotated
    ensures RotatedRowsSaySo(t)
  {
  }

  lemma InvRotatedStored(s: State)
    requires Inv(s)
    ensures s.hist.rotated <= s.hist.stored
    ensures forall j <- s.hist.rotated :: !ActiveRow(s, j)
  {
  }

  /** The ghost tally of wins is what the table shows, plus what was purged. */
  lemma {:induction false} TallyMatchesTable(s: State, steps: seq<Step>)
    requires Inv(s) && RotatedRowsSaySo(s) && Runs(s, steps)
    ensures RotatedRowsSaySo(Run(s, steps))
    ensures var t := Run(s, steps); RevokedFor(t, Rotated) == t.hist.rotated - t.hist.purged
    decreases |steps|
  {
    hide Inv;
    if steps == [] {
      InvRows(s);
      InvRotatedStored(s);
    } else {
      hide RotatedRowsSaySo, Next, RevokedFor;
      StepKeepsInv(s, steps[0]);
      StepKeepsRotatedRows(s, steps[0]);
      TallyMatchesTable(Next(s, steps[0]), steps[1..]);
    }
  }

  /** In every reachable state the rows marked rotated are the wins not purged. */
  lemma RotatedIsTheTally(s: State)
    requires Reachable(s)
    ensures RevokedFor(s, Rotated) == s.hist.rotated - s.hist.purged
  {
    hide Inv;
    var s0, steps :| Init(s0) && Runs(s0, steps) && Run(s0, steps) == s;
    InitInv(s0);
    assert RotatedRowsSaySo(s0);
    TallyMatchesTable(s0, steps);
  }
}
