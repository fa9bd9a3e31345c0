/** What the invariant means: statements about every reachable state and every
    run of the protocol, with any interleaving, crash or purge. */
module AuthTheorems {
  import opened Options
  import opened SessionTable
  import opened AuthTokens
  import opened AuthProtocol
  import opened AuthInvariants

  ghost predicate Reachable(s: State) {
    exists s0, steps :: Init(s0) && Runs(s0, steps) && Run(s0, steps) == s
  }

  lemma ReachableInv(s: State)
    requires Reachable(s)
    ensures Inv(s)
  {
    hide Inv;
    var s0, steps :| Init(s0) && Runs(s0, steps) && Run(s0, steps) == s;
    InitInv(s0);
    RunKeepsInv(s0, steps);
  }

  // ------------------------------------------------------------ one claim

  ghost function ActiveIn(s: State, f: Uuid): set<Uuid> {
    set j | j in s.w.sessions && s.w.sessions[j].Active() && s.w.sessions[j].familyId == f
  }

  ghost function Holders(s: State, f: Uuid): set<RequestId> {
    set r | r in s.reqs && Holds(s.reqs[r]) == Some(f)
  }

  lemma AtMostOne<T>(xs: set<T>)
    requires forall x, y | x in xs && y in xs :: x == y
    ensures |xs| <= 1
  {
    if x :| x in xs {
      assert xs == {x};
    }
  }

  /** Unrevoked rows and unfinished claims on a family together number at most one. */
  lemma OneClaimPerFamily(s: State, f: Uuid)
    requires Reachable(s)
    ensures |ActiveIn(s, f)| + |Holders(s, f)| <= 1
  {
    ReachableInv(s);
    AtMostOne(ActiveIn(s, f));
    AtMostOne(Holders(s, f));
    if j :| j in ActiveIn(s, f) {
      assert ActiveRow(s, j);
      assert Holders(s, f) == {};
    } else {
      assert ActiveIn(s, f) == {};
    }
  }

  /** revokeFamily touches at most one row, and none for an inactive user; no
      row ever carries the reason that branch would write. */
  lemma RevokeFamilyTouchesAtMostOne(s: State, f: Uuid)
    requires Reachable(s)
    ensures |HitSet(s.w.sessions, ByFamily(f))| <= 1
    ensures forall r | r in s.reqs && s.reqs[r].InactiveUser? && s.reqs[r].row.familyId == f ::
              HitSet(s.w.sessions, ByFamily(f)) == {}
    ensures forall j <- s.w.sessions ::
              s.w.sessions[j].revoked.None? || s.w.sessions[j].revoked.value.reason != Reason.UserInactive
  {
    OneClaimPerFamily(s, f);
    ReachableInv(s);
    assert HitSet(s.w.sessions, ByFamily(f)) == ActiveIn(s, f);
    forall r | r in s.reqs && s.reqs[r].InactiveUser? && s.reqs[r].row.familyId == f
      ensures HitSet(s.w.sessions, ByFamily(f)) == {}
    {
      InactiveRevokesNothing(s, r);
    }
    forall j <- s.w.sessions ensures RowOk(s, s.w.sessions[j]) {}
  }

  ghost function FamiliesOf(s: State, js: set<Uuid>): set<Uuid>
    requires js <= s.w.sessions.Keys
  {
    set j | j in js :: s.w.sessions[j].familyId
  }

  lemma {:induction false} DistinctFamilies(s: State, js: set<Uuid>)
    requires js <= s.w.sessions.Keys
    requires forall j1, j2 | j1 in js && j2 in js && s.w.sessions[j1].familyId == s.w.sessions[j2].familyId :: j1 == j2
    ensures |FamiliesOf(s, js)| == |js|
  {
    if j :| j in js {
      DistinctFamilies(s, js - {j});
      assert FamiliesOf(s, js) == FamiliesOf(s, js - {j}) + {s.w.sessions[j].familyId};
    } else {
      assert FamiliesOf(s, js) == {};
    }
  }

  /** What logoutAll reports is the number of the user's families still open. */
  lemma LogoutAllCountsFamilies(s: State, u: UserId)
    requires Reachable(s)
    ensures var hits := HitSet(s.w.sessions, ByUser(u));
      && |hits| == |FamiliesOf(s, hits)|
      && forall f :: f in FamiliesOf(s, hits) <==>
                exists j :: ActiveRow(s, j) && s.w.sessions[j].userId == u && s.w.sessions[j].familyId == f
  {
    ReachableInv(s);
    var hits := HitSet(s.w.sessions, ByUser(u));
    forall j | j in hits ensures ActiveRow(s, j) {}
    DistinctFamilies(s, hits);
  }

  // ------------------------------------------------------ tokens and rows

  /** Every refresh token whose row is still stored agrees with it, no row is
      ever linked to a successor, and a family belongs to one user. */
  lemma TokenAndTableAgree(s: State, c: Claims)
    requires Reachable(s) && c in s.w.issued && c.typ == Refresh
    ensures c.jti in s.w.sessions ==> Agrees(c, s.w.sessions[c.jti])
    ensures forall j <- s.w.sessions :: s.w.sessions[j].replacedBy == None
    ensures forall j <- s.w.sessions | s.w.sessions[j].familyId == c.fam :: s.w.sessions[j].userId == c.sub
    ensures forall d <- s.w.issued | d.typ == Refresh && d.fam == c.fam :: d.sub == c.sub
  {
    ReachableInv(s);
    forall j <- s.w.sessions ensures RowOk(s, s.w.sessions[j]) {}
  }

  /** The unique index on jti is never violated by an insert. */
  lemma InsertNeverClashes(s: State, r: RequestId)
    requires Reachable(s) && r in s.reqs && s.reqs[r].Storing?
    ensures s.reqs[r].row.jti !in s.w.sessions
    ensures s.reqs[r].row.jti !in s.hist.stored
  {
    ReachableInv(s);
    PcHolds(s, r);
  }

  // ------------------------------------------------------------ accounting

  ghost function Winners(s: State): set<RequestId> {
    set r | r in s.reqs && Spent(s.reqs[r]).Some?
  }

  ghost function SpentBy(s: State, rs: set<RequestId>): set<Uuid>
    requires rs <= Winners(s)
  {
    set r | r in rs :: Spent(s.reqs[r]).value
  }

  lemma {:induction false} DistinctSpent(s: State, rs: set<RequestId>)
    requires rs <= Winners(s)
    requires forall q, r | q in rs && r in rs && q != r :: Spent(s.reqs[q]) != Spent(s.reqs[r])
    ensures |SpentBy(s, rs)| == |rs|
  {
    if r :| r in rs {
      DistinctSpent(s, rs - {r});
      assert SpentBy(s, rs) == SpentBy(s, rs - {r}) + {Spent(s.reqs[r]).value};
    } else {
      assert SpentBy(s, rs) == {};
    }
  }

  lemma WinsPartition(s: State)
    requires WinsOk(s)
    ensures var flying := SpentBy(s, Winners(s));
      && s.hist.rotated == s.hist.succeeded + s.hist.abandoned + flying
      && flying !! s.hist.succeeded && flying !! s.hist.abandoned
      && s.hist.succeeded !! s.hist.abandoned
  {
    forall j | j in s.hist.rotated && InFlight(s, j) ensures j in SpentBy(s, Winners(s)) {
      var r :| r in s.reqs && Spent(s.reqs[r]) == Some(j);
      assert r in Winners(s);
    }
  }

  /** Every revocation a refresh ever won is a success, a rotation still in
      flight, or a rotation that was rejected or died, and never two of these. */
  lemma EveryWinIsAccountedFor(s: State)
    requires Reachable(s)
    ensures |s.hist.rotated| == |s.hist.succeeded| + |Winners(s)| + |s.hist.abandoned|
  {
    hide Inv;
    ReachableInv(s);
    forall q, r | q in Winners(s) && r in Winners(s) && q != r ensures Spent(s.reqs[q]) != Spent(s.reqs[r]) {
      SpentIsExclusive(s, q, r);
    }
    DistinctSpent(s, Winners(s));
    InvWins(s);
    WinsPartition(s);
  }

  /** Completed refreshes of token j in a run. */
  function Successes(s: State, steps: seq<Step>, j: Uuid): nat
    requires Runs(s, steps)
    decreases |steps|
  {
    if steps == [] then 0
    else (if Completes(s, steps[0], j) then 1 else 0) + Successes(Next(s, steps[0]), steps[1..], j)
  }

  /** The step inserts the row that replaces j, which ends a refresh in success. */
  predicate Completes(s: State, step: Step, j: Uuid)
    requires At(s, step)
  {
    && step.StoreRow?
    && s.reqs[step.r].parent == Some(j)
    && s.reqs[step.r].row.jti !in s.w.sessions
  }

  lemma SucceededGrowsBySuccess(s: State, step: Step, j: Uuid)
    requires At(s, step)
    ensures j in Next(s, step).hist.succeeded <==> j in s.hist.succeeded || Completes(s, step, j)
  {
  }

  lemma CompletesOnce(s: State, step: Step, j: Uuid)
    requires WinsOk(s) && At(s, step) && Completes(s, step, j)
    ensures j !in s.hist.succeeded
  {
    assert Spent(s.reqs[step.r]) == Some(j);
  }

  lemma {:induction false} CountsSuccessesFrom(s: State, steps: seq<Step>, j: Uuid)
    requires Inv(s) && Runs(s, steps)
    ensures Successes(s, steps, j) + (if j in s.hist.succeeded then 1 else 0)
         == (if j in Run(s, steps).hist.succeeded then 1 else 0)
    decreases |steps|
  {
    hide Inv, Next, Completes;
    if steps != [] {
      StepKeepsInv(s, steps[0]);
      SucceededGrowsBySuccess(s, steps[0], j);
      if Completes(s, steps[0], j) {
        InvWins(s);
        CompletesOnce(s, steps[0], j);
      }
      CountsSuccessesFrom(Next(s, steps[0]), steps[1..], j);
    }
  }

  /** No token refreshes twice, however requests interleave, die or are purged. */
  lemma AtMostOneSuccessPerToken(s: State, steps: seq<Step>, j: Uuid)
    requires Init(s) && Runs(s, steps)
    ensures Successes(s, steps, j) <= 1
    ensures Successes(s, steps, j) == 1 <==> j in Run(s, steps).hist.succeeded
  {
    hide Inv;
    InitInv(s);
    CountsSuccessesFrom(s, steps, j);
  }
}
