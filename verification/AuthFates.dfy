/** Exactly when a family is dead: no continuation makes a row of it active if
    and only if it has no active row and nobody who could still add one. */
module AuthFates {
  import opened Options
  import opened SessionTable
  import opened AuthTokens
  import opened AuthProtocol
  import opened AuthInvariants
  import opened AuthTheorems
  import opened AuthRuns
  import opened AuthLineage
  import opened AuthSequential
  import opened AuthPurge

  /** Some continuation has an active row of the family. */
  ghost predicate CanLive(s: State, f: Uuid) {
    exists steps :: Runs(s, steps) && ActiveIn(Run(s, steps), f) != {}
  }

  lemma LivesNow(s: State, f: Uuid, j: Uuid)
    requires ActiveRow(s, j) && s.w.sessions[j].familyId == f
    ensures CanLive(s, f)
  {
    assert j in ActiveIn(s, f);
    assert Runs(s, []) && Run(s, []) == s;
  }

  lemma LivesAfter(s: State, step: Step, f: Uuid)
    requires At(s, step) && CanLive(Next(s, step), f)
    ensures CanLive(s, f)
  {
    hide At, Next, ActiveIn;
    var rest :| Runs(Next(s, step), rest) && ActiveIn(Run(Next(s, step), rest), f) != {};
    var steps := [step] + rest;
    assert steps[0] == step && steps[1..] == rest;
    assert Runs(s, steps) && Run(s, steps) == Run(Next(s, step), rest);
  }

  lemma StoringLives(s: State, r: RequestId)
    requires Inv(s) && r in s.reqs && s.reqs[r].Storing?
    ensures CanLive(s, s.reqs[r].row.familyId)
  {
    var row := s.reqs[r].row;
    PcHolds(s, r);
    InvRows(s);
    var t := Next(s, StoreRow(r));
    LivesNow(t, row.familyId, row.jti);
    LivesAfter(s, StoreRow(r), row.familyId);
  }

  /** A UUID above all that were drawn. */
  lemma {:induction false} Above(used: set<Uuid>) returns (n: Uuid)
    ensures forall u <- used :: u < n
  {
    n := 0;
    if used != {} {
      var v :| v in used;
      n := Above(used - {v});
      forall u <- used ensures u == v || u in used - {v} {}
      n := n + v + 1;
    }
  }

  lemma ActiveUserLives(s: State, r: RequestId)
    requires Inv(s) && r in s.reqs && s.reqs[r].ActiveUser?
    ensures CanLive(s, s.reqs[r].row.familyId)
  {
    var n := Above(s.w.used);
    var m := Mint(n, n + 1, n + 2, ACCESS_TOKEN_SECONDS, 1);
    var step := SignRotation(r, m);
    StepKeepsInv(s, step);
    var t := Next(s, step);
    hide Inv;
    StoringLives(t, r);
    LivesAfter(s, step, s.reqs[r].row.familyId);
  }

  lemma WonLives(s: State, r: RequestId)
    requires Inv(s) && r in s.reqs && s.reqs[r].Won?
    ensures CanLive(s, s.reqs[r].row.familyId)
  {
    hide Inv, CanLive;
    var row := s.reqs[r].row;
    var enable := SetUser(row.userId, Some(User("", Active, false)));
    var t := Next(s, enable);
    StepKeepsInv(s, enable);
    StepKeepsInv(t, LookUpUser(r));
    ActiveUserLives(Next(t, LookUpUser(r)), r);
    LivesAfter(t, LookUpUser(r), row.familyId);
    LivesAfter(s, enable, row.familyId);
  }

  lemma HolderLives(s: State, r: RequestId)
    requires Inv(s) && r in s.reqs && Holds(s.reqs[r]).Some? && !s.reqs[r].InactiveUser?
    ensures CanLive(s, Holds(s.reqs[r]).value)
  {
    hide Inv, CanLive;
    match s.reqs[r]
    case Won(_) => WonLives(s, r);
    case ActiveUser(_) => ActiveUserLives(s, r);
    case Storing(_, _) => StoringLives(s, r);
  }

  /** A family has no active row in any continuation if and only if it has none
      now and every claim on it belongs to a refresh about to reject its user. */
  lemma DeadExactlyWhenDoomed(s: State, f: Uuid)
    requires Inv(s) && f in s.w.used
    ensures (forall steps | Runs(s, steps) :: ActiveIn(Run(s, steps), f) == {}) <==> Doomed(s, f)
  {
    hide Inv, Doomed, ActiveIn;
    if Doomed(s, f) {
      forall steps | Runs(s, steps) ensures ActiveIn(Run(s, steps), f) == {} {
        DoomedStaysDoomed(s, steps, f);
        DoomedIsInactive(Run(s, steps), f);
      }
    } else {
      UndoomedLives(s, f);
      var steps :| Runs(s, steps) && ActiveIn(Run(s, steps), f) != {};
      assert !(Runs(s, steps) ==> ActiveIn(Run(s, steps), f) == {});
    }
  }

  lemma UndoomedLives(s: State, f: Uuid)
    requires Inv(s) && f in s.w.used && !Doomed(s, f)
    ensures CanLive(s, f)
  {
    hide Inv, CanLive;
    if j :| ActiveRow(s, j) && s.w.sessions[j].familyId == f {
      LivesNow(s, f, j);
    } else {
      var r :| r in s.reqs && Holds(s.reqs[r]) == Some(f) && !s.reqs[r].InactiveUser?;
      HolderLives(s, r);
    }
  }

  /** A detected reuse ends the family for good if and only if, when it revokes
      the family, no other refresh of it is between winning its own revoke and
      storing the successor, unless that refresh already met an inactive user. */
  lemma ReuseEndsTheFamilyExactlyWhen(s: State, r: RequestId)
    requires Reachable(s) && At(s, RevokeReused(r))
    ensures var f, t := s.reqs[r].row.familyId, Next(s, RevokeReused(r));
      (forall steps | Runs(t, steps) :: ActiveIn(Run(t, steps), f) == {})
      <==> forall q <- s.reqs :: Holds(s.reqs[q]) == Some(f) ==> s.reqs[q].InactiveUser?
  {
    hide Inv, Doomed;
    var f, t := s.reqs[r].row.familyId, Next(s, RevokeReused(r));
    ReachableInv(s);
    ReuseRevokesTheFamily(s, r);
    StepKeepsInv(s, RevokeReused(r));
    DeadExactlyWhenDoomed(t, f);
    EmptyIsDoomed(t, f);
    ReuseKeepsClaims(s, r, f);
  }

  lemma EmptyIsDoomed(t: State, f: Uuid)
    requires f in t.w.used && ActiveIn(t, f) == {}
    ensures Doomed(t, f) <==> forall q <- t.reqs :: Holds(t.reqs[q]) == Some(f) ==> t.reqs[q].InactiveUser?
  {
    forall j | ActiveRow(t, j) ensures t.w.sessions[j].familyId != f {
      assert j !in ActiveIn(t, f);
    }
  }

  lemma ReuseKeepsClaims(s: State, r: RequestId, f: Uuid)
    requires At(s, RevokeReused(r))
    ensures var t := Next(s, RevokeReused(r));
      (forall q <- t.reqs :: Holds(t.reqs[q]) == Some(f) ==> t.reqs[q].InactiveUser?)
      <==> forall q <- s.reqs :: Holds(s.reqs[q]) == Some(f) ==> s.reqs[q].InactiveUser?
  {
    var t := Next(s, RevokeReused(r));
    forall q <- s.reqs | q != r ensures q in t.reqs && t.reqs[q] == s.reqs[q] {}
  }

  /** logoutAll ends one of the user's families for good under the same condition. */
  lemma LogoutAllEndsAFamilyExactlyWhen(s: State, u: UserId, f: Uuid, member: Uuid)
    requires Reachable(s) && member in s.hist.minted
    requires s.hist.minted[member].familyId == f && s.hist.minted[member].userId == u
    ensures var t := Next(s, RevokeAll(u));
      (forall steps | Runs(t, steps) :: ActiveIn(Run(t, steps), f) == {})
      <==> forall q <- s.reqs :: Holds(s.reqs[q]) == Some(f) ==> s.reqs[q].InactiveUser?
  {
    hide Inv, Doomed;
    ReachableInv(s);
    StepKeepsInv(s, RevokeAll(u));
    var t := Next(s, RevokeAll(u));
    InvMinted(s);
    NoActiveRowOfUser(s, u);
    forall i | i in ActiveIn(t, f) ensures t.w.sessions[i].userId == u {
      RowHasItsUser(t, i);
      SameFamilySameUser(t, i, member);
    }
    assert forall i | i in ActiveIn(t, f) :: ActiveRow(t, i);
    DeadExactlyWhenDoomed(t, f);
    EmptyIsDoomed(t, f);
  }

  // --------------------------------------------------- the race that slips by

  /** Two requests present the same live token: both find the row, one wins the
      revoke, the other is told of a reuse while the first is still in flight. */
  lemma TwoPresentOneToken(s: State, token: Claims) returns (t: State)
    requires Reachable(s) && s.reqs == map[]
    requires Verify(s.w.issued, token, TokenType.Refresh, s.w.clock).Some?
    requires token.jti in s.w.sessions && s.w.sessions[token.jti].Active()
    ensures Reachable(t) && var row := s.w.sessions[token.jti]; t.reqs == map[1 := Won(row), 2 := Reused(row)]
  {
    hide Reaches, Reachable, Verify, At, Next;
    var row := s.w.sessions[token.jti];
    FoundIsReached(s, 1, token);
    var a := Goto(s, 1, Found(row));
    FoundIsReached(a, 2, token);
    ReachesOn(s, a, Goto(a, 2, Found(row)));
    ReachableOn(s, Goto(a, 2, Found(row)));
    t := BothRevoke(Goto(a, 2, Found(row)), row);
  }

  lemma BothRevoke(s: State, row: Row) returns (t: State)
    requires Reachable(s) && s.reqs == map[1 := Found(row), 2 := Found(row)]
    requires row.jti in s.w.sessions && s.w.sessions[row.jti] == row && row.Active()
    ensures Reachable(t) && t.reqs == map[1 := Won(row), 2 := Reused(row)]
  {
    hide Reaches, Reachable;
    RevokePresentedOutcome(s, 1);
    ReachesStep(s, RevokePresented(1));
    var u := Next(s, RevokePresented(1));
    RevokePresentedOutcome(u, 2);
    Then(s, u, RevokePresented(2));
    t := Next(u, RevokePresented(2));
    ReachableOn(s, t);
    assert row.jti in HitSet(s.w.sessions, ByJti(row.jti, None));
  }

  /** One user logs in; the family is 2, its first refresh token 1. */
  lemma OneSession() returns (s: State, token: Claims)
    ensures Reachable(s) && s.reqs == map[]
    ensures Verify(s.w.issued, token, TokenType.Refresh, s.w.clock).Some?
    ensures token.jti in s.w.sessions && s.w.sessions[token.jti].Active() && s.w.sessions[token.jti].familyId == 2
  {
    hide Reaches, Reachable;
    var m := Mint(1, 2, 3, ACCESS_TOKEN_SECONDS, 1);
    var s0 := State(World(map[], [], map[], 0, {}, {}), map[], History(map[], {}, {}, {}, {}, {}));
    StartIsReachable(s0);
    var s1 := CallIsASchedule(s0, 0, ChangeUser(0, Some(User("", Active, false))));
    ReachableOn(s0, s1);
    s := CallIsASchedule(s1, 0, Open(0, m));
    ReachableOn(s1, s);
    token := Claims(0, TokenType.Refresh, 1, 2, 1);
  }

  lemma StartIsReachable(s: State)
    requires Init(s)
    ensures Reachable(s)
  {
    assert Runs(s, []) && Run(s, []) == s;
  }

  /** Reuse can miss a successor: a reachable state in which a reuse revokes the
      family, and a continuation in which the family has an active row again. */
  lemma ReuseCanMissTheSuccessor()
    ensures exists s, r, steps ::
      && Reachable(s) && At(s, RevokeReused(r)) && Runs(Next(s, RevokeReused(r)), steps)
      && ActiveIn(Run(Next(s, RevokeReused(r)), steps), s.reqs[r].row.familyId) != {}
  {
    hide Reachable, Runs, ActiveIn, Verify;
    var s0, token := OneSession();
    var s := TwoPresentOneToken(s0, token);
    ReuseEndsTheFamilyExactlyWhen(s, 2);
    assert Holds(s.reqs[1]) == Some(s.reqs[2].row.familyId);
  }
}
