/** Whole calls again: a session family that has been closed stays closed, and
    the ways a call closes one. */
module AuthClosedFamilies {
  import opened Options
  import opened SessionTable
  import opened AuthTokens
  import opened AuthProtocol
  import opened AuthInvariants
  import opened AuthTheorems
  import opened AuthRuns
  import opened AuthSequential
  import opened AuthPurge

  /** The family exists and no row of it is unrevoked. */
  ghost predicate FamilyClosed(w: World, f: Uuid) {
    f in w.used && forall j <- w.sessions :: w.sessions[j].familyId == f ==> w.sessions[j].revoked.Some?
  }

  lemma ClosedIsDoomed(s: State, f: Uuid)
    requires s.reqs == map[]
    ensures FamilyClosed(s.w, f) <==> Doomed(s, f)
  {
    if Doomed(s, f) {
      forall j <- s.w.sessions | s.w.sessions[j].familyId == f ensures !s.w.sessions[j].Active() {
        assert !ActiveRow(s, j);
      }
    }
  }

  lemma DoomedOn(s: State, t: State, f: Uuid)
    requires Inv(s) && Doomed(s, f) && Reaches(s, t)
    ensures Doomed(t, f)
  {
    hide Inv, Doomed;
    var steps :| Runs(s, steps) && Run(s, steps) == t;
    DoomedStaysDoomed(s, steps, f);
  }

  lemma CallKeepsClosed(w: World, call: Call, f: Uuid)
    requires Quiescent(w) && Possible(w, call) && FamilyClosed(w, f)
    ensures FamilyClosed(Exec(w, call).0, f)
  {
    hide Reachable, Inv, Doomed, Reaches, Exec, Possible, FamilyClosed;
    var s :| Reachable(s) && s.w == w && s.reqs == map[];
    var t := CallIsASchedule(s, 0, call);
    ReachableInv(s);
    ClosedIsDoomed(s, f);
    DoomedOn(s, t, f);
    ClosedIsDoomed(t, f);
  }

  lemma ClosedRejects(w: World, token: Claims, m: Mint)
    requires Consistent(w) && FamilyClosed(w, token.fam)
    ensures ExecRefresh(w, token, m).1 == Unauthorized
  {
  }

  /** No token of a closed family ever refreshes again, whatever is called. */
  lemma {:induction false} ClosedFamilyNeverRefreshes(w: World, f: Uuid, calls: seq<Call>, i: nat)
    requires Quiescent(w) && AllPossible(w, calls) && FamilyClosed(w, f)
    requires i < |calls| && calls[i].Refresh? && calls[i].token.fam == f
    ensures Outcomes(w, calls)[i] == Unauthorized
    decreases |calls|
  {
    hide Quiescent, Consistent, FamilyClosed, Possible, ExecRefresh, ExecLogin, ExecLogout;
    if i == 0 {
      QuiescentIsConsistent(w);
      ClosedRejects(w, calls[0].token, calls[0].mint);
    } else {
      hide Exec;
      CallsStayQuiescent(w, calls[0]);
      CallKeepsClosed(w, calls[0], f);
      ClosedFamilyNeverRefreshes(Exec(w, calls[0]).0, f, calls[1..], i - 1);
    }
  }

  /** In a quiescent world one row at most is open per family. */
  lemma OneOpenRow(w: World, j1: Uuid, j2: Uuid)
    requires Quiescent(w) && j1 in w.sessions && j2 in w.sessions
    requires w.sessions[j1].Active() && w.sessions[j2].Active()
    requires w.sessions[j1].familyId == w.sessions[j2].familyId
    ensures j1 == j2
  {
    hide Inv;
    var s :| Reachable(s) && s.w == w && s.reqs == map[];
    ReachableInv(s);
    InvClaims(s);
    assert ActiveRow(s, j1) && ActiveRow(s, j2);
  }

  lemma InvClaims(s: State)
    requires Inv(s)
    ensures OneClaim(s)
  {
  }

  lemma FamilyIsUsed(w: World, j: Uuid)
    requires Quiescent(w) && j in w.sessions
    ensures w.sessions[j].familyId in w.used
  {
    hide Inv;
    var s :| Reachable(s) && s.w == w && s.reqs == map[];
    ReachableInv(s);
    InvRows(s);
    InvMinted(s);
    assert RowOk(s, w.sessions[j]);
  }

  /** Presenting a token that was already spent, logging out with a live one, or
      refreshing for a user who is absent, inactive or blocked: each closes the
      whole family. */
  lemma WhatClosesAFamily(w: World, token: Claims, m: Mint)
    requires Quiescent(w) && token in w.issued && token.typ == TokenType.Refresh && w.clock / 1000 < token.exp
    requires token.jti in w.sessions
    ensures var t, outcome := Exec(w, Call.Refresh(token, m)).0, Exec(w, Call.Refresh(token, m)).1;
      || w.sessions[token.jti].revoked.Some? || token.sub !in w.users
      || w.users[token.sub].status == Inactive || w.users[token.sub].status == Blocked ==>
        FamilyClosed(t, token.fam) && outcome == Unauthorized
    ensures w.sessions[token.jti].revoked.None? ==> FamilyClosed(Exec(w, Call.Logout(token)).0, token.fam)
  {
    QuiescentIsConsistent(w);
    FamilyIsUsed(w, token.jti);
    TokenIsAlone(w, token);
    hide Quiescent;
    if w.sessions[token.jti].Active() {
      ClosedByJti(w, token.jti, LoggedOut);
      ClosedByJti(w, token.jti, Rotated);
    }
    RefusalCloses(w, token, m);
    hide FamilyClosed;
  }

  ghost predicate Alone(w: World, j: Uuid) {
    && j in w.sessions && w.sessions[j].familyId in w.used
    && forall i <- w.sessions | w.sessions[i].Active() && w.sessions[i].familyId == w.sessions[j].familyId :: i == j
  }

  lemma TokenIsAlone(w: World, token: Claims)
    requires Quiescent(w) && token.jti in w.sessions
    ensures w.sessions[token.jti].Active() ==> Alone(w, token.jti)
  {
    FamilyIsUsed(w, token.jti);
    hide Quiescent;
    if w.sessions[token.jti].Active() {
      forall j <- w.sessions | w.sessions[j].Active() && w.sessions[j].familyId == w.sessions[token.jti].familyId
        ensures j == token.jti
      {
        OneOpenRow(w, j, token.jti);
      }
    }
  }

  lemma ClosedByJti(w: World, j: Uuid, reason: Reason)
    requires Alone(w, j)
    ensures FamilyClosed(UpdateIn(w, ByJti(j, None), reason), w.sessions[j].familyId)
  {
  }

  lemma ClosedByFamily(w: World, f: Uuid, reason: Reason)
    requires f in w.used
    ensures FamilyClosed(UpdateIn(w, ByFamily(f), reason), f)
  {
  }

  lemma RefusalCloses(w: World, token: Claims, m: Mint)
    requires token.jti in w.sessions && w.sessions[token.jti].familyId in w.used
    requires Verify(w.issued, token, TokenType.Refresh, w.clock).Some? && Agrees(token, w.sessions[token.jti])
    ensures !w.sessions[token.jti].Active() || !UserEnabled(w, token.sub) ==>
      FamilyClosed(ExecRefresh(w, token, m).0, token.fam) && ExecRefresh(w, token, m).1 == Unauthorized
  {
    hide FamilyClosed;
    var spent := UpdateIn(w, ByJti(token.jti, None), Rotated);
    ClosedByFamily(w, token.fam, ReuseDetected);
    ClosedByFamily(spent, token.fam, Reason.UserInactive);
    hide RevokeWhere, Issue, Verify;
  }

  /** A refresh that succeeds keeps the family and user and leaves exactly its
      new row open; the token it consumed is the end of the old one. */
  lemma SuccessfulRefreshRotates(w: World, token: Claims, m: Mint)
    requires Quiescent(w) && Fresh(w, m) && ExecRefresh(w, token, m).1.Issued?
    ensures var t, p := ExecRefresh(w, token, m).0, ExecRefresh(w, token, m).1.pair;
      && p.refresh.fam == token.fam && p.refresh.sub == token.sub && p.refresh.jti != token.jti
      && (forall j <- t.sessions | t.sessions[j].familyId == token.fam ::
            t.sessions[j].Active() <==> j == p.refresh.jti)
      && p.refresh.jti in t.sessions && Agrees(p.refresh, t.sessions[p.refresh.jti])
      && token.jti in t.sessions && t.sessions[token.jti].revoked == Some(Revocation(w.clock, Rotated))
  {
    QuiescentIsConsistent(w);
    forall j <- w.sessions | w.sessions[j].Active() && w.sessions[j].familyId == token.fam
      ensures j == token.jti
    {
      OneOpenRow(w, j, token.jti);
    }
    hide Quiescent;
  }

  /** When a refresh succeeds, exactly; and a refusal of a token whose session is
      stored always costs the whole family, also when the configured lifetime is
      not positive: the presented token is spent before the new pair fails. */
  lemma RefreshSucceedsExactlyWhen(w: World, token: Claims, m: Mint)
    requires Quiescent(w) && Fresh(w, m)
    ensures var t, outcome := Exec(w, Call.Refresh(token, m)).0, Exec(w, Call.Refresh(token, m)).1;
      var live := token in w.issued && token.typ == TokenType.Refresh && w.clock / 1000 < token.exp;
      var stored := live && token.jti in w.sessions;
      && (outcome.Issued? <==>
            && stored && w.sessions[token.jti].revoked.None?
            && token.sub in w.users && w.users[token.sub].status == Active
            && m.refreshTtl > 0)
      && (stored && !outcome.Issued? ==> FamilyClosed(t, token.fam))
      && (!stored ==> t == w && outcome == Unauthorized)
  {
    QuiescentIsConsistent(w);
    if Verify(w.issued, token, TokenType.Refresh, w.clock).Some? && token.jti in w.sessions {
      FamilyIsUsed(w, token.jti);
      WhatClosesAFamily(w, token, m);
      if w.sessions[token.jti].Active() && UserEnabled(w, token.sub) && m.refreshTtl <= 0 {
        FailedSigningCloses(w, token, m);
      }
      hide Quiescent, FamilyClosed;
    }
  }

  lemma FailedSigningCloses(w: World, token: Claims, m: Mint)
    requires Quiescent(w) && Verify(w.issued, token, TokenType.Refresh, w.clock).Some?
    requires token.jti in w.sessions && w.sessions[token.jti].Active() && UserEnabled(w, token.sub)
    requires m.refreshTtl <= 0
    ensures FamilyClosed(ExecRefresh(w, token, m).0, token.fam)
  {
    QuiescentIsConsistent(w);
    FamilyIsUsed(w, token.jti);
    hide Quiescent;
    forall j <- w.sessions | w.sessions[j].Active() && w.sessions[j].familyId == token.fam
      ensures j == token.jti
    {
      OneOpenRow(w, j, token.jti);
    }
  }
}
