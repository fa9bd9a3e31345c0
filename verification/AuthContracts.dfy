/** What each whole call answers and leaves behind, written out in the columns of
    the tables, the claims of the tokens and the numbers of the configuration. */
module AuthContracts {
  import opened Options
  import opened SessionTable
  import opened AuthTokens
  import opened AuthProtocol
  import opened AuthInvariants
  import opened AuthTheorems
  import opened AuthRuns
  import opened AuthSequential
  import opened AuthPurge
  import opened AuthClosedFamilies
  import opened AuthLimiter
  import opened AuthLimiterLimits

  lemma NeverLinked(w: World, j: Uuid)
    requires Quiescent(w) && j in w.sessions
    ensures w.sessions[j].replacedBy == None
  {
    hide Inv;
    var s :| Reachable(s) && s.w == w && s.reqs == map[];
    ReachableInv(s);
    InvRows(s);
    assert RowOk(s, w.sessions[j]);
  }

  // ------------------------------------------------------------------ refresh

  /** A token that was never signed, is not a refresh token or has expired, and one
      whose session is not stored: rejected, and nothing changes. */
  lemma RefreshOfNoSession(w: World, token: Claims, m: Mint)
    requires
      || token !in w.issued || token.typ != TokenType.Refresh || w.clock / 1000 >= token.exp
      || token.jti !in w.sessions
    ensures Exec(w, Call.Refresh(token, m)) == (w, Unauthorized)
  {
  }

  /** A token that was spent before: rejected, and every open session of its family
      is closed now, for that reason. */
  lemma RefreshOfASpentToken(w: World, token: Claims, m: Mint)
    requires Quiescent(w) && token in w.issued && token.typ == TokenType.Refresh && w.clock / 1000 < token.exp
    requires token.jti in w.sessions && w.sessions[token.jti].revoked.Some?
    ensures var t := Exec(w, Call.Refresh(token, m)).0;
      && Exec(w, Call.Refresh(token, m)).1 == Unauthorized
      && t == w.(sessions := t.sessions) && t.sessions.Keys == w.sessions.Keys
      && forall j <- w.sessions :: t.sessions[j] ==
           if w.sessions[j].familyId == token.fam && w.sessions[j].revoked.None?
           then w.sessions[j].(revoked := Some(Revocation(w.clock, ReuseDetected))) else w.sessions[j]
  {
    QuiescentIsConsistent(w);
    FamilyUpdate(w.sessions, token.fam, w.clock, ReuseDetected);
    hide Quiescent, RevokeWhere;
  }

  /** The only write of a refresh that won its row and goes no further. */
  function OnlySpent(w: World, token: Claims): Table
    requires token.jti in w.sessions
  {
    w.sessions[token.jti := w.sessions[token.jti].(revoked := Some(Revocation(w.clock, Rotated)))]
  }

  /** An open token of a user who is absent, inactive or blocked: rejected, and the
      presented session, spent as a rotation, is the only row that changes. */
  lemma RefreshForNoActiveUser(w: World, token: Claims, m: Mint)
    requires Quiescent(w) && token in w.issued && token.typ == TokenType.Refresh && w.clock / 1000 < token.exp
    requires token.jti in w.sessions && w.sessions[token.jti].revoked.None?
    requires token.sub !in w.users || w.users[token.sub].status == Inactive || w.users[token.sub].status == Blocked
    ensures var t := Exec(w, Call.Refresh(token, m)).0;
      && Exec(w, Call.Refresh(token, m)).1 == Unauthorized
      && t == w.(sessions := t.sessions)
      && t.sessions ==
           w.sessions[token.jti := w.sessions[token.jti].(revoked := Some(Revocation(w.clock, Rotated)))]
  {
    var row := w.sessions[token.jti];
    RotatedRow(w, token);
    FamilyUpdate(OnlySpent(w, token), row.familyId, w.clock, Reason.UserInactive);
    NoneOpen(w, token);
    hide Quiescent, RevokeWhere;
    var spent := OnlySpent(w, token);
    assert RevokeWhere(spent, ByFamily(row.familyId), w.clock, Reason.UserInactive) == spent;
  }

  lemma RotatedRow(w: World, token: Claims)
    requires Quiescent(w) && token in w.issued && token.typ == TokenType.Refresh
    requires token.jti in w.sessions && w.sessions[token.jti].revoked.None?
    ensures Agrees(token, w.sessions[token.jti])
    ensures UpdateIn(w, ByJti(token.jti, None), Rotated).sessions == OnlySpent(w, token)
  {
    QuiescentIsConsistent(w);
    NeverLinked(w, token.jti);
    JtiUpdate(w.sessions, token.jti, None, w.clock, Rotated);
    hide Quiescent, RevokeWhere;
  }

  lemma NoneOpen(w: World, token: Claims)
    requires Quiescent(w) && token.jti in w.sessions && w.sessions[token.jti].revoked.None?
    ensures forall j <- OnlySpent(w, token) ::
      OnlySpent(w, token)[j].familyId == w.sessions[token.jti].familyId ==> OnlySpent(w, token)[j].revoked.Some?
  {
    forall j <- w.sessions | w.sessions[j].Active() && w.sessions[j].familyId == w.sessions[token.jti].familyId
      ensures j == token.jti
    {
      OneOpenRow(w, j, token.jti);
    }
    hide Quiescent;
  }

  /** An open token of an active user: the presented session is spent, and a pair of
      the same user and family is answered whose session is stored beside it; if
      the configured lifetime is not positive, the token is spent for nothing. */
  lemma RefreshOfAnActiveUser(w: World, token: Claims, m: Mint)
    requires Quiescent(w) && Fresh(w, m)
    requires token in w.issued && token.typ == TokenType.Refresh && w.clock / 1000 < token.exp
    requires token.jti in w.sessions && w.sessions[token.jti].revoked.None?
    requires token.sub in w.users && w.users[token.sub].status == Active
    ensures var t, o := Exec(w, Call.Refresh(token, m)).0, Exec(w, Call.Refresh(token, m)).1;
      var spent := w.sessions[token.jti := w.sessions[token.jti].(revoked := Some(Revocation(w.clock, Rotated)))];
      var refresh := Claims(token.sub, TokenType.Refresh, m.jti, token.fam, w.clock / 1000 + m.refreshTtl);
      var access := Claims(token.sub, Access, m.accessJti, token.fam, w.clock / 1000 + m.accessTtl);
      var ends := 1000 * (w.clock / 1000 + m.refreshTtl);
      if m.refreshTtl > 0 then
        && o == Issued(TokenPair(access, refresh, 900, ends))
        && t.sessions == spent[m.jti := Row(token.sub, m.jti, token.fam, ends, None, None)]
        && t == w.(sessions := t.sessions, issued := w.issued + {access, refresh},
                   used := w.used + {m.jti, m.familyId, m.accessJti})
      else o == ServerError && t == w.(sessions := t.sessions) && t.sessions == spent
  {
    RotatedRow(w, token);
    QuiescentIsConsistent(w);
    assert m.jti !in OnlySpent(w, token);
    hide Quiescent, RevokeWhere;
    var spent := UpdateIn(w, ByJti(token.jti, None), Rotated);
    IssueWrittenOut(spent, token.sub, Some(token.fam), m);
    hide Issue;
  }

  /** Signing, storing and answering. */
  lemma IssueWrittenOut(w: World, user: UserId, familyId: Option<Uuid>, m: Mint)
    requires m.jti !in w.sessions
    ensures var t, o := Issue(w, user, familyId, m).0, Issue(w, user, familyId, m).1;
      var fam := if familyId.Some? then familyId.value else m.familyId;
      var refresh := Claims(user, TokenType.Refresh, m.jti, fam, w.clock / 1000 + m.refreshTtl);
      var access := Claims(user, Access, m.accessJti, fam, w.clock / 1000 + m.accessTtl);
      var ends := 1000 * (w.clock / 1000 + m.refreshTtl);
      if m.refreshTtl > 0 then
        && o == Issued(TokenPair(access, refresh, 900, ends))
        && t.sessions == w.sessions[m.jti := Row(user, m.jti, fam, ends, None, None)]
        && t == w.(sessions := t.sessions, issued := w.issued + {access, refresh},
                   used := w.used + {m.jti, m.familyId, m.accessJti})
      else o == ServerError && t == w
  {
  }

  // ------------------------------------------------------------------- logout

  /** A live token closes its own session, if that is open, and no other. */
  lemma LogoutWrittenOut(w: World, token: Claims)
    requires Quiescent(w)
    ensures var t, o := Exec(w, Call.Logout(token)).0, Exec(w, Call.Logout(token)).1;
      var live := token in w.issued && token.typ == TokenType.Refresh && w.clock / 1000 < token.exp;
      if !live then t == w && o == Unauthorized
      else if token.jti in w.sessions && w.sessions[token.jti].revoked.None? then
        && o == Closed(1) && t == w.(sessions := t.sessions)
        && t.sessions ==
             w.sessions[token.jti := w.sessions[token.jti].(revoked := Some(Revocation(w.clock, LoggedOut)))]
      else t == w && o == Closed(0)
  {
    JtiUpdate(w.sessions, token.jti, None, w.clock, LoggedOut);
    if token.jti in w.sessions { NeverLinked(w, token.jti); }
    hide Quiescent, RevokeWhere;
  }

  /** Every open session of the user is closed now, and their number is answered. */
  lemma LogoutAllWrittenOut(w: World, u: UserId)
    ensures var t := Exec(w, LogoutAll(u)).0;
      && Exec(w, LogoutAll(u)).1
           == Closed(|set j | j in w.sessions && w.sessions[j].userId == u && w.sessions[j].revoked.None?|)
      && t == w.(sessions := t.sessions) && t.sessions.Keys == w.sessions.Keys
      && forall j <- w.sessions :: t.sessions[j] ==
           if w.sessions[j].userId == u && w.sessions[j].revoked.None?
           then w.sessions[j].(revoked := Some(Revocation(w.clock, LoggedOutAll))) else w.sessions[j]
  {
    UserUpdate(w.sessions, u, w.clock, LoggedOutAll);
    hide RevokeWhere;
  }

  // -------------------------------------------------------------------- login

  lemma LimitWrittenOut(w: World, email: string, ip: Option<string>)
    ensures Limited(CountSince(w.attempts, Email(email), w.clock - WINDOW), IpCount(w, ip, w.clock - WINDOW))
       <==>
         || |set i: nat | i < |w.attempts| && w.attempts[i].email == email && w.attempts[i].at >= w.clock - 900000| >= 5
         || (ip.Some? && ip.value != ""
             && |set i: nat | i < |w.attempts| && w.attempts[i].ip == ip && w.attempts[i].at >= w.clock - 900000| >= 20)
  {
    EmailCountIsSize(w.attempts, email, w.clock - WINDOW);
    if ip.Some? { IpCountIsSize(w.attempts, ip.value, w.clock - WINDOW); }
    hide CountSince;
  }

  /** Limited: five failures of the email, or twenty of a given address, in the last
      900000 milliseconds. The call is then refused and nothing changes. */
  lemma LoginLimitedExactlyWhen(w: World, email: string, ip: Option<string>, found: Option<UserId>,
        matches: bool, m: Mint)
    ensures var call := Call.Login(email, ip, found, matches, m);
      && (Exec(w, call).1 == TooManyRequests
          <==>
            || |set i: nat | i < |w.attempts| && w.attempts[i].email == email && w.attempts[i].at >= w.clock - 900000|
                 >= 5
            || (ip.Some? && ip.value != ""
                && |set i: nat | i < |w.attempts| && w.attempts[i].ip == ip && w.attempts[i].at >= w.clock - 900000|
                     >= 20))
      && (Exec(w, call).1 == TooManyRequests ==> Exec(w, call).0 == w)
  {
    LimitWrittenOut(w, email, ip);
    hide CountSince, IpCount, Limited;
  }

  /** Below the limits, a login without the right password of an active user who has
      one is refused, and exactly one attempt is recorded. */
  lemma LoginRefusedExactlyWhen(w: World, email: string, ip: Option<string>, found: Option<UserId>,
        matches: bool, m: Mint)
    ensures var call := Call.Login(email, ip, found, matches, m);
      && (Exec(w, call).1 == Unauthorized
          <==>
            && Exec(w, call).1 != TooManyRequests
            && (|| found.None? || found.value !in w.users || !w.users[found.value].hasPassword
                || w.users[found.value].status == Inactive || w.users[found.value].status == Blocked || !matches))
      && (Exec(w, call).1 == Unauthorized ==>
            Exec(w, call).0 == w.(attempts := w.attempts + [Attempt(email, ip, w.clock)]))
  {
    hide CountSince, IpCount, Limited;
  }

  /** A login succeeds exactly when it is below both limits, the user found exists,
      has a password, is active, the password matches, and the token it is given
      is alive. */
  lemma LoginSucceedsExactlyWhen(w: World, email: string, ip: Option<string>, found: Option<UserId>,
        matches: bool, m: Mint)
    requires Quiescent(w) && Possible(w, Call.Login(email, ip, found, matches, m))
    ensures Exec(w, Call.Login(email, ip, found, matches, m)).1.Issued?
      <==>
        && |set i: nat | i < |w.attempts| && w.attempts[i].email == email && w.attempts[i].at >= w.clock - 900000| < 5
        && (ip.None? || ip.value == ""
            || |set i: nat | i < |w.attempts| && w.attempts[i].ip == ip && w.attempts[i].at >= w.clock - 900000| < 20)
        && found.Some? && found.value in w.users
        && w.users[found.value].hasPassword && w.users[found.value].status == Active
        && matches && m.refreshTtl > 0
  {
    LimitWrittenOut(w, email, ip);
    QuiescentIsConsistent(w);
    hide Quiescent, CountSince, IpCount, Limited, ClearEmail;
  }

  /** With the right credentials, below the limits: the email's attempts go, every
      one and no other, and a pair of a new family is answered and stored. */
  lemma LoginOpens(w: World, email: string, ip: Option<string>, found: Option<UserId>, matches: bool, m: Mint)
    requires Quiescent(w) && Possible(w, Call.Login(email, ip, found, matches, m))
    requires Exec(w, Call.Login(email, ip, found, matches, m)).1 !in {Unauthorized, TooManyRequests}
    ensures var call := Call.Login(email, ip, found, matches, m);
      var t, o := Exec(w, call).0, Exec(w, call).1;
      && found.Some?
      && (forall a :: multiset(t.attempts)[a] == if a.email == email then 0 else multiset(w.attempts)[a])
      && Thinned(t.attempts, w.attempts)
      && var user := found.value;
         var refresh := Claims(user, TokenType.Refresh, m.jti, m.familyId, w.clock / 1000 + m.refreshTtl);
         var access := Claims(user, Access, m.accessJti, m.familyId, w.clock / 1000 + m.accessTtl);
         var ends := 1000 * (w.clock / 1000 + m.refreshTtl);
         if m.refreshTtl > 0 then
           && o == Issued(TokenPair(access, refresh, 900, ends))
           && t.sessions == w.sessions[m.jti := Row(user, m.jti, m.familyId, ends, None, None)]
           && t == w.(sessions := t.sessions, attempts := t.attempts, issued := w.issued + {access, refresh},
                      used := w.used + {m.jti, m.familyId, m.accessJti})
         else o == ServerError && t == w.(attempts := t.attempts)
  {
    QuiescentIsConsistent(w);
    ClearedAttempts(w.attempts, email);
    hide Quiescent, CountSince, IpCount, Limited, ClearEmail, Thinned;
    var cleared := w.(attempts := ClearEmail(w.attempts, email));
    IssueWrittenOut(cleared, found.value, None, m);
    hide Issue;
  }

  /** Register and google, once the user is known: a pair of a new family, whatever
      the user's status. */
  lemma OpenWrittenOut(w: World, user: UserId, m: Mint)
    requires Quiescent(w) && Possible(w, Open(user, m))
    ensures var t, o := Exec(w, Open(user, m)).0, Exec(w, Open(user, m)).1;
      var refresh := Claims(user, TokenType.Refresh, m.jti, m.familyId, w.clock / 1000 + m.refreshTtl);
      var access := Claims(user, Access, m.accessJti, m.familyId, w.clock / 1000 + m.accessTtl);
      var ends := 1000 * (w.clock / 1000 + m.refreshTtl);
      if m.refreshTtl > 0 then
        && o == Issued(TokenPair(access, refresh, 900, ends))
        && t.sessions == w.sessions[m.jti := Row(user, m.jti, m.familyId, ends, None, None)]
        && t == w.(sessions := t.sessions, issued := w.issued + {access, refresh},
                   used := w.used + {m.jti, m.familyId, m.accessJti})
      else o == ServerError && t == w
  {
    QuiescentIsConsistent(w);
    IssueWrittenOut(w, user, None, m);
    hide Quiescent, Issue;
  }

  /** Sessions that expired before the bound go, and attempts made before it. */
  lemma PurgeWrittenOut(w: World, before: int)
    ensures var t := Exec(w, Purge(before)).0;
      && t == w.(sessions := t.sessions, attempts := t.attempts)
      && t.sessions == (map j | j in w.sessions && w.sessions[j].expiresAt >= before :: w.sessions[j])
      && (forall a :: multiset(t.attempts)[a] == if a.at < before then 0 else multiset(w.attempts)[a])
      && Thinned(t.attempts, w.attempts)
  {
    PurgedAttempts(w.attempts, before);
    hide PurgeAttempts, Thinned;
  }

  // ------------------------------------------- the steps that decide, in flight

  /** The steps at which a request takes one way or the other, in any state. */
  lemma StepsDecide(s: State, r: RequestId)
    requires r in s.reqs
    ensures forall found, matches | At(s, CheckPassword(r, found, matches)) ::
      var pc, next := s.reqs[r], Next(s, CheckPassword(r, found, matches)).reqs[r];
      if found.Some? && found.value in s.w.users && s.w.users[found.value].hasPassword
         && s.w.users[found.value].status == Active && matches
      then next == Clearing(pc.email, found.value) else next == Failing(pc.email, pc.ip)
    ensures At(s, LookUpUser(r)) ==>
      var row, next := s.reqs[r].row, Next(s, LookUpUser(r)).reqs[r];
      if row.userId in s.w.users && s.w.users[row.userId].status == Active
      then next == ActiveUser(row) else next == InactiveUser(row)
    ensures At(s, RevokePresented(r)) ==>
      var row, next := s.reqs[r].row, Next(s, RevokePresented(r)).reqs[r];
      if row.jti in s.w.sessions && s.w.sessions[row.jti].revoked.None?
      then next == Won(row) else next == Reused(row)
  {
    if s.reqs[r].Found? {
      JtiUpdate(s.w.sessions, s.reqs[r].row.jti, None, s.w.clock, Rotated);
      hide HitSet, RevokeWhere;
    }
  }

  /** The limiter's decision, on the count per email it read before and the count
      per address it reads now; a login reads both from its own window start. */
  lemma LimiterDecides(s: State, r: RequestId)
    requires At(s, CountByIp(r))
    ensures var pc := s.reqs[r];
      r in Next(s, CountByIp(r)).reqs
      <==>
        && pc.byEmail < 5
        && (pc.ip.None? || pc.ip.value == ""
            || |set i: nat | i < |s.w.attempts| && s.w.attempts[i].ip == pc.ip && s.w.attempts[i].at >= pc.since| < 20)
  {
    var pc := s.reqs[r];
    if pc.ip.Some? { IpCountIsSize(s.w.attempts, pc.ip.value, pc.since); }
    hide CountSince;
  }

  lemma LimiterCounts(s: State, r: RequestId)
    ensures forall email, ip | At(s, BeginLogin(r, email, ip)) ::
      Next(s, BeginLogin(r, email, ip)).reqs[r] == CountingEmail(email, ip, s.w.clock - 900000)
    ensures At(s, CountByEmail(r)) ==>
      var pc := s.reqs[r];
      Next(s, CountByEmail(r)).reqs[r] == CountingIp(pc.email, pc.ip, pc.since,
        |set i: nat | i < |s.w.attempts| && s.w.attempts[i].email == pc.email && s.w.attempts[i].at >= pc.since|)
  {
    if At(s, CountByEmail(r)) {
      EmailCountIsSize(s.w.attempts, s.reqs[r].email, s.reqs[r].since);
    }
    hide CountSince;
  }

  // -------------------------------------------------------- the limiter's bounds

  /** With at most k logins of an email in flight at any time: its failures of the
      last 900000 milliseconds, plus its logins past the check, never exceed 4 + k. */
  lemma EmailBoundWrittenOut(s: State, steps: seq<Step>, email: string, k: nat)
    requires Init(s) && Runs(s, steps) && AlwaysAtMost(s, steps, Email(email), k)
    ensures var t := Run(s, steps);
      |set i: nat | i < |t.w.attempts| && t.w.attempts[i].email == email && t.w.attempts[i].at >= t.w.clock - 900000|
      + |set r: RequestId | r in t.reqs && (t.reqs[r].Admitted? || t.reqs[r].Failing?) && t.reqs[r].email == email|
      <= 4 + k
  {
    var t := Run(s, steps);
    LimiterBound(s, steps, Email(email), k);
    EmailCountIsSize(t.w.attempts, email, t.w.clock - WINDOW);
    hide CountSince, AlwaysAtMost, Runs, Run;
    var past := set r: RequestId |
      r in t.reqs && (t.reqs[r].Admitted? || t.reqs[r].Failing?) && t.reqs[r].email == email;
    SubsetSize(past, PassedFor(t, Email(email)));
  }

  lemma IpBoundWrittenOut(s: State, steps: seq<Step>, ip: string, k: nat)
    requires Init(s) && Runs(s, steps) && AlwaysAtMost(s, steps, Ip(ip), k) && ip != ""
    ensures var t := Run(s, steps);
      |set i: nat | i < |t.w.attempts| && t.w.attempts[i].ip == Some(ip) && t.w.attempts[i].at >= t.w.clock - 900000|
      + |set r: RequestId | r in t.reqs && (t.reqs[r].Admitted? || t.reqs[r].Failing?) && t.reqs[r].ip == Some(ip)|
      <= 19 + k
  {
    var t := Run(s, steps);
    LimiterBound(s, steps, Ip(ip), k);
    IpCountIsSize(t.w.attempts, ip, t.w.clock - WINDOW);
    hide CountSince, AlwaysAtMost, Runs, Run;
    var past := set r: RequestId |
      r in t.reqs && (t.reqs[r].Admitted? || t.reqs[r].Failing?) && t.reqs[r].ip == Some(ip);
    SubsetSize(past, PassedFor(t, Ip(ip)));
  }

  /** A lock-out leaves no failure of the email in the last 900000 milliseconds. */
  lemma LockOutEndsWrittenOut(s: State, steps: seq<Step>, email: string)
    requires Reachable(s) && Runs(s, steps) && NeverAdmits(s, steps, email)
    requires forall r <- s.reqs | s.reqs[r].Admitted? || s.reqs[r].Failing? :: s.reqs[r].email != email
    requires Run(s, steps).w.clock > s.w.clock + 900000
    ensures var t := Run(s, steps).w;
      forall i | 0 <= i < |t.attempts| && t.attempts[i].email == email :: t.attempts[i].at < t.clock - 900000
  {
    var t := Run(s, steps).w;
    LockOutEnds(s, steps, email);
    EmailCountIsSize(t.attempts, email, t.clock - WINDOW);
    hide CountSince, NeverAdmits, Runs, Run, Reachable;
    var late := set i: nat | i < |t.attempts| && t.attempts[i].email == email && t.attempts[i].at >= t.clock - 900000;
    assert forall i: nat | i < |t.attempts| && t.attempts[i].email == email && t.attempts[i].at >= t.clock - 900000 ::
      i in late;
    assert late == {};
  }
}
