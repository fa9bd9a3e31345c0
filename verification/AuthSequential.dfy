/** Whole calls, one at a time: what each service method does to the world when
    nothing runs beside it, and that it is one schedule of the protocol. */
module AuthSequential {
  import opened Options
  import opened SessionTable
  import opened AuthTokens
  import opened AuthProtocol

  datatype Call =
    | Refresh(token: Claims, mint: Mint)
    | Logout(token: Claims)
    | LogoutAll(user: UserId)
    | Login(email: string, ip: Option<string>, found: Option<UserId>, matches: bool, mint: Mint)
    | Open(user: UserId, mint: Mint) // register and google, once the user is known
    | Purge(before: int)
    | Wait(to: Time)
    | ChangeUser(user: UserId, record: Option<User>)

  datatype Outcome =
    | Issued(pair: TokenPair)
    | Unauthorized
    | TooManyRequests
    | ServerError
    | Closed(revokedSessions: nat)
    | Done

  /** Inputs a call can have: fresh randomness and a truthful user lookup. */
  predicate Possible(w: World, call: Call) {
    match call
    case Refresh(_, m) => Fresh(w, m)
    case Login(email, _, found, _, m) => Fresh(w, m) && IsLookup(w, email, found)
    case Open(u, m) => Fresh(w, m) && u in w.users
    case Wait(to) => w.clock <= to
    case _ => true
  }

  function UpdateIn(w: World, sel: Selector, reason: Reason): World {
    w.(sessions := RevokeWhere(w.sessions, sel, w.clock, reason))
  }

  /** buildTokenResponse: sign, store, answer. */
  function Issue(w: World, user: UserId, familyId: Option<Uuid>, m: Mint): (World, Outcome) {
    var pair := SignTokenPair(user, familyId, m, w.clock);
    if pair.None? then (w, ServerError)
    else
      var p := pair.value;
      var signed := w.(issued := w.issued + {p.access, p.refresh},
                       used := w.used + {m.jti, m.familyId, m.accessJti});
      if m.jti in w.sessions then (signed, ServerError)
      else (signed.(sessions := signed.sessions[m.jti := RowOf(user, p)]), Issued(p))
  }

  function ExecRefresh(w: World, token: Claims, m: Mint): (World, Outcome) {
    var c := Verify(w.issued, token, TokenType.Refresh, w.clock);
    if c.None? || token.jti !in w.sessions then (w, Unauthorized)
    else
      var row := w.sessions[token.jti];
      if !row.Active() then (UpdateIn(w, ByFamily(row.familyId), ReuseDetected), Unauthorized)
      else FinishRotation(UpdateIn(w, ByJti(row.jti, None), Rotated), row, m)
  }

  /** The rest of a refresh that has won the revoke. */
  function FinishRotation(w: World, row: Row, m: Mint): (World, Outcome) {
    if UserEnabled(w, row.userId) then Issue(w, row.userId, Some(row.familyId), m)
    else (UpdateIn(w, ByFamily(row.familyId), Reason.UserInactive), Unauthorized)
  }

  function ExecLogout(w: World, token: Claims): (World, Outcome) {
    var c := Verify(w.issued, token, TokenType.Refresh, w.clock);
    if c.None? then (w, Unauthorized)
    else
      var live := token.jti in w.sessions && w.sessions[token.jti].Active();
      (UpdateIn(w, ByJti(token.jti, None), LoggedOut), Closed(if live then 1 else 0))
  }

  function ExecLogin(w: World, email: string, ip: Option<string>, found: Option<UserId>, matches: bool,
        m: Mint): (World, Outcome)
  {
    var since := w.clock - WINDOW;
    if Limited(CountSince(w.attempts, Email(email), since), IpCount(w, ip, since)) then (w, TooManyRequests)
    else FinishLogin(w, email, ip, found, matches, m)
  }

  /** The rest of a login the limiter let through. */
  function FinishLogin(w: World, email: string, ip: Option<string>, found: Option<UserId>, matches: bool,
        m: Mint): (World, Outcome)
  {
    if Accepts(w, found, matches) then Issue(w.(attempts := ClearEmail(w.attempts, email)), found.value, None, m)
    else (w.(attempts := w.attempts + [Attempt(email, ip, w.clock)]), Unauthorized)
  }

  function Exec(w: World, call: Call): (World, Outcome) {
    match call
    case Refresh(token, m) => ExecRefresh(w, token, m)
    case Logout(token) => ExecLogout(w, token)
    case LogoutAll(u) => (UpdateIn(w, ByUser(u), LoggedOutAll), Closed(|HitSet(w.sessions, ByUser(u))|))
    case Login(email, ip, found, matches, m) => ExecLogin(w, email, ip, found, matches, m)
    case Open(u, m) => Issue(w, u, None, m)
    case Purge(before) =>
      (w.(sessions := PurgeSessions(w.sessions, before), attempts := PurgeAttempts(w.attempts, before)), Done)
    case Wait(to) => (w.(clock := to), Done)
    case ChangeUser(u, record) =>
      (w.(users := if record.Some? then w.users[u := record.value] else w.users - {u}), Done)
  }

  // ------------------------------------------------- a call is a schedule

  /** s reaches t by some steps. */
  ghost predicate Reaches(s: State, t: State) {
    exists steps :: Runs(s, steps) && Run(s, steps) == t
  }

  lemma ReachesSelf(s: State)
    ensures Reaches(s, s)
  {
    assert Runs(s, []) && Run(s, []) == s;
  }

  lemma ReachesStep(s: State, step: Step)
    requires At(s, step)
    ensures Reaches(s, Next(s, step))
  {
    hide At, Next;
    var t, steps := Next(s, step), [step];
    assert steps[0] == step && steps[1..] == [];
    assert Runs(t, []) && Run(t, []) == t;
    assert Runs(s, steps) && Run(s, steps) == t;
  }

  lemma ReachesOn(s: State, t: State, u: State)
    requires Reaches(s, t) && Reaches(t, u)
    ensures Reaches(s, u)
  {
    var a :| Runs(s, a) && Run(s, a) == t;
    var b :| Runs(t, b) && Run(t, b) == u;
    RunAppend(s, a, b);
  }

  lemma Then(s: State, t: State, step: Step)
    requires Reaches(s, t) && At(t, step)
    ensures Reaches(s, Next(t, step))
  {
    ReachesStep(t, step);
    ReachesOn(s, t, Next(t, step));
  }

  /** The pair belongs to the row and was signed. */
  predicate IsPairOf(issued: set<Claims>, row: Row, p: TokenPair) {
    && row == RowOf(row.userId, p)
    && p.refresh in issued && p.refresh.typ == TokenType.Refresh && p.refresh.sub == row.userId
    && p.access in issued && p.access.typ == Access && p.access.sub == row.userId && p.access.fam == row.familyId
    && p.expiresIn == ACCESS_TOKEN_SECONDS
  }

  /** What a caller is told by the step that ends its request. */
  predicate Answers(s: State, step: Step, o: Outcome)
    requires At(s, step)
  {
    match step
    case VerifyRefresh(_, token) => Verify(s.w.issued, token, TokenType.Refresh, s.w.clock).None? && o == Unauthorized
    case VerifyLogout(_, token) => Verify(s.w.issued, token, TokenType.Refresh, s.w.clock).None? && o == Unauthorized
    case FindSession(r) => Find(s.w.sessions, s.reqs[r].claims.jti).None? && o == Unauthorized
    case RevokeReused(_) => o == Unauthorized
    case RevokeInactive(_) => o == Unauthorized
    case SignRotation(_, m) => m.refreshTtl <= 0 && o == ServerError
    case SignOpening(_, m) => m.refreshTtl <= 0 && o == ServerError
    case StoreRow(r) =>
      var row := s.reqs[r].row;
      if row.jti in s.w.sessions then o == ServerError else o.Issued? && IsPairOf(s.w.issued, row, o.pair)
    case RevokeLogout(r) => o == Closed(|HitSet(s.w.sessions, ByJti(s.reqs[r].claims.jti, None))|)
    case RevokeAll(u) => o == Closed(|HitSet(s.w.sessions, ByUser(u))|)
    case CountByIp(r) =>
      var pc := s.reqs[r];
      Limited(pc.byEmail, IpCount(s.w, pc.ip, pc.since)) && o == TooManyRequests
    case RecordAttempt(_) => o == Unauthorized
    case Tick(_) => o == Done
    case SetUser(_, _) => o == Done
    case PurgeAttemptRows(_) => o == Done
    case _ => false
  }

  /** s reaches t by some steps, the last of which gives the answer. */
  ghost predicate Answered(s: State, t: State, o: Outcome) {
    exists u, step :: Reaches(s, u) && At(u, step) && Next(u, step) == t && Answers(u, step, o)
  }

  lemma Ends(s: State, u: State, step: Step, o: Outcome)
    requires Reaches(s, u) && At(u, step) && Answers(u, step, o)
    ensures Reaches(s, Next(u, step)) && Answered(s, Next(u, step), o)
  {
    hide Reaches, Answers, At, Next;
    Then(s, u, step);
  }

  lemma JtiHits(t: Table, jti: Uuid)
    ensures |HitSet(t, ByJti(jti, None))| == if jti in t && t[jti].Active() then 1 else 0
  {
    var hits := HitSet(t, ByJti(jti, None));
    assert hits == if jti in t && t[jti].Active() then {jti} else {};
  }

  /** Signing and storing, once the request is at the point of issuing. */
  lemma IssueReaches(s: State, t: State, r: RequestId, user: UserId, familyId: Option<Uuid>,
        parent: Option<Uuid>, m: Mint)
    returns (u: State)
    requires Reaches(s, t) && r in t.reqs && Fresh(t.w, m)
    requires
      || (t.reqs[r] == Opening(user) && familyId == None && parent == None)
      || (t.reqs[r].ActiveUser? && t.reqs[r].row.userId == user
          && familyId == Some(t.reqs[r].row.familyId) && parent == Some(t.reqs[r].row.jti))
    ensures Reaches(s, u) && u.w == Issue(t.w, user, familyId, m).0 && u.reqs == t.reqs - {r}
    ensures Issue(t.w, user, familyId, m).1.Issued? && parent.Some? ==> parent.value in u.hist.succeeded
    ensures Answered(s, u, Issue(t.w, user, familyId, m).1)
  {
    hide Reaches, Answered, At, Next;
    var step := if parent.Some? then SignRotation(r, m) else SignOpening(r, m);
    SigningStep(t, r, user, familyId, parent, m, step);
    if m.refreshTtl > 0 {
      Then(s, t, step);
      var v := Next(t, step);
      StoringStep(t, v, r, user, familyId, parent, m);
      Ends(s, v, StoreRow(r), Issue(t.w, user, familyId, m).1);
      u := Next(v, StoreRow(r));
    } else {
      Ends(s, t, step, ServerError);
      u := Next(t, step);
    }
  }

  lemma SigningStep(t: State, r: RequestId, user: UserId, familyId: Option<Uuid>, parent: Option<Uuid>, m: Mint,
        step: Step)
    requires r in t.reqs && Fresh(t.w, m) && step == if parent.Some? then SignRotation(r, m) else SignOpening(r, m)
    requires
      || (t.reqs[r] == Opening(user) && familyId == None && parent == None)
      || (t.reqs[r].ActiveUser? && t.reqs[r].row.userId == user
          && familyId == Some(t.reqs[r].row.familyId) && parent == Some(t.reqs[r].row.jti))
    ensures At(t, step) && Next(t, step) == DoSign(t, r, user, familyId, parent, m)
    ensures m.refreshTtl <= 0 ==> Answers(t, step, ServerError)
    ensures m.refreshTtl <= 0 ==> Next(t, step).reqs == t.reqs - {r} && Next(t, step).w == t.w
    ensures m.refreshTtl <= 0 ==> Issue(t.w, user, familyId, m) == (t.w, ServerError)
  {
    hide Fresh;
  }

  lemma StoringStep(t: State, v: State, r: RequestId, user: UserId, familyId: Option<Uuid>,
        parent: Option<Uuid>, m: Mint)
    requires r in t.reqs && m.refreshTtl > 0 && v == DoSign(t, r, user, familyId, parent, m)
    ensures At(v, StoreRow(r)) && Answers(v, StoreRow(r), Issue(t.w, user, familyId, m).1)
    ensures var u := Next(v, StoreRow(r));
      && u.w == Issue(t.w, user, familyId, m).0 && u.reqs == t.reqs - {r}
      && (Issue(t.w, user, familyId, m).1.Issued? && parent.Some? ==> parent.value in u.hist.succeeded)
  {
    SignedIsPair(t.w, user, familyId, m);
    var p := SignTokenPair(user, familyId, m, t.w.clock).value;
    hide SignTokenPair, IsPairOf;
    assert v.reqs[r] == Storing(RowOf(user, p), parent);
  }

  lemma SignedIsPair(w: World, user: UserId, familyId: Option<Uuid>, m: Mint)
    requires m.refreshTtl > 0
    ensures var p := SignTokenPair(user, familyId, m, w.clock).value;
      IsPairOf(w.issued + {p.access, p.refresh}, RowOf(user, p), p)
  {
  }

  lemma FoundIsReached(s: State, r: RequestId, token: Claims)
    requires r !in s.reqs && token.jti in s.w.sessions
    requires Verify(s.w.issued, token, TokenType.Refresh, s.w.clock).Some?
    ensures Reaches(s, Goto(s, r, Found(s.w.sessions[token.jti])))
  {
    hide Reaches, Verify;
    ReachesStep(s, VerifyRefresh(r, token));
    var t := Goto(s, r, Presented(token));
    Then(s, t, FindSession(r));
    assert t.reqs[r := Found(s.w.sessions[token.jti])] == s.reqs[r := Found(s.w.sessions[token.jti])];
  }

  /** Where a request stands after its revoke, won or lost. */
  lemma RevokedIsReached(s: State, r: RequestId, row: Row)
    requires r !in s.reqs && row.jti in s.w.sessions && s.w.sessions[row.jti] == row
    requires Reaches(s, Goto(s, r, Found(row)))
    ensures !row.Active() ==> Reaches(s, Goto(s, r, Reused(row)))
    ensures row.Active() ==>
      Reaches(s, State(UpdateIn(s.w, ByJti(row.jti, None), Rotated), s.reqs[r := Won(row)],
                       s.hist.(rotated := s.hist.rotated + {row.jti})))
  {
    hide Reaches;
    var t := Goto(s, r, Found(row));
    var hits := HitSet(s.w.sessions, ByJti(row.jti, None));
    assert row.Active() <==> row.jti in hits;
    assert hits == {} || hits == {row.jti};
    Then(s, t, RevokePresented(r));
    assert t.reqs[r := Reused(row)] == s.reqs[r := Reused(row)];
    assert t.reqs[r := Won(row)] == s.reqs[r := Won(row)];
  }

  lemma ReuseIsASchedule(s: State, r: RequestId, row: Row)
    requires r !in s.reqs && Reaches(s, Goto(s, r, Reused(row)))
    ensures var t := s.(w := UpdateIn(s.w, ByFamily(row.familyId), ReuseDetected));
      Reaches(s, t) && Answered(s, t, Unauthorized)
  {
    hide Reaches, Answered, RevokeWhere;
    var t := Goto(s, r, Reused(row));
    Ends(s, t, RevokeReused(r), Unauthorized);
    assert t.reqs - {r} == s.reqs;
  }

  lemma RotationIsASchedule(s: State, t: State, r: RequestId, row: Row, m: Mint) returns (u: State)
    requires Reaches(s, t) && Fresh(t.w, m) && r in t.reqs && t.reqs[r] == Won(row)
    ensures Reaches(s, u) && u.reqs == t.reqs - {r}
    ensures u.w == FinishRotation(t.w, row, m).0 && Answered(s, u, FinishRotation(t.w, row, m).1)
  {
    hide Reaches, Answered, Fresh, RevokeWhere;
    Then(s, t, LookUpUser(r));
    if UserEnabled(t.w, row.userId) {
      var t' := Goto(t, r, ActiveUser(row));
      u := IssueReaches(s, t', r, row.userId, Some(row.familyId), Some(row.jti), m);
      assert t'.reqs - {r} == t.reqs - {r};
    } else {
      var t' := Goto(t, r, InactiveUser(row));
      Ends(s, t', RevokeInactive(r), Unauthorized);
      u := Next(t', RevokeInactive(r));
      assert t'.reqs - {r} == t.reqs - {r};
    }
  }

  lemma RefreshIsASchedule(s: State, r: RequestId, token: Claims, m: Mint) returns (t: State)
    requires r !in s.reqs && Fresh(s.w, m)
    ensures Reaches(s, t) && t.w == ExecRefresh(s.w, token, m).0 && t.reqs == s.reqs
    ensures Answered(s, t, ExecRefresh(s.w, token, m).1)
  {
    hide Reaches, Answered, RevokeWhere, FinishRotation;
    ReachesSelf(s);
    t := s;
    if Verify(s.w.issued, token, TokenType.Refresh, s.w.clock).Some? {
      if token.jti in s.w.sessions {
        hide Verify;
        var row := s.w.sessions[token.jti];
        FoundIsReached(s, r, token);
        RevokedIsReached(s, r, row);
        if row.Active() {
          var won := State(UpdateIn(s.w, ByJti(row.jti, None), Rotated), s.reqs[r := Won(row)],
                           s.hist.(rotated := s.hist.rotated + {row.jti}));
          t := RotationIsASchedule(s, won, r, row, m);
        } else {
          ReuseIsASchedule(s, r, row);
          t := s.(w := UpdateIn(s.w, ByFamily(row.familyId), ReuseDetected));
        }
      } else {
        ReachesStep(s, VerifyRefresh(r, token));
        Ends(s, Goto(s, r, Presented(token)), FindSession(r), Unauthorized);
        t := End(Goto(s, r, Presented(token)), r);
      }
    } else {
      Ends(s, s, VerifyRefresh(r, token), Unauthorized);
    }
    assert t.reqs == s.reqs;
  }

  lemma FreshSurvives(w: World, v: World, m: Mint)
    requires Fresh(w, m) && v.used == w.used
    ensures Fresh(v, m)
  {
  }

  lemma LogoutIsASchedule(s: State, r: RequestId, token: Claims) returns (t: State)
    requires r !in s.reqs
    ensures Reaches(s, t) && t.w == ExecLogout(s.w, token).0 && t.reqs == s.reqs
    ensures Answered(s, t, ExecLogout(s.w, token).1)
  {
    hide Reaches, Answered, RevokeWhere;
    ReachesSelf(s);
    t := s;
    if Verify(s.w.issued, token, TokenType.Refresh, s.w.clock).Some? {
      hide Verify;
      ReachesStep(s, VerifyLogout(r, token));
      var t' := Goto(s, r, LoggingOut(token));
      JtiHits(s.w.sessions, token.jti);
      hide HitSet;
      Ends(s, t', RevokeLogout(r), ExecLogout(s.w, token).1);
      t := Next(t', RevokeLogout(r));
      assert t.reqs == s.reqs;
    } else {
      Ends(s, s, VerifyLogout(r, token), Unauthorized);
    }
  }

  /** Where a login stands after both counts. */
  lemma CountedIsReached(s: State, r: RequestId, email: string, ip: Option<string>)
    requires r !in s.reqs
    ensures var since := s.w.clock - WINDOW;
      if Limited(CountSince(s.w.attempts, Email(email), since), IpCount(s.w, ip, since)) then
        Reaches(s, s) && Answered(s, s, TooManyRequests)
      else Reaches(s, Goto(s, r, Admitted(email, ip)))
  {
    hide Reaches, Answered, CountSince;
    var since := s.w.clock - WINDOW;
    var n := CountSince(s.w.attempts, Email(email), since);
    ReachesSelf(s);
    ReachesStep(s, BeginLogin(r, email, ip));
    var a := Goto(s, r, CountingEmail(email, ip, since));
    Then(s, a, CountByEmail(r));
    var b := Goto(s, r, CountingIp(email, ip, since, n));
    assert DoCountEmail(a, r, a.reqs[r]).reqs == b.reqs;
    if Limited(n, IpCount(s.w, ip, since)) {
      Ends(s, b, CountByIp(r), TooManyRequests);
      assert Next(b, CountByIp(r)).reqs == s.reqs;
    } else {
      Then(s, b, CountByIp(r));
      assert b.reqs[r := Admitted(email, ip)] == s.reqs[r := Admitted(email, ip)];
    }
  }

  lemma LoginIsASchedule(s: State, r: RequestId, email: string, ip: Option<string>, found: Option<UserId>,
        matches: bool, m: Mint)
    returns (t: State)
    requires r !in s.reqs && Fresh(s.w, m) && IsLookup(s.w, email, found)
    ensures Reaches(s, t) && t.w == ExecLogin(s.w, email, ip, found, matches, m).0 && t.reqs == s.reqs
    ensures Answered(s, t, ExecLogin(s.w, email, ip, found, matches, m).1)
  {
    hide Reaches, Answered, CountSince, IpCount, FinishLogin, Fresh, IsLookup;
    CountedIsReached(s, r, email, ip);
    var since := s.w.clock - WINDOW;
    if Limited(CountSince(s.w.attempts, Email(email), since), IpCount(s.w, ip, since)) {
      t := s;
    } else {
      t := AdmittedIsASchedule(s, r, email, ip, found, matches, m);
    }
  }

  lemma AdmittedIsASchedule(s: State, r: RequestId, email: string, ip: Option<string>, found: Option<UserId>,
        matches: bool, m: Mint)
    returns (t: State)
    requires r !in s.reqs && Fresh(s.w, m) && IsLookup(s.w, email, found)
    requires Reaches(s, Goto(s, r, Admitted(email, ip)))
    ensures Reaches(s, t) && t.w == FinishLogin(s.w, email, ip, found, matches, m).0 && t.reqs == s.reqs
    ensures Answered(s, t, FinishLogin(s.w, email, ip, found, matches, m).1)
  {
    hide Reaches, Answered, Issue, ClearEmail, Fresh, IsLookup;
    var a := Goto(s, r, Admitted(email, ip));
    var pc := if Accepts(s.w, found, matches) then Clearing(email, found.value) else Failing(email, ip);
    var b := Goto(s, r, pc);
    Then(s, a, CheckPassword(r, found, matches));
    assert a.reqs[r := pc] == s.reqs[r := pc];
    assert b.reqs - {r} == s.reqs;
    if Accepts(s.w, found, matches) {
      t := AcceptedIsASchedule(s, b, r, email, found.value, m);
    } else {
      Ends(s, b, RecordAttempt(r), Unauthorized);
      t := Next(b, RecordAttempt(r));
    }
  }

  lemma AcceptedIsASchedule(s: State, t: State, r: RequestId, email: string, user: UserId, m: Mint) returns (u: State)
    requires Reaches(s, t) && r in t.reqs && t.reqs[r] == Clearing(email, user) && Fresh(t.w, m)
    ensures Reaches(s, u) && u.reqs == t.reqs - {r}
    ensures var w := t.w.(attempts := ClearEmail(t.w.attempts, email));
      u.w == Issue(w, user, None, m).0 && Answered(s, u, Issue(w, user, None, m).1)
  {
    hide Reaches, Answered, ClearEmail;
    Then(s, t, ClearAttempts(r));
    var c := Next(t, ClearAttempts(r));
    FreshSurvives(t.w, c.w, m);
    u := IssueReaches(s, c, r, user, None, None, m);
    assert c.reqs - {r} == t.reqs - {r};
  }

  lemma OpenIsASchedule(s: State, r: RequestId, user: UserId, m: Mint) returns (t: State)
    requires r !in s.reqs && Fresh(s.w, m) && user in s.w.users
    ensures Reaches(s, t) && t.w == Issue(s.w, user, None, m).0 && t.reqs == s.reqs
    ensures Answered(s, t, Issue(s.w, user, None, m).1)
  {
    hide Reaches, Answered, Issue;
    ReachesStep(s, BeginOpen(r, user));
    var a := Goto(s, r, Opening(user));
    t := IssueReaches(s, a, r, user, None, None, m);
    assert a.reqs - {r} == s.reqs;
  }

  lemma PurgeIsASchedule(s: State, before: int) returns (t: State)
    ensures Reaches(s, t) && t.w == Exec(s.w, Purge(before)).0 && t.reqs == s.reqs
    ensures Answered(s, t, Done)
  {
    hide Reaches, Answered, PurgeAttempts;
    ReachesStep(s, PurgeSessionRows(before));
    Ends(s, Next(s, PurgeSessionRows(before)), PurgeAttemptRows(before), Done);
    t := Next(Next(s, PurgeSessionRows(before)), PurgeAttemptRows(before));
  }

  /** Every whole call, started beside any requests already in flight, is one
      schedule of the protocol's steps, leaves those requests where they were, and
      its last step tells the caller the outcome. */
  lemma CallIsASchedule(s: State, r: RequestId, call: Call) returns (t: State)
    requires r !in s.reqs && Possible(s.w, call)
    ensures Reaches(s, t) && t.w == Exec(s.w, call).0 && t.reqs == s.reqs
    ensures Answered(s, t, Exec(s.w, call).1)
  {
    hide Reaches, Answered, RevokeWhere, ExecRefresh, ExecLogin, ExecLogout, Issue, PurgeSessions, PurgeAttempts, Next;
    match call
    case Refresh(token, m) => t := RefreshIsASchedule(s, r, token, m);
    case Logout(token) => t := LogoutIsASchedule(s, r, token);
    case LogoutAll(u) => t := StepAlone(s, RevokeAll(u));
    case Login(email, ip, found, matches, m) => t := LoginIsASchedule(s, r, email, ip, found, matches, m);
    case Open(u, m) => t := OpenIsASchedule(s, r, u, m);
    case Purge(before) => t := PurgeIsASchedule(s, before);
    case Wait(to) => t := StepAlone(s, Tick(to));
    case ChangeUser(u, record) => t := StepAlone(s, SetUser(u, record));
  }

  lemma StepAlone(s: State, step: Step) returns (t: State)
    requires At(s, step) && (step.RevokeAll? || step.Tick? || step.SetUser?)
    ensures Reaches(s, t) && t.reqs == s.reqs
    ensures t.w == match step
      case RevokeAll(u) => UpdateIn(s.w, ByUser(u), LoggedOutAll)
      case Tick(to) => s.w.(clock := to)
      case SetUser(u, record) =>
        s.w.(users := if record.Some? then s.w.users[u := record.value] else s.w.users - {u})
      case _ => s.w
    ensures Answered(s, t, if step.RevokeAll? then Closed(|HitSet(s.w.sessions, ByUser(step.user))|) else Done)
  {
    hide Reaches, Answered, RevokeWhere;
    ReachesSelf(s);
    Ends(s, s, step, if step.RevokeAll? then Closed(|HitSet(s.w.sessions, ByUser(step.user))|) else Done);
    t := Next(s, step);
  }

  /** What one whole login does to its email's count: nothing when it is limited,
      one more when it fails, zero once the credentials were right. */
  lemma LoginMovesTheCount(w: World, email: string, ip: Option<string>, found: Option<UserId>, matches: bool, m: Mint)
    ensures var t := ExecLogin(w, email, ip, found, matches, m).0;
      var outcome := ExecLogin(w, email, ip, found, matches, m).1;
      var since := w.clock - WINDOW;
      var before, after := CountSince(w.attempts, Email(email), since), CountSince(t.attempts, Email(email), since);
      && (outcome == TooManyRequests <==> before >= 5 || IpCount(w, ip, since) >= 20)
      && (outcome == TooManyRequests ==> t == w)
      && (outcome == Unauthorized <==> before < 5 && IpCount(w, ip, since) < 20 && !Accepts(w, found, matches))
      && (outcome == Unauthorized ==> after == before + 1 <= 5)
      && (outcome != Unauthorized && outcome != TooManyRequests ==> after == 0)
  {
    CountAppend(w.attempts, Attempt(email, ip, w.clock), Email(email), w.clock - WINDOW);
    ClearCounts(w.attempts, email, Email(email), w.clock - WINDOW);
    hide CountSince, ClearEmail, IpCount, Accepts;
  }
}
