/** Runs of whole calls, what they inherit from the protocol, and the proof that
    the maintenance purge is invisible to them. */
module AuthPurge {
  import opened Options
  import opened SessionTable
  import opened AuthTokens
  import opened AuthProtocol
  import opened AuthInvariants
  import opened AuthTheorems
  import opened AuthRuns
  import opened AuthSequential

  predicate AllPossible(w: World, calls: seq<Call>)
    decreases |calls|
  {
    calls == [] || (Possible(w, calls[0]) && AllPossible(Exec(w, calls[0]).0, calls[1..]))
  }

  function Outcomes(w: World, calls: seq<Call>): (os: seq<Outcome>)
    ensures |os| == |calls|
    decreases |calls|
  {
    if calls == [] then [] else [Exec(w, calls[0]).1] + Outcomes(Exec(w, calls[0]).0, calls[1..])
  }

  /** The world call i of a run meets. */
  function WorldBefore(w: World, calls: seq<Call>, i: nat): World
    requires i <= |calls|
    decreases i
  {
    if i == 0 then w else WorldBefore(Exec(w, calls[0]).0, calls[1..], i - 1)
  }

  /** Reached with no request in flight. */
  ghost predicate Quiescent(w: World) {
    exists s :: Reachable(s) && s.w == w && s.reqs == map[]
  }

  lemma ReachableOn(s: State, t: State)
    requires Reachable(s) && Reaches(s, t)
    ensures Reachable(t)
  {
    var s0, a :| Init(s0) && Runs(s0, a) && Run(s0, a) == s;
    var b :| Runs(s, b) && Run(s, b) == t;
    RunAppend(s0, a, b);
  }

  lemma CallsStayQuiescent(w: World, call: Call)
    requires Quiescent(w) && Possible(w, call)
    ensures Quiescent(Exec(w, call).0)
  {
    hide Reachable, Reaches, Exec, Possible;
    var s :| Reachable(s) && s.w == w && s.reqs == map[];
    var t := CallIsASchedule(s, 0, call);
    ReachableOn(s, t);
  }

  // -------------------------------------------------------------- consistency

  ghost predicate Consistent(w: World) {
    && (forall j <- w.sessions :: j in w.used)
    && (forall c <- w.issued | c.typ == TokenType.Refresh && c.jti in w.sessions :: Agrees(c, w.sessions[c.jti]))
  }

  lemma QuiescentIsConsistent(w: World)
    requires Quiescent(w)
    ensures Consistent(w)
  {
    hide Inv;
    var s :| Reachable(s) && s.w == w && s.reqs == map[];
    ReachableInv(s);
    forall c <- w.issued | c.typ == TokenType.Refresh && c.jti in w.sessions ensures Agrees(c, w.sessions[c.jti]) {
      TokenAndTableAgree(s, c);
    }
    InvRows(s);
    InvMinted(s);
    forall j <- w.sessions ensures j in w.used {
      assert RowOk(s, w.sessions[j]);
    }
  }

  // --------------------------------------------------------- the simulation

  /** v is w after deleting expired sessions and the attempts older than b. */
  ghost predicate Purged(w: World, v: World, b: int) {
    && v == w.(sessions := v.sessions, attempts := v.attempts)
    && (forall j <- v.sessions :: j in w.sessions && w.sessions[j] == v.sessions[j])
    && (forall j <- w.sessions | j !in v.sessions :: w.sessions[j].expiresAt < w.clock)
    && v.attempts == PurgeAttempts(w.attempts, b)
    && b <= w.clock - WINDOW
  }

  /** The latest bound a purge may have without being noticed: the start of the
      window, or the epoch when the window reaches beyond it. */
  function PurgeHorizon(now: Time): nat {
    if now < WINDOW then 0 else now - WINDOW
  }

  lemma {:induction false} NothingBeforeTheEpoch(attempts: seq<Attempt>, before: int)
    requires before <= 0
    ensures PurgeAttempts(attempts, before) == attempts
  {
    if attempts != [] {
      NothingBeforeTheEpoch(attempts[..|attempts| - 1], before);
    }
  }

  lemma PurgeStartsIt(w: World, before: int)
    requires before <= PurgeHorizon(w.clock)
    ensures Purged(w, Exec(w, Purge(before)).0, if before < w.clock - WINDOW then before else w.clock - WINDOW)
  {
    if before > w.clock - WINDOW {
      NothingBeforeTheEpoch(w.attempts, before);
      NothingBeforeTheEpoch(w.attempts, w.clock - WINDOW);
    }
    hide PurgeAttempts;
  }

  /** A token that verifies has its row, if it ever had one, in both tables. */
  lemma LiveTokenSeesTheSame(w: World, v: World, b: int, token: Claims)
    requires Consistent(w) && Purged(w, v, b)
    requires Verify(w.issued, token, TokenType.Refresh, w.clock).Some?
    ensures Find(v.sessions, token.jti) == Find(w.sessions, token.jti)
  {
  }

  lemma UpdateKeepsPurged(w: World, v: World, b: int, sel: Selector, reason: Reason)
    requires Purged(w, v, b)
    ensures Purged(UpdateIn(w, sel, reason), UpdateIn(v, sel, reason), b)
  {
  }

  lemma IssueSeesTheSame(w: World, v: World, b: int, user: UserId, familyId: Option<Uuid>, m: Mint)
    requires Purged(w, v, b) && Fresh(w, m) && (forall j <- w.sessions :: j in w.used)
    ensures Purged(Issue(w, user, familyId, m).0, Issue(v, user, familyId, m).0, b)
    ensures Issue(w, user, familyId, m).1 == Issue(v, user, familyId, m).1
  {
  }

  lemma RotationSeesTheSame(w: World, v: World, b: int, row: Row, m: Mint)
    requires Purged(w, v, b) && Fresh(w, m) && (forall j <- w.sessions :: j in w.used)
    ensures Purged(FinishRotation(w, row, m).0, FinishRotation(v, row, m).0, b)
    ensures FinishRotation(w, row, m).1 == FinishRotation(v, row, m).1
  {
    IssueSeesTheSame(w, v, b, row.userId, Some(row.familyId), m);
    UpdateKeepsPurged(w, v, b, ByFamily(row.familyId), Reason.UserInactive);
    hide Issue, UpdateIn;
  }

  /** From the row on: reuse, or a rotation. */
  lemma FoundSeesTheSame(w: World, v: World, b: int, row: Row, m: Mint)
    requires Consistent(w) && Purged(w, v, b) && Fresh(w, m)
    ensures var spent, spent' := UpdateIn(w, ByJti(row.jti, None), Rotated), UpdateIn(v, ByJti(row.jti, None), Rotated);
      && Purged(FinishRotation(spent, row, m).0, FinishRotation(spent', row, m).0, b)
      && FinishRotation(spent, row, m).1 == FinishRotation(spent', row, m).1
  {
    hide Purged, FinishRotation, Agrees;
    UpdateKeepsPurged(w, v, b, ByJti(row.jti, None), Rotated);
    RotationSeesTheSame(UpdateIn(w, ByJti(row.jti, None), Rotated), UpdateIn(v, ByJti(row.jti, None), Rotated),
      b, row, m);
  }

  lemma RefreshSeesTheSame(w: World, v: World, b: int, token: Claims, m: Mint)
    requires Consistent(w) && Purged(w, v, b) && Fresh(w, m)
    ensures Purged(ExecRefresh(w, token, m).0, ExecRefresh(v, token, m).0, b)
    ensures ExecRefresh(w, token, m).1 == ExecRefresh(v, token, m).1
  {
    hide Consistent, Fresh, FinishRotation, UpdateIn, Verify;
    SameTokens(w, v, b);
    if Verify(w.issued, token, TokenType.Refresh, w.clock).Some? {
      LiveTokenSeesTheSame(w, v, b, token);
      hide Purged;
      if token.jti in w.sessions {
        var row := w.sessions[token.jti];
        UpdateKeepsPurged(w, v, b, ByFamily(row.familyId), ReuseDetected);
        FoundSeesTheSame(w, v, b, row, m);
      }
    }
  }

  lemma SameTokens(w: World, v: World, b: int)
    requires Purged(w, v, b)
    ensures v.issued == w.issued && v.clock == w.clock && v.users == w.users && v.used == w.used
  {
  }

  lemma LogoutSeesTheSame(w: World, v: World, b: int, token: Claims)
    requires Consistent(w) && Purged(w, v, b)
    ensures Purged(ExecLogout(w, token).0, ExecLogout(v, token).0, b)
    ensures ExecLogout(w, token).1 == ExecLogout(v, token).1
  {
    if Verify(w.issued, token, TokenType.Refresh, w.clock).Some? {
      LiveTokenSeesTheSame(w, v, b, token);
      UpdateKeepsPurged(w, v, b, ByJti(token.jti, None), LoggedOut);
    }
  }

  lemma LimiterSeesTheSame(w: World, v: World, b: int, key: Key)
    requires Purged(w, v, b)
    ensures CountSince(v.attempts, key, w.clock - WINDOW) == CountSince(w.attempts, key, w.clock - WINDOW)
  {
    PurgeCounts(w.attempts, b, key, w.clock - WINDOW);
  }

  lemma LoginSeesTheSame(w: World, v: World, b: int, email: string, ip: Option<string>, found: Option<UserId>,
        matches: bool, m: Mint)
    requires Consistent(w) && Purged(w, v, b) && Fresh(w, m)
    ensures Purged(ExecLogin(w, email, ip, found, matches, m).0, ExecLogin(v, email, ip, found, matches, m).0, b)
    ensures ExecLogin(w, email, ip, found, matches, m).1 == ExecLogin(v, email, ip, found, matches, m).1
  {
    LimiterSeesTheSame(w, v, b, Email(email));
    if !NoIp(ip) { LimiterSeesTheSame(w, v, b, Ip(ip.value)); }
    FinishLoginSeesTheSame(w, v, b, email, ip, found, matches, m);
    hide CountSince, FinishLogin;
  }

  lemma FinishLoginSeesTheSame(w: World, v: World, b: int, email: string, ip: Option<string>,
        found: Option<UserId>, matches: bool, m: Mint)
    requires Consistent(w) && Purged(w, v, b) && Fresh(w, m)
    ensures Purged(FinishLogin(w, email, ip, found, matches, m).0, FinishLogin(v, email, ip, found, matches, m).0, b)
    ensures FinishLogin(w, email, ip, found, matches, m).1 == FinishLogin(v, email, ip, found, matches, m).1
  {
    hide PurgeAttempts, ClearEmail, Issue;
    if Accepts(w, found, matches) {
      ClearPurgeCommute(w.attempts, email, b);
      var c, c' := w.(attempts := ClearEmail(w.attempts, email)), v.(attempts := ClearEmail(v.attempts, email));
      IssueSeesTheSame(c, c', b, found.value, None, m);
    } else {
      PurgeAppend(w.attempts, Attempt(email, ip, w.clock), b);
    }
  }

  ghost function PurgedWhileOpen(w: World, v: World, u: UserId): set<Uuid> {
    set j | j in HitSet(w.sessions, ByUser(u)) && j !in v.sessions
  }

  /** logoutAll reports fewer: exactly the deleted rows that nobody had revoked. */
  lemma LogoutAllMissesThePurged(w: World, v: World, b: int, u: UserId)
    requires Purged(w, v, b)
    ensures Purged(Exec(w, LogoutAll(u)).0, Exec(v, LogoutAll(u)).0, b)
    ensures Exec(w, LogoutAll(u)).1.revokedSessions
         == Exec(v, LogoutAll(u)).1.revokedSessions + |PurgedWhileOpen(w, v, u)|
  {
    UpdateKeepsPurged(w, v, b, ByUser(u), LoggedOutAll);
    var gone := PurgedWhileOpen(w, v, u);
    assert HitSet(w.sessions, ByUser(u)) == HitSet(v.sessions, ByUser(u)) + gone;
    assert HitSet(v.sessions, ByUser(u)) !! gone;
  }

  lemma PurgeAgain(w: World, v: World, b: int, before: int)
    requires Purged(w, v, b)
    ensures Purged(Exec(w, Purge(before)).0, Exec(v, Purge(before)).0, b)
  {
    PurgesCommute(w.attempts, b, before);
    hide PurgeAttempts;
  }

  /** Same outcome; for logoutAll, up to the rows purged while open. */
  ghost predicate Alike(w: World, v: World, call: Call) {
    if call.LogoutAll? then
      && Exec(v, call).1.Closed?
      && Exec(w, call).1 == Closed(Exec(v, call).1.revokedSessions + |PurgedWhileOpen(w, v, call.user)|)
    else Exec(w, call).1 == Exec(v, call).1
  }

  lemma CallSeesTheSame(w: World, v: World, b: int, call: Call)
    requires Consistent(w) && Purged(w, v, b) && Possible(w, call)
    ensures Possible(v, call)
    ensures Purged(Exec(w, call).0, Exec(v, call).0, b)
    ensures Alike(w, v, call)
  {
    hide ExecRefresh, ExecLogin, ExecLogout, Issue, PurgedWhileOpen;
    match call
    case Refresh(token, m) => RefreshSeesTheSame(w, v, b, token, m);
    case Logout(token) => LogoutSeesTheSame(w, v, b, token);
    case LogoutAll(u) => LogoutAllMissesThePurged(w, v, b, u);
    case Login(email, ip, found, matches, m) => LoginSeesTheSame(w, v, b, email, ip, found, matches, m);
    case Open(u, m) => IssueSeesTheSame(w, v, b, u, None, m);
    case Purge(before) => PurgeAgain(w, v, b, before);
    case Wait(to) =>
    case ChangeUser(u, record) =>
  }

  lemma {:induction false} OutcomeAt(w: World, calls: seq<Call>, i: nat)
    requires i < |calls|
    ensures Outcomes(w, calls)[i] == Exec(WorldBefore(w, calls, i), calls[i]).1
    decreases i
  {
    hide Exec;
    if i > 0 {
      OutcomeAt(Exec(w, calls[0]).0, calls[1..], i - 1);
    }
  }

  lemma {:induction false} RunsSeeTheSame(w: World, v: World, b: int, calls: seq<Call>, i: nat)
    requires Quiescent(w) && Purged(w, v, b) && AllPossible(w, calls) && i < |calls|
    ensures Alike(WorldBefore(w, calls, i), WorldBefore(v, calls, i), calls[i])
    ensures AllPossible(v, calls)
    decreases |calls|
  {
    hide Quiescent, Consistent, Purged, Exec, Possible, Alike;
    QuiescentIsConsistent(w);
    CallSeesTheSame(w, v, b, calls[0]);
    CallsStayQuiescent(w, calls[0]);
    var w', v' := Exec(w, calls[0]).0, Exec(v, calls[0]).0;
    if i > 0 {
      RunsSeeTheSame(w', v', b, calls[1..], i - 1);
    } else if |calls| > 1 {
      RunsSeeTheSame(w', v', b, calls[1..], 0);
    }
  }

  /** Deleting sessions and attempts older than the window, anywhere in a
      sequential run, changes the outcome of no later refresh, logout, login or
      opening; a later logoutAll reports fewer by exactly the rows it would have
      closed that the purge had deleted. */
  lemma PurgeIsInvisible(w: World, before: int, calls: seq<Call>, i: nat)
    requires Quiescent(w) && AllPossible(w, calls) && i < |calls|
    requires before <= PurgeHorizon(w.clock)
    ensures var v := Exec(w, Purge(before)).0;
      && AllPossible(v, calls)
      && (!calls[i].LogoutAll? ==> Outcomes(v, calls)[i] == Outcomes(w, calls)[i])
      && (calls[i].LogoutAll? ==>
            && Outcomes(v, calls)[i].Closed?
            && Outcomes(w, calls)[i] == Closed(Outcomes(v, calls)[i].revokedSessions
                 + |PurgedWhileOpen(WorldBefore(w, calls, i), WorldBefore(v, calls, i), calls[i].user)|))
  {
    hide Quiescent, Purged, Exec, Possible, PurgedWhileOpen;
    var v := Exec(w, Purge(before)).0;
    PurgeStartsIt(w, before);
    RunsSeeTheSame(w, v, if before < w.clock - WINDOW then before else w.clock - WINDOW, calls, i);
    OutcomeAt(w, calls, i);
    OutcomeAt(v, calls, i);
  }

  // ------------------------------------------------------- a purge too recent

  /** A purge bound inside the window makes every count start at the bound. */
  lemma EarlyPurgeShortensTheWindow(w: World, before: int, key: Key)
    ensures CountSince(Exec(w, Purge(before)).0.attempts, key, w.clock - WINDOW)
         == CountSince(w.attempts, key, Max(before, w.clock - WINDOW))
  {
    PurgeCounts(w.attempts, before, key, w.clock - WINDOW);
  }

  /** n failed logins of one email at one moment, on empty tables. */
  function FailedAt(n: nat, at: Time, now: Time): World {
    World(map[], seq(n, _ => Attempt("a", None, at)), map[], now, {}, {})
  }

  function WrongLogin(): Call {
    Login("a", None, None, false, Mint(0, 1, 2, ACCESS_TOKEN_SECONDS, 1))
  }

  lemma {:induction false} FailedCount(n: nat, at: Time, now: Time, since: int)
    ensures CountSince(FailedAt(n, at, now).attempts, Email("a"), since) == if at >= since then n else 0
  {
    if n > 0 {
      FailedCount(n - 1, at, now, since);
      assert FailedAt(n, at, now).attempts[..n - 1] == FailedAt(n - 1, at, now).attempts;
    }
  }

  lemma WrongLoginFails(n: nat, at: Time)
    requires n < MAX_PER_EMAIL
    ensures Exec(FailedAt(n, at, at), WrongLogin()) == (FailedAt(n + 1, at, at), Unauthorized)
    ensures Possible(FailedAt(n, at, at), WrongLogin())
  {
    FailedCount(n, at, at, at - WINDOW);
    hide CountSince;
    assert FailedAt(n, at, at).attempts + [Attempt("a", None, at)] == FailedAt(n + 1, at, at).attempts;
  }

  lemma {:induction false} FailedAtIsQuiescent(n: nat, at: Time)
    requires n <= MAX_PER_EMAIL
    ensures Quiescent(FailedAt(n, at, at))
  {
    if n == 0 {
      var s := State(FailedAt(0, at, at), map[], History(map[], {}, {}, {}, {}, {}));
      assert Init(s) && Runs(s, []) && Run(s, []) == s;
    } else {
      hide Quiescent, Exec, FailedAt;
      FailedAtIsQuiescent(n - 1, at);
      WrongLoginFails(n - 1, at);
      CallsStayQuiescent(FailedAt(n - 1, at, at), WrongLogin());
    }
  }

  /** Five failures at the horizon lock the email out; a purge with any later bound
      lets it in again. */
  lemma LatePurgeIsSeen(now: Time, before: int) returns (w: World)
    requires before > PurgeHorizon(now)
    ensures Quiescent(w) && w.clock == now && Possible(w, WrongLogin())
    ensures Exec(w, WrongLogin()).1 == TooManyRequests
    ensures Exec(Exec(w, Purge(before)).0, WrongLogin()).1 == Unauthorized
  {
    var at := PurgeHorizon(now);
    w := FailedAt(MAX_PER_EMAIL, at, now);
    FailedAtIsQuiescent(MAX_PER_EMAIL, at);
    WaitIsQuiescent(MAX_PER_EMAIL, at, now);
    FailedCount(MAX_PER_EMAIL, at, now, now - WINDOW);
    FailedCount(MAX_PER_EMAIL, at, now, Max(before, now - WINDOW));
    EarlyPurgeShortensTheWindow(w, before, Email("a"));
    hide Quiescent, CountSince;
  }

  lemma WaitIsQuiescent(n: nat, at: Time, now: Time)
    requires Quiescent(FailedAt(n, at, at)) && at <= now
    ensures Quiescent(FailedAt(n, at, now))
  {
    CallsStayQuiescent(FailedAt(n, at, at), Wait(now));
  }

  /** No later outcome of the run changes, logoutAll's count aside. */
  ghost predicate PurgeUnseen(w: World, before: int, calls: seq<Call>) {
    var v := Exec(w, Purge(before)).0;
    && AllPossible(v, calls)
    && forall i | 0 <= i < |calls| && !calls[i].LogoutAll? :: Outcomes(v, calls)[i] == Outcomes(w, calls)[i]
  }

  /** A purge goes unseen by every run from every world of that time if and only if
      its bound is no later than the start of the window. */
  lemma PurgeIsInvisibleExactlyWhen(now: Time, before: int)
    ensures (forall w, calls | Quiescent(w) && w.clock == now && AllPossible(w, calls) :: PurgeUnseen(w, before, calls))
       <==> before <= PurgeHorizon(now)
  {
    hide Quiescent, Exec, Possible;
    if before <= PurgeHorizon(now) {
      forall w, calls | Quiescent(w) && w.clock == now && AllPossible(w, calls) ensures PurgeUnseen(w, before, calls) {
        NeverSeen(w, before, calls);
      }
    } else {
      var w := LatePurgeIsSeen(now, before);
      SeenByOneLogin(w, before);
    }
  }

  lemma NeverSeen(w: World, before: int, calls: seq<Call>)
    requires Quiescent(w) && AllPossible(w, calls) && before <= PurgeHorizon(w.clock)
    ensures PurgeUnseen(w, before, calls)
  {
    hide Quiescent, Exec, Possible, PurgeHorizon;
    forall i | 0 <= i < |calls| && !calls[i].LogoutAll?
      ensures Outcomes(Exec(w, Purge(before)).0, calls)[i] == Outcomes(w, calls)[i]
    {
      PurgeIsInvisible(w, before, calls, i);
    }
    if calls != [] { PurgeIsInvisible(w, before, calls, 0); }
  }

  lemma SeenByOneLogin(w: World, before: int)
    requires Possible(w, WrongLogin())
    requires Exec(w, WrongLogin()).1 != Exec(Exec(w, Purge(before)).0, WrongLogin()).1
    ensures AllPossible(w, [WrongLogin()]) && !PurgeUnseen(w, before, [WrongLogin()])
  {
    hide Exec, Possible;
    var calls, v := [WrongLogin()], Exec(w, Purge(before)).0;
    assert calls[1..] == [] && calls[0] == WrongLogin();
    assert Outcomes(w, calls)[0] == Exec(w, WrongLogin()).1;
    assert Outcomes(v, calls)[0] == Exec(v, WrongLogin()).1;
  }
}
