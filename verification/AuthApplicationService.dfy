/** The service as the object it is: each method is an ordered sequence of
    repository calls with early exits, proved to do exactly what the sequential
    specification says, which in turn is a schedule of the protocol. */
module AuthApplicationService {
  import opened Options
  import opened SessionTable
  import opened AuthTokens
  import opened AuthProtocol
  import opened AuthSequential
  import opened AuthSessionRepository

  class Service {
    const repo: Repository
    var users: map<UserId, User>
    var clock: Time
    var issued: set<Claims> // every token ever signed: what a signature check accepts
    var used: set<Uuid>     // every UUID ever drawn

    ghost predicate Valid()
      reads this, repo
    {
      repo.Valid()
    }

    ghost function Snapshot(): World
      reads this, repo
      requires Valid()
    {
      World(repo.Sessions(), repo.attempts, users, clock, issued, used)
    }

    constructor (now: Time)
      ensures Valid() && fresh(repo)
      ensures Snapshot() == World(map[], [], map[], now, {}, {})
    {
      repo := new Repository();
      users, clock, issued, used := map[], now, {}, {};
    }

    method Verify(token: Claims, expected: TokenType) returns (claims: Option<Claims>)
      ensures claims == AuthTokens.Verify(issued, token, expected, clock)
    {
      claims := AuthTokens.Verify(issued, token, expected, clock);
    }

    method Refresh(token: Claims, mint: Mint) returns (outcome: Outcome)
      requires Valid() && Fresh(Snapshot(), mint)
      modifies this`issued, this`used, repo
      ensures Valid()
      ensures (Snapshot(), outcome) == Exec(old(Snapshot()), Call.Refresh(token, mint))
    {
      hide RevokeWhere, HitSet, Issue, Fresh, TableOf, Find, FinishRotation, UpdateIn;
      ghost var w := Snapshot();
      RefreshCases(w, token, mint);
      var payload := Verify(token, TokenType.Refresh);
      if payload.None? { return Unauthorized; }
      var session := repo.FindByJti(payload.value.jti);
      if session.None? { return Unauthorized; }
      var row := session.value;
      var revoked := repo.RevokeByJti(payload.value.jti, Rotated, None, clock);
      ghost var spent := UpdateIn(w, ByJti(row.jti, None), Rotated);
      UpdateInIs(w, ByJti(row.jti, None), Rotated);
      UpdateInIs(w, ByFamily(row.familyId), ReuseDetected);
      UpdateInIs(spent, ByFamily(row.familyId), Reason.UserInactive);
      if !revoked {
        NothingToRevoke(w, row.jti);
        var _ := repo.RevokeFamily(row.familyId, ReuseDetected, clock);
        return Unauthorized;
      }
      if !(row.userId in users && users[row.userId].status == Active) {
        var _ := repo.RevokeFamily(row.familyId, Reason.UserInactive, clock);
        return Unauthorized;
      }
      outcome := BuildTokenResponse(row.userId, Some(row.familyId), mint);
    }

    method Logout(token: Claims) returns (outcome: Outcome)
      requires Valid()
      modifies repo`rows
      ensures Valid()
      ensures (Snapshot(), outcome) == Exec(old(Snapshot()), Call.Logout(token))
    {
      var payload := Verify(token, TokenType.Refresh);
      if payload.None? { return Unauthorized; }
      var revoked := repo.RevokeByJti(payload.value.jti, LoggedOut, None, clock);
      outcome := Closed(if revoked then 1 else 0);
    }

    method LogoutAll(user: UserId) returns (outcome: Outcome)
      requires Valid()
      modifies repo`rows
      ensures Valid()
      ensures (Snapshot(), outcome) == Exec(old(Snapshot()), Call.LogoutAll(user))
    {
      var revoked := repo.RevokeAllForUser(user, LoggedOutAll, clock);
      outcome := Closed(revoked);
    }

    /** True when the limiter lets the login through. */
    method AssertNotRateLimited(email: string, ip: Option<string>) returns (ok: bool)
      requires Valid()
      ensures var since := clock - WINDOW;
        ok <==> !Limited(CountSince(repo.attempts, Email(email), since), IpCount(Snapshot(), ip, since))
    {
      var byEmail, byIp := repo.CountLoginAttempts(email, ip, clock - WINDOW);
      var emailBlocked := byEmail >= MAX_PER_EMAIL;
      var ipBlocked := byIp >= MAX_PER_IP;
      ok := !emailBlocked && !ipBlocked;
    }

    method Login(email: string, ip: Option<string>, found: Option<UserId>, matches: bool, mint: Mint)
      returns (outcome: Outcome)
      requires Valid() && Fresh(Snapshot(), mint) && IsLookup(Snapshot(), email, found)
      modifies this`issued, this`used, repo
      ensures Valid()
      ensures (Snapshot(), outcome) == Exec(old(Snapshot()), Call.Login(email, ip, found, matches, mint))
    {
      hide ClearEmail, Thinned, Issue, Fresh, CountSince, IpCount, TableOf;
      var ok := AssertNotRateLimited(email, ip);
      if !ok { return TooManyRequests; }
      if !(found.Some? && users[found.value].hasPassword && users[found.value].status == Active && matches) {
        repo.RecordLoginAttempt(email, ip, clock);
        return Unauthorized;
      }
      repo.ClearLoginAttempts(email);
      outcome := BuildTokenResponse(found.value, None, mint);
    }

    /** The end of register and of google: tokens for a known user. */
    method BuildTokenResponse(user: UserId, familyId: Option<Uuid>, mint: Mint) returns (outcome: Outcome)
      requires Valid()
      modifies this`issued, this`used, repo
      ensures Valid()
      ensures (Snapshot(), outcome) == Issue(old(Snapshot()), user, familyId, mint)
    {
      var tokens := SignTokenPair(user, familyId, mint, clock);
      if tokens.None? { return ServerError; }
      issued := issued + {tokens.value.access, tokens.value.refresh};
      used := used + {mint.jti, mint.familyId, mint.accessJti};
      var stored := repo.Store(RowOf(user, tokens.value));
      outcome := if stored then Issued(tokens.value) else ServerError;
    }

    method PurgeExpired(before: int) returns (deleted: nat)
      requires Valid()
      modifies repo
      ensures Valid()
      ensures Snapshot() == Exec(old(Snapshot()), Call.Purge(before)).0
    {
      hide PurgeAttempts, PurgeSessions, Thinned, TableOf;
      deleted := repo.PurgeExpired(before);
    }
  }

  lemma UpdateInIs(w: World, sel: Selector, reason: Reason)
    ensures UpdateIn(w, sel, reason) == w.(sessions := RevokeWhere(w.sessions, sel, w.clock, reason))
  {
  }

  /** The branches of a refresh. */
  lemma RefreshCases(w: World, token: Claims, m: Mint)
    ensures Exec(w, Call.Refresh(token, m)) ==
      if AuthTokens.Verify(w.issued, token, TokenType.Refresh, w.clock).None? || Find(w.sessions, token.jti).None? then
        (w, Unauthorized)
      else
        var row := Find(w.sessions, token.jti).value;
        var spent := UpdateIn(w, ByJti(row.jti, None), Rotated);
        if row.revoked.Some? then (UpdateIn(w, ByFamily(row.familyId), ReuseDetected), Unauthorized)
        else if row.userId in w.users && w.users[row.userId].status == Active then
          Issue(spent, row.userId, Some(row.familyId), m)
        else (UpdateIn(spent, ByFamily(row.familyId), Reason.UserInactive), Unauthorized)
  {
    hide Issue, RevokeWhere;
  }

  /** A revoke that finds no active row changes nothing. */
  lemma NothingToRevoke(w: World, jti: Uuid)
    requires jti in w.sessions ==> !w.sessions[jti].Active()
    ensures UpdateIn(w, ByJti(jti, None), Rotated) == w
  {
    assert RevokeWhere(w.sessions, ByJti(jti, None), w.clock, Rotated) == w.sessions;
  }
}
