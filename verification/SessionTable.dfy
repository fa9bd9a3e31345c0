/** The two tables behind authentication, as values: `auth_sessions` keyed by
    its unique `jti`, and `auth_login_attempts` in insertion order. Every
    statement the repository sends is one function here. */
module SessionTable {
  import opened Options

  type Uuid = nat
  type UserId = nat
  type Time = nat // milliseconds since the epoch

  datatype Reason = Rotated | LoggedOut | LoggedOutAll | ReuseDetected | UserInactive

  datatype Revocation = Revocation(at: Time, reason: Reason)

  datatype Row = Row(
    userId: UserId,
    jti: Uuid,
    familyId: Uuid,
    expiresAt: int,
    revoked: Option<Revocation>,
    replacedBy: Option<Uuid>)
  {
    predicate Active() {
      revoked.None?
    }
  }

  type Table = t: map<Uuid, Row> | forall j <- t :: t[j].jti == j

  /** The WHERE clauses of the three conditional updates, next to
      `revoked_at IS NULL`. Only the first also sets `replaced_by_jti`. */
  datatype Selector =
    | ByJti(jti: Uuid, replacedBy: Option<Uuid>)
    | ByFamily(familyId: Uuid)
    | ByUser(userId: UserId)
  {
    predicate Selects(row: Row) {
      match this
      case ByJti(j, _) => row.jti == j
      case ByFamily(f) => row.familyId == f
      case ByUser(u) => row.userId == u
    }

    predicate Hits(row: Row) {
      row.Active() && Selects(row)
    }
  }

  function Revoke(row: Row, sel: Selector, at: Time, reason: Reason): (r: Row)
    ensures r.jti == row.jti && r.familyId == row.familyId
    ensures r.userId == row.userId && r.expiresAt == row.expiresAt
  {
    var r := row.(revoked := Some(Revocation(at, reason)));
    if sel.ByJti? then r.(replacedBy := sel.replacedBy) else r
  }

  /** The rows an update touches: its RETURNING clause. */
  function HitSet(t: Table, sel: Selector): set<Uuid> {
    set j | j in t && sel.Hits(t[j])
  }

  function Updated(row: Row, sel: Selector, at: Time, reason: Reason): Row {
    if sel.Hits(row) then Revoke(row, sel, at, reason) else row
  }

  /** UPDATE ... SET revoked_at, revoked_reason WHERE sel AND revoked_at IS NULL. */
  function RevokeWhere(t: Table, sel: Selector, at: Time, reason: Reason): Table {
    map j | j in t :: Updated(t[j], sel, at, reason)
  }

  /** DELETE ... WHERE expires_at < before. */
  function PurgeSessions(t: Table, before: int): Table {
    map j | j in t && t[j].expiresAt >= before :: t[j]
  }

  function Find(t: Table, jti: Uuid): Option<Row> {
    if jti in t then Some(t[jti]) else None
  }

  // ---------------------------------------------------------------- attempts

  datatype Attempt = Attempt(email: string, ip: Option<string>, at: Time)

  datatype Key = Email(email: string) | Ip(ip: string)
  {
    predicate Matches(a: Attempt) {
      match this
      case Email(e) => a.email == e
      case Ip(i) => a.ip == Some(i)
    }
  }

  /** SELECT count(*) WHERE key AND attempted_at >= since. */
  function CountSince(attempts: seq<Attempt>, key: Key, since: int): nat {
    if attempts == [] then 0
    else
      var a := attempts[|attempts| - 1];
      CountSince(attempts[..|attempts| - 1], key, since)
      + if key.Matches(a) && a.at >= since then 1 else 0
  }

  /** DELETE ... WHERE email = email. */
  function ClearEmail(attempts: seq<Attempt>, email: string): seq<Attempt> {
    if attempts == [] then []
    else
      var a := attempts[|attempts| - 1];
      ClearEmail(attempts[..|attempts| - 1], email) + if a.email == email then [] else [a]
  }

  /** DELETE ... WHERE attempted_at < before. */
  function PurgeAttempts(attempts: seq<Attempt>, before: int): seq<Attempt> {
    if attempts == [] then []
    else
      var a := attempts[|attempts| - 1];
      PurgeAttempts(attempts[..|attempts| - 1], before) + if a.at < before then [] else [a]
  }

  lemma CountAppend(attempts: seq<Attempt>, a: Attempt, key: Key, since: int)
    ensures CountSince(attempts + [a], key, since)
         == CountSince(attempts, key, since) + if key.Matches(a) && a.at >= since then 1 else 0
  {
    assert (attempts + [a])[..|attempts|] == attempts;
  }

  /** A later window start counts no more. */
  lemma {:induction false} CountMonotone(attempts: seq<Attempt>, key: Key, since: int, later: int)
    requires since <= later
    ensures CountSince(attempts, key, later) <= CountSince(attempts, key, since)
  {
    if attempts != [] {
      CountMonotone(attempts[..|attempts| - 1], key, since, later);
    }
  }

  /** Clearing an email empties its own count and never raises another. */
  lemma {:induction false} ClearCounts(attempts: seq<Attempt>, email: string, key: Key, since: int)
    ensures CountSince(ClearEmail(attempts, email), key, since) <= CountSince(attempts, key, since)
    ensures key == Email(email) ==> CountSince(ClearEmail(attempts, email), key, since) == 0
  {
    if attempts != [] {
      hide ClearEmail, CountSince;
      var init, a := attempts[..|attempts| - 1], attempts[|attempts| - 1];
      ClearCounts(init, email, key, since);
      assert attempts == init + [a];
      ClearAppend(init, a, email);
      CountAppend(init, a, key, since);
      if a.email == email {
        assert ClearEmail(init, email) + [] == ClearEmail(init, email);
      } else {
        CountAppend(ClearEmail(init, email), a, key, since);
      }
    }
  }

  function Max(a: int, b: int): int {
    if a < b then b else a
  }

  /** A purge makes every count start no earlier than its bound: windows that
      start at or above it do not notice, and only those. */
  lemma {:induction false} PurgeCounts(attempts: seq<Attempt>, before: int, key: Key, since: int)
    ensures CountSince(PurgeAttempts(attempts, before), key, since)
         == CountSince(attempts, key, Max(before, since))
  {
    if attempts != [] {
      hide PurgeAttempts, CountSince;
      var init, a := attempts[..|attempts| - 1], attempts[|attempts| - 1];
      PurgeCounts(init, before, key, since);
      assert attempts == init + [a];
      PurgeAppend(init, a, before);
      CountAppend(init, a, key, Max(before, since));
      if a.at < before {
        assert PurgeAttempts(init, before) + [] == PurgeAttempts(init, before);
      } else {
        CountAppend(PurgeAttempts(init, before), a, key, since);
      }
    }
  }

  lemma PurgeNeverCountsMore(attempts: seq<Attempt>, before: int, key: Key, since: int)
    ensures CountSince(PurgeAttempts(attempts, before), key, since) <= CountSince(attempts, key, since)
  {
    PurgeCounts(attempts, before, key, since);
    CountMonotone(attempts, key, since, Max(before, since));
  }

  /** Clearing and purging commute, so a purge can be moved across a clear. */
  lemma {:induction false} ClearPurgeCommute(attempts: seq<Attempt>, email: string, before: int)
    ensures ClearEmail(PurgeAttempts(attempts, before), email)
         == PurgeAttempts(ClearEmail(attempts, email), before)
  {
    if attempts != [] {
      var init, a := attempts[..|attempts| - 1], attempts[|attempts| - 1];
      ClearPurgeCommute(init, email, before);
      ClearAppend(PurgeAttempts(init, before), a, email);
      PurgeAppend(ClearEmail(init, email), a, before);
      if a.at < before {
        assert PurgeAttempts(attempts, before) == PurgeAttempts(init, before);
      }
      if a.email == email {
        assert ClearEmail(attempts, email) == ClearEmail(init, email);
      }
    }
  }

  lemma {:induction false} PurgesCommute(attempts: seq<Attempt>, b1: int, b2: int)
    ensures PurgeAttempts(PurgeAttempts(attempts, b1), b2) == PurgeAttempts(PurgeAttempts(attempts, b2), b1)
  {
    if attempts != [] {
      var init, a := attempts[..|attempts| - 1], attempts[|attempts| - 1];
      PurgesCommute(init, b1, b2);
      PurgeAppend(PurgeAttempts(init, b1), a, b2);
      PurgeAppend(PurgeAttempts(init, b2), a, b1);
      if a.at < b1 {
        assert PurgeAttempts(attempts, b1) == PurgeAttempts(init, b1);
      }
      if a.at < b2 {
        assert PurgeAttempts(attempts, b2) == PurgeAttempts(init, b2);
      }
    }
  }

  lemma ClearAppend(attempts: seq<Attempt>, a: Attempt, email: string)
    ensures ClearEmail(attempts + [a], email)
         == ClearEmail(attempts, email) + if a.email == email then [] else [a]
  {
    assert (attempts + [a])[..|attempts|] == attempts;
  }

  lemma PurgeAppend(attempts: seq<Attempt>, a: Attempt, before: int)
    ensures PurgeAttempts(attempts + [a], before)
         == PurgeAttempts(attempts, before) + if a.at < before then [] else [a]
  {
    assert (attempts + [a])[..|attempts|] == attempts;
  }

  // ---------------------------------------------- the statements, written out

  /** The positions an attempts count looks at. */
  ghost function Indices(attempts: seq<Attempt>, key: Key, since: int): set<nat> {
    set i: nat | i < |attempts| && key.Matches(attempts[i]) && attempts[i].at >= since
  }

  lemma {:induction false} CountIsSize(attempts: seq<Attempt>, key: Key, since: int)
    ensures CountSince(attempts, key, since) == |Indices(attempts, key, since)|
  {
    if attempts == [] {
      assert Indices(attempts, key, since) == {};
    } else {
      var n := |attempts| - 1;
      CountIsSize(attempts[..n], key, since);
      if key.Matches(attempts[n]) && attempts[n].at >= since {
        assert Indices(attempts, key, since) == Indices(attempts[..n], key, since) + {n};
      } else {
        assert Indices(attempts, key, since) == Indices(attempts[..n], key, since);
      }
    }
  }

  /** A count per email is the number of its attempts at or after the start. */
  lemma EmailCountIsSize(attempts: seq<Attempt>, email: string, since: int)
    ensures CountSince(attempts, Email(email), since)
         == |set i: nat | i < |attempts| && attempts[i].email == email && attempts[i].at >= since|
  {
    CountIsSize(attempts, Email(email), since);
    assert Indices(attempts, Email(email), since)
        == set i: nat | i < |attempts| && attempts[i].email == email && attempts[i].at >= since;
  }

  lemma IpCountIsSize(attempts: seq<Attempt>, ip: string, since: int)
    ensures CountSince(attempts, Ip(ip), since)
         == |set i: nat | i < |attempts| && attempts[i].ip == Some(ip) && attempts[i].at >= since|
  {
    CountIsSize(attempts, Ip(ip), since);
    assert Indices(attempts, Ip(ip), since)
        == set i: nat | i < |attempts| && attempts[i].ip == Some(ip) && attempts[i].at >= since;
  }

  /** What is kept keeps its order: one list is another with some elements left out. */
  ghost predicate Thinned(kept: seq<Attempt>, all: seq<Attempt>) {
    if kept == [] then true
    else if all == [] then false
    else
      var k, n := |kept| - 1, |all| - 1;
      (kept[k] == all[n] && Thinned(kept[..k], all[..n])) || Thinned(kept, all[..n])
  }

  /** Clearing deletes the attempts of the email, every one, and no other. */
  lemma {:induction false} ClearedAttempts(attempts: seq<Attempt>, email: string)
    ensures Thinned(ClearEmail(attempts, email), attempts)
    ensures forall a :: multiset(ClearEmail(attempts, email))[a]
                     == if a.email == email then 0 else multiset(attempts)[a]
  {
    if attempts != [] {
      var n := |attempts| - 1;
      ClearedAttempts(attempts[..n], email);
      assert attempts == attempts[..n] + [attempts[n]];
      var kept := ClearEmail(attempts[..n], email);
      if attempts[n].email == email {
        assert ClearEmail(attempts, email) == kept;
      } else {
        assert ClearEmail(attempts, email) == kept + [attempts[n]];
        assert (kept + [attempts[n]])[..|kept|] == kept;
      }
    }
  }

  /** Purging deletes the attempts before the bound, every one, and no other. */
  lemma {:induction false} PurgedAttempts(attempts: seq<Attempt>, before: int)
    ensures Thinned(PurgeAttempts(attempts, before), attempts)
    ensures forall a :: multiset(PurgeAttempts(attempts, before))[a]
                     == if a.at < before then 0 else multiset(attempts)[a]
  {
    if attempts != [] {
      var n := |attempts| - 1;
      PurgedAttempts(attempts[..n], before);
      assert attempts == attempts[..n] + [attempts[n]];
      var kept := PurgeAttempts(attempts[..n], before);
      if attempts[n].at < before {
        assert PurgeAttempts(attempts, before) == kept;
      } else {
        assert PurgeAttempts(attempts, before) == kept + [attempts[n]];
        assert (kept + [attempts[n]])[..|kept|] == kept;
      }
    }
  }

  /** Each conditional update, row by row, and the rows it returns. */
  lemma FamilyUpdate(t: Table, f: Uuid, at: Time, reason: Reason)
    ensures var u := RevokeWhere(t, ByFamily(f), at, reason);
      && u.Keys == t.Keys
      && (forall j <- t :: u[j] == if t[j].familyId == f && t[j].revoked.None?
            then t[j].(revoked := Some(Revocation(at, reason))) else t[j])
    ensures HitSet(t, ByFamily(f)) == set j | j in t && t[j].familyId == f && t[j].revoked.None?
  {
  }

  lemma UserUpdate(t: Table, u: UserId, at: Time, reason: Reason)
    ensures var v := RevokeWhere(t, ByUser(u), at, reason);
      && v.Keys == t.Keys
      && (forall j <- t :: v[j] == if t[j].userId == u && t[j].revoked.None?
            then t[j].(revoked := Some(Revocation(at, reason))) else t[j])
    ensures HitSet(t, ByUser(u)) == set j | j in t && t[j].userId == u && t[j].revoked.None?
  {
  }

  lemma JtiUpdate(t: Table, jti: Uuid, next: Option<Uuid>, at: Time, reason: Reason)
    ensures var v := RevokeWhere(t, ByJti(jti, next), at, reason);
      v == if jti in t && t[jti].revoked.None?
             then t[jti := t[jti].(revoked := Some(Revocation(at, reason)), replacedBy := next)] else t
    ensures HitSet(t, ByJti(jti, next)) == if jti in t && t[jti].revoked.None? then {jti} else {}
  {
  }
}
