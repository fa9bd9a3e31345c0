/** The repository as the object it is: two growing tables updated in place,
    each statement a loop over rows, proved against the map and sequence
    functions of SessionTable. */
module AuthSessionRepository {
  import opened Options
  import opened SessionTable

  /** The unique index on jti. */
  ghost predicate Distinct(rows: seq<Row>) {
    forall i, j | 0 <= i < j < |rows| :: rows[i].jti != rows[j].jti
  }

  ghost function TableOf(rows: seq<Row>): (t: Table)
    requires Distinct(rows)
    ensures forall i | 0 <= i < |rows| :: rows[i].jti in t && t[rows[i].jti] == rows[i]
    ensures forall j <- t :: t[j] in rows
  {
    if rows == [] then map[]
    else
      var init, last := rows[..|rows| - 1], rows[|rows| - 1];
      assert forall i | 0 <= i < |init| :: init[i] == rows[i];
      TableOf(init)[last.jti := last]
  }

  lemma UpdatedTable(was: seq<Row>, now: seq<Row>, sel: Selector, at: Time, reason: Reason)
    requires Distinct(was) && |now| == |was|
    requires forall i | 0 <= i < |was| :: now[i] == Updated(was[i], sel, at, reason)
    ensures Distinct(now)
    ensures TableOf(now) == RevokeWhere(TableOf(was), sel, at, reason)
  {
    hide TableOf, Revoke;
    forall i | 0 <= i < |was| ensures now[i].jti == was[i].jti {}
    var t, u := TableOf(was), TableOf(now);
    forall j <- u ensures j in t && u[j] == Updated(t[j], sel, at, reason) {
      var i :| 0 <= i < |now| && now[i] == u[j];
      assert was[i].jti == j;
    }
    forall j <- t ensures j in u {
      var i :| 0 <= i < |was| && was[i] == t[j];
      assert now[i].jti == j;
    }
  }

  lemma InsertedTable(rows: seq<Row>, row: Row)
    requires Distinct(rows) && row.jti !in TableOf(rows)
    ensures Distinct(rows + [row])
    ensures TableOf(rows + [row]) == TableOf(rows)[row.jti := row]
  {
    hide TableOf;
    forall i | 0 <= i < |rows| ensures rows[i].jti != row.jti {
      assert rows[i].jti in TableOf(rows);
    }
    var t, u := TableOf(rows), TableOf(rows + [row]);
    forall j <- u ensures j in t[row.jti := row] && u[j] == t[row.jti := row][j] {
      var i :| 0 <= i < |rows| + 1 && (rows + [row])[i] == u[j];
    }
    forall j <- t ensures j in u && u[j] == t[j] {
      var i :| 0 <= i < |rows| && rows[i] == t[j];
      assert (rows + [row])[i] == t[j];
    }
    assert (rows + [row])[|rows|] == row;
  }

  lemma KeptTable(was: seq<Row>, now: seq<Row>, before: int)
    requires Distinct(was) && Distinct(now)
    requires forall r :: r in now <==> r in was && r.expiresAt >= before
    ensures TableOf(now) == PurgeSessions(TableOf(was), before)
  {
    hide TableOf;
    var t, u := TableOf(was), TableOf(now);
    forall j <- u ensures j in t && u[j] == t[j] && t[j].expiresAt >= before {
      var r := u[j];
      assert r in was;
      var i :| 0 <= i < |was| && was[i] == r;
    }
    forall j <- t | t[j].expiresAt >= before ensures j in u {
      assert t[j] in now;
      var i :| 0 <= i < |now| && now[i] == t[j];
    }
  }

  /** The rows among the first n that an update touches. */
  ghost function HitsBefore(rows: seq<Row>, n: nat, sel: Selector): set<Uuid>
    requires n <= |rows|
  {
    set k | 0 <= k < n && sel.Hits(rows[k]) :: rows[k].jti
  }

  lemma NextHit(rows: seq<Row>, n: nat, sel: Selector)
    requires Distinct(rows) && n < |rows|
    ensures |HitsBefore(rows, n + 1, sel)| == |HitsBefore(rows, n, sel)| + if sel.Hits(rows[n]) then 1 else 0
  {
    if sel.Hits(rows[n]) {
      assert HitsBefore(rows, n + 1, sel) == HitsBefore(rows, n, sel) + {rows[n].jti};
    } else {
      assert HitsBefore(rows, n + 1, sel) == HitsBefore(rows, n, sel);
    }
  }

  lemma AllHits(rows: seq<Row>, sel: Selector)
    requires Distinct(rows)
    ensures HitsBefore(rows, |rows|, sel) == HitSet(TableOf(rows), sel)
  {
    hide TableOf;
    forall j <- TableOf(rows) | sel.Hits(TableOf(rows)[j]) ensures j in HitsBefore(rows, |rows|, sel) {
      var k :| 0 <= k < |rows| && rows[k] == TableOf(rows)[j];
    }
  }

  lemma NoHitsYet(rows: seq<Row>, sel: Selector)
    ensures |HitsBefore(rows, 0, sel)| == 0
  {
  }

  lemma UpdatedIs(row: Row, sel: Selector, at: Time, reason: Reason)
    ensures Updated(row, sel, at, reason) == if sel.Hits(row) then Revoke(row, sel, at, reason) else row
  {
  }

  lemma NothingCleared(email: string)
    ensures ClearEmail([], email) == []
  {
  }

  class Repository {
    var rows: seq<Row>
    var attempts: seq<Attempt>

    ghost predicate Valid()
      reads this
    {
      Distinct(rows)
    }

    ghost function Sessions(): Table
      reads this
      requires Valid()
    {
      TableOf(rows)
    }

    constructor ()
      ensures Valid() && Sessions() == map[] && attempts == []
    {
      rows, attempts := [], [];
    }

    /** INSERT; false stands for the unique-index violation. */
    method Store(row: Row) returns (ok: bool)
      requires Valid()
      modifies this
      ensures Valid() && attempts == old(attempts)
      ensures ok <==> row.jti !in old(Sessions())
      ensures Sessions() == if ok then old(Sessions())[row.jti := row] else old(Sessions())
    {
      var clash := FindByJti(row.jti);
      if clash.Some? { return false; }
      InsertedTable(rows, row);
      rows := rows + [row];
      ok := true;
    }

    method FindByJti(jti: Uuid) returns (found: Option<Row>)
      requires Valid()
      ensures found == Find(Sessions(), jti)
      ensures found == if jti in Sessions() then Some(Sessions()[jti]) else None
    {
      var i := 0;
      while i < |rows|
        invariant 0 <= i <= |rows|
        invariant forall k | 0 <= k < i :: rows[k].jti != jti
      {
        if rows[i].jti == jti { return Some(rows[i]); }
        i := i + 1;
      }
      assert forall j <- Sessions() :: Sessions()[j] in rows;
      found := None;
    }

    /** UPDATE ... WHERE sel AND revoked_at IS NULL RETURNING id. */
    method UpdateActive(sel: Selector, now: Time, reason: Reason) returns (affected: nat)
      requires Valid()
      modifies this`rows
      ensures Valid()
      ensures Sessions() == RevokeWhere(old(Sessions()), sel, now, reason)
      ensures affected == |HitSet(old(Sessions()), sel)|
    {
      hide TableOf, RevokeWhere, HitSet, Distinct, HitsBefore, Updated;
      NoHitsYet(rows, sel);
      ghost var was := rows;
      var i := 0;
      affected := 0;
      while i < |rows|
        invariant 0 <= i <= |rows| == |was|
        invariant forall k | 0 <= k < i :: rows[k] == Updated(was[k], sel, now, reason)
        invariant forall k | i <= k < |rows| :: rows[k] == was[k]
        invariant affected == |HitsBefore(was, i, sel)|
      {
        NextHit(was, i, sel);
        UpdatedIs(rows[i], sel, now, reason);
        if sel.Hits(rows[i]) {
          rows := rows[i := Revoke(rows[i], sel, now, reason)];
          affected := affected + 1;
        }
        i := i + 1;
      }
      UpdatedTable(was, rows, sel, now, reason);
      AllHits(was, sel);
    }

    method RevokeByJti(jti: Uuid, reason: Reason, replacedBy: Option<Uuid>, now: Time) returns (revoked: bool)
      requires Valid()
      modifies this`rows
      ensures Valid()
      ensures Sessions() == RevokeWhere(old(Sessions()), ByJti(jti, replacedBy), now, reason)
      ensures revoked <==> jti in old(Sessions()) && old(Sessions())[jti].revoked.None?
      ensures !revoked ==> Sessions() == old(Sessions())
      ensures revoked ==> Sessions() == old(Sessions())[jti :=
        old(Sessions())[jti].(revoked := Some(Revocation(now, reason)), replacedBy := replacedBy)]
    {
      JtiUpdate(Sessions(), jti, replacedBy, now, reason);
      var affected := UpdateActive(ByJti(jti, replacedBy), now, reason);
      revoked := affected > 0;
      ghost var hits := HitSet(old(Sessions()), ByJti(jti, replacedBy));
      assert jti in old(Sessions()) && old(Sessions())[jti].Active() <==> jti in hits;
      assert hits == {} || hits == {jti};
    }

    method RevokeFamily(familyId: Uuid, reason: Reason, now: Time) returns (affected: nat)
      requires Valid()
      modifies this`rows
      ensures Valid()
      ensures Sessions() == RevokeWhere(old(Sessions()), ByFamily(familyId), now, reason)
      ensures affected == |HitSet(old(Sessions()), ByFamily(familyId))|
      ensures Sessions().Keys == old(Sessions()).Keys
      ensures forall j <- Sessions() ::
        var row := old(Sessions())[j];
        Sessions()[j] == if row.familyId == familyId && row.revoked.None?
          then row.(revoked := Some(Revocation(now, reason))) else row
      ensures var was := old(Sessions());
        affected == |set j | j in was && was[j].familyId == familyId && was[j].revoked.None?|
    {
      FamilyUpdate(Sessions(), familyId, now, reason);
      affected := UpdateActive(ByFamily(familyId), now, reason);
    }

    method RevokeAllForUser(user: UserId, reason: Reason, now: Time) returns (affected: nat)
      requires Valid()
      modifies this`rows
      ensures Valid()
      ensures Sessions() == RevokeWhere(old(Sessions()), ByUser(user), now, reason)
      ensures affected == |HitSet(old(Sessions()), ByUser(user))|
      ensures Sessions().Keys == old(Sessions()).Keys
      ensures forall j <- Sessions() ::
        var row := old(Sessions())[j];
        Sessions()[j] == if row.userId == user && row.revoked.None?
          then row.(revoked := Some(Revocation(now, reason))) else row
      ensures var was := old(Sessions());
        affected == |set j | j in was && was[j].userId == user && was[j].revoked.None?|
    {
      UserUpdate(Sessions(), user, now, reason);
      affected := UpdateActive(ByUser(user), now, reason);
    }

    method RecordLoginAttempt(email: string, ip: Option<string>, now: Time)
      modifies this`attempts
      ensures attempts == old(attempts) + [Attempt(email, ip, now)]
    {
      attempts := attempts + [Attempt(email, ip, now)];
    }

    /** One SELECT count(*) over the attempts table. */
    method CountWhere(key: Key, since: int) returns (total: nat)
      ensures total == CountSince(attempts, key, since)
    {
      var i := 0;
      total := 0;
      while i < |attempts|
        invariant 0 <= i <= |attempts|
        invariant total == CountSince(attempts[..i], key, since)
      {
        CountAppend(attempts[..i], attempts[i], key, since);
        assert attempts[..i + 1] == attempts[..i] + [attempts[i]];
        if key.Matches(attempts[i]) && attempts[i].at >= since { total := total + 1; }
        i := i + 1;
      }
      assert attempts[..i] == attempts;
    }

    /** A missing or empty address is never counted. */
    method CountLoginAttempts(email: string, ip: Option<string>, since: int) returns (byEmail: nat, byIp: nat)
      ensures byEmail == CountSince(attempts, Email(email), since)
      ensures byEmail == |set i: nat | i < |attempts| && attempts[i].email == email && attempts[i].at >= since|
      ensures byIp == if ip.None? || ip.value == "" then 0 else CountSince(attempts, Ip(ip.value), since)
      ensures byIp == if ip.None? || ip.value == "" then 0
        else |set i: nat | i < |attempts| && attempts[i].ip == ip && attempts[i].at >= since|
    {
      EmailCountIsSize(attempts, email, since);
      if ip.Some? { IpCountIsSize(attempts, ip.value, since); }
      byEmail := CountWhere(Email(email), since);
      if ip.None? || ip.value == "" { return byEmail, 0; }
      byIp := CountWhere(Ip(ip.value), since);
    }

    method ClearLoginAttempts(email: string)
      modifies this`attempts
      ensures attempts == ClearEmail(old(attempts), email)
      ensures Thinned(attempts, old(attempts))
      ensures forall a :: multiset(attempts)[a] == if a.email == email then 0 else multiset(old(attempts))[a]
    {
      hide Thinned, ClearEmail;
      ghost var was := attempts;
      NothingCleared(email);
      var i := 0;
      var kept: seq<Attempt> := [];
      while i < |attempts|
        invariant 0 <= i <= |attempts|
        invariant attempts == old(attempts)
        invariant kept == ClearEmail(attempts[..i], email)
      {
        ClearAppend(attempts[..i], attempts[i], email);
        assert attempts[..i + 1] == attempts[..i] + [attempts[i]];
        if attempts[i].email != email { kept := kept + [attempts[i]]; }
        i := i + 1;
      }
      assert attempts[..|attempts|] == attempts;
      attempts := kept;
      ClearedAttempts(was, email);
    }

    /** Two deletes; the result is the number of rows that went. */
    method PurgeExpired(before: int) returns (deleted: nat)
      requires Valid()
      modifies this
      ensures Valid()
      ensures Sessions() == PurgeSessions(old(Sessions()), before)
      ensures Sessions() == map j | j in old(Sessions()) && old(Sessions())[j].expiresAt >= before :: old(Sessions())[j]
      ensures attempts == PurgeAttempts(old(attempts), before)
      ensures Thinned(attempts, old(attempts))
      ensures forall a :: multiset(attempts)[a] == if a.at < before then 0 else multiset(old(attempts))[a]
      ensures deleted == |old(rows)| - |rows| + |old(attempts)| - |attempts|
    {
      hide Thinned, PurgeAttempts, TableOf;
      PurgedAttempts(attempts, before);
      var sessions := PurgeRows(before);
      var failures := PurgeAttemptRows(before);
      deleted := sessions + failures;
    }

    method PurgeAttemptRows(before: int) returns (deleted: nat)
      modifies this`attempts
      ensures attempts == PurgeAttempts(old(attempts), before)
      ensures deleted == |old(attempts)| - |attempts|
    {
      var i := 0;
      var kept: seq<Attempt> := [];
      while i < |attempts|
        invariant 0 <= i <= |attempts|
        invariant attempts == old(attempts)
        invariant kept == PurgeAttempts(attempts[..i], before) && |kept| <= i
      {
        PurgeAppend(attempts[..i], attempts[i], before);
        assert attempts[..i + 1] == attempts[..i] + [attempts[i]];
        if attempts[i].at >= before { kept := kept + [attempts[i]]; }
        i := i + 1;
      }
      assert attempts[..|attempts|] == attempts;
      deleted := |attempts| - |kept|;
      attempts := kept;
    }

    method PurgeRows(before: int) returns (deleted: nat)
      requires Valid()
      modifies this`rows
      ensures Valid()
      ensures Sessions() == PurgeSessions(old(Sessions()), before)
      ensures deleted == |old(rows)| - |rows|
    {
      var i, kept := 0, [];
      while i < |rows|
        invariant 0 <= i <= |rows| && |kept| <= i
        invariant Distinct(kept)
        invariant forall r :: r in kept <==> r in rows[..i] && r.expiresAt >= before
      {
        if rows[i].expiresAt >= before {
          forall r | r in kept ensures r.jti != rows[i].jti {
            var k :| 0 <= k < i && rows[k] == r;
          }
          kept := kept + [rows[i]];
        }
        assert rows[..i + 1] == rows[..i] + [rows[i]];
        i := i + 1;
      }
      assert rows[..i] == rows;
      KeptTable(rows, kept, before);
      deleted := |rows| - |kept|;
      rows := kept;
    }
  }
}
