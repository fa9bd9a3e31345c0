/** The sliding-window login limiter under concurrency. Counting, verifying and
    recording are separate steps, so the bound mentions the logins in flight. */
module AuthLimiter {
  import opened Options
  import opened SessionTable
  import opened AuthTokens
  import opened AuthProtocol

  predicate IsLoginOf(key: Key, email: string, ip: Option<string>) {
    match key
    case Email(e) => email == e
    case Ip(i) => ip == Some(i)
  }

  /** A login for the key that may still touch the attempts table. */
  predicate LoggingIn(pc: Pc, key: Key) {
    match pc
    case CountingEmail(e, ip, _) => IsLoginOf(key, e, ip)
    case CountingIp(e, ip, _, _) => IsLoginOf(key, e, ip)
    case Admitted(e, ip) => IsLoginOf(key, e, ip)
    case Failing(e, ip) => IsLoginOf(key, e, ip)
    case Clearing(e, _) => key == Email(e)
    case _ => false
  }

  /** One whose own count for the key was below the threshold. */
  predicate Passed(pc: Pc, key: Key) {
    match pc
    case CountingIp(e, ip, _, byEmail) => key == Email(e) && byEmail < MAX_PER_EMAIL
    case Admitted(_, _) => LoggingIn(pc, key)
    case Failing(_, _) => LoggingIn(pc, key)
    case Clearing(_, _) => LoggingIn(pc, key)
    case _ => false
  }

  function Threshold(key: Key): nat {
    if key.Email? then MAX_PER_EMAIL else MAX_PER_IP
  }

  function InFlightFor(s: State, key: Key): set<RequestId> {
    set r | r in s.reqs && LoggingIn(s.reqs[r], key)
  }

  function PassedFor(s: State, key: Key): set<RequestId> {
    set r | r in s.reqs && Passed(s.reqs[r], key)
  }

  /** Failed attempts the limiter would count right now. */
  function InWindow(s: State, key: Key): nat {
    CountSince(s.w.attempts, key, s.w.clock - WINDOW)
  }

  /** Windows were computed in the past, recorded attempts lie in the past. */
  ghost predicate Timely(s: State) {
    && (forall i | 0 <= i < |s.w.attempts| :: s.w.attempts[i].at <= s.w.clock)
    && (forall r <- s.reqs | s.reqs[r].CountingEmail? :: s.reqs[r].since <= s.w.clock - WINDOW)
    && (forall r <- s.reqs | s.reqs[r].CountingIp? :: s.reqs[r].since <= s.w.clock - WINDOW)
  }

  ghost predicate Bounded(s: State, key: Key, k: nat) {
    InWindow(s, key) + |PassedFor(s, key)| <= Threshold(key) - 1 + k
  }

  /** An address is a key of its own only if it is not the empty string. */
  predicate Counts(key: Key) {
    key.Ip? ==> key.ip != ""
  }

  lemma {:induction false} ClearedArePast(attempts: seq<Attempt>, email: string, now: Time)
    requires forall i | 0 <= i < |attempts| :: attempts[i].at <= now
    ensures forall i | 0 <= i < |ClearEmail(attempts, email)| :: ClearEmail(attempts, email)[i].at <= now
  {
    if attempts != [] {
      ClearedArePast(attempts[..|attempts| - 1], email, now);
    }
  }

  lemma {:induction false} PurgedArePast(attempts: seq<Attempt>, before: int, now: Time)
    requires forall i | 0 <= i < |attempts| :: attempts[i].at <= now
    ensures forall i | 0 <= i < |PurgeAttempts(attempts, before)| :: PurgeAttempts(attempts, before)[i].at <= now
  {
    if attempts != [] {
      PurgedArePast(attempts[..|attempts| - 1], before, now);
    }
  }

  lemma StepKeepsTimely(s: State, step: Step)
    requires Timely(s) && At(s, step)
    ensures Timely(Next(s, step))
  {
    hide CountSince, Verify, SignTokenPair;
    if step.ClearAttempts? {
      ClearedArePast(s.w.attempts, s.reqs[step.r].email, s.w.clock);
    } else if step.PurgeAttemptRows? {
      PurgedArePast(s.w.attempts, step.before, s.w.clock);
    }
  }

  lemma SubsetSize<T>(a: set<T>, b: set<T>)
    requires a <= b
    ensures |a| <= |b|
  {
    assert b == a + (b - a);
  }

  /** The count is fresh when it is compared: passing means being below the
      threshold, now, and every other login that passed is in flight. */
  lemma PassingKeepsBound(t: State, key: Key, k: nat)
    requires InWindow(t, key) < Threshold(key) && |InFlightFor(t, key)| <= k
    ensures Bounded(t, key, k)
  {
    SubsetSize(PassedFor(t, key), InFlightFor(t, key));
  }

  lemma CountByEmailKeepsBound(s: State, r: RequestId, key: Key, k: nat)
    requires Timely(s) && Bounded(s, key, k) && r in s.reqs && s.reqs[r].CountingEmail?
    requires |InFlightFor(DoCountEmail(s, r, s.reqs[r]), key)| <= k
    ensures Bounded(DoCountEmail(s, r, s.reqs[r]), key, k)
  {
    var t, pc := DoCountEmail(s, r, s.reqs[r]), s.reqs[r];
    if Passed(t.reqs[r], key) {
      CountMonotone(s.w.attempts, key, pc.since, s.w.clock - WINDOW);
      PassingKeepsBound(t, key, k);
    } else {
      assert PassedFor(t, key) == PassedFor(s, key);
    }
  }

  lemma CountByIpKeepsBound(s: State, r: RequestId, key: Key, k: nat)
    requires Timely(s) && Bounded(s, key, k) && r in s.reqs && s.reqs[r].CountingIp? && Counts(key)
    requires |InFlightFor(DoCountIp(s, r, s.reqs[r]), key)| <= k
    ensures Bounded(DoCountIp(s, r, s.reqs[r]), key, k)
  {
    var t, pc := DoCountIp(s, r, s.reqs[r]), s.reqs[r];
    if r in t.reqs && key.Ip? && Passed(t.reqs[r], key) {
      CountMonotone(s.w.attempts, key, pc.since, s.w.clock - WINDOW);
      PassingKeepsBound(t, key, k);
    } else {
      SubsetSize(PassedFor(t, key), PassedFor(s, key));
    }
  }

  lemma RecordKeepsBound(s: State, r: RequestId, key: Key, k: nat)
    requires Bounded(s, key, k) && r in s.reqs && s.reqs[r].Failing?
    ensures Bounded(DoRecord(s, r, s.reqs[r]), key, k)
  {
    var t, a := DoRecord(s, r, s.reqs[r]), Attempt(s.reqs[r].email, s.reqs[r].ip, s.w.clock);
    CountAppend(s.w.attempts, a, key, s.w.clock - WINDOW);
    hide CountSince;
    RecordLeaves(s, r, key);
    hide PassedFor;
    var was := PassedFor(s, key);
    if key.Matches(a) {
      assert |was - {r}| == |was| - 1;
    } else {
      SubsetSize(was - {r}, was);
    }
  }

  lemma RecordLeaves(s: State, r: RequestId, key: Key)
    requires r in s.reqs && s.reqs[r].Failing?
    ensures PassedFor(DoRecord(s, r, s.reqs[r]), key) == PassedFor(s, key) - {r}
    ensures key.Matches(Attempt(s.reqs[r].email, s.reqs[r].ip, s.w.clock)) <==> r in PassedFor(s, key)
  {
  }

  lemma ClearKeepsBound(s: State, r: RequestId, key: Key, k: nat)
    requires Bounded(s, key, k) && r in s.reqs && s.reqs[r].Clearing?
    ensures Bounded(DoClear(s, r, s.reqs[r]), key, k)
  {
    var t := DoClear(s, r, s.reqs[r]);
    ClearCounts(s.w.attempts, s.reqs[r].email, key, s.w.clock - WINDOW);
    hide CountSince, ClearEmail;
    SubsetSize(PassedFor(t, key), PassedFor(s, key));
  }

  predicate TouchesLimiter(step: Step) {
    || step.CountByEmail? || step.CountByIp? || step.RecordAttempt? || step.ClearAttempts?
    || step.Tick? || step.PurgeAttemptRows?
  }

  lemma OtherStepsLeaveLimiter(s: State, step: Step, key: Key)
    requires At(s, step) && !TouchesLimiter(step)
    ensures Next(s, step).w.attempts == s.w.attempts && Next(s, step).w.clock == s.w.clock
    ensures PassedFor(Next(s, step), key) <= PassedFor(s, key)
  {
    hide Verify, SignTokenPair, RevokeWhere, PurgeSessions, HitSet, IsLookup, Accepts, UserEnabled, Fresh, CountSince,
      ClearEmail, PurgeAttempts, IpCount, Limited;
  }

  lemma StepKeepsBound(s: State, step: Step, key: Key, k: nat)
    requires Timely(s) && Bounded(s, key, k) && At(s, step) && Counts(key)
    requires |InFlightFor(Next(s, step), key)| <= k
    ensures Bounded(Next(s, step), key, k)
  {
    hide Timely, Bounded, InWindow, InFlightFor, DoRevokePresented, DoSign, DoStore, DoPurge, DoCountEmail, DoCountIp,
      DoCheckPassword, DoRecord, DoClear, Update, End, Verify, Find, UserEnabled;
    match step
    case CountByEmail(r) => CountByEmailKeepsBound(s, r, key, k);
    case CountByIp(r) => CountByIpKeepsBound(s, r, key, k);
    case RecordAttempt(r) => RecordKeepsBound(s, r, key, k);
    case ClearAttempts(r) => ClearKeepsBound(s, r, key, k);
    case Tick(to) => TickKeepsBound(s, to, key, k);
    case PurgeAttemptRows(before) => PurgeKeepsBound(s, before, key, k);
    case _ =>
      OtherStepsLeaveLimiter(s, step, key);
      QuietKeepsBound(s, Next(s, step), key, k);
  }

  lemma TickKeepsBound(s: State, to: Time, key: Key, k: nat)
    requires Bounded(s, key, k) && s.w.clock <= to
    ensures Bounded(s.(w := s.w.(clock := to)), key, k)
  {
    CountMonotone(s.w.attempts, key, s.w.clock - WINDOW, to - WINDOW);
    assert PassedFor(s.(w := s.w.(clock := to)), key) == PassedFor(s, key);
  }

  lemma PurgeKeepsBound(s: State, before: int, key: Key, k: nat)
    requires Bounded(s, key, k)
    ensures Bounded(s.(w := s.w.(attempts := PurgeAttempts(s.w.attempts, before))), key, k)
  {
    PurgeNeverCountsMore(s.w.attempts, before, key, s.w.clock - WINDOW);
    assert PassedFor(s.(w := s.w.(attempts := PurgeAttempts(s.w.attempts, before))), key) == PassedFor(s, key);
  }

  lemma QuietKeepsBound(s: State, t: State, key: Key, k: nat)
    requires Bounded(s, key, k)
    requires t.w.attempts == s.w.attempts && t.w.clock == s.w.clock && PassedFor(t, key) <= PassedFor(s, key)
    ensures Bounded(t, key, k)
  {
    SubsetSize(PassedFor(t, key), PassedFor(s, key));
  }

  /** At every state of the run at most k logins for the key are in flight. */
  predicate AlwaysAtMost(s: State, steps: seq<Step>, key: Key, k: nat)
    requires Runs(s, steps)
    decreases |steps|
  {
    && |InFlightFor(s, key)| <= k
    && (steps != [] ==> AlwaysAtMost(Next(s, steps[0]), steps[1..], key, k))
  }

  lemma {:induction false} BoundHoldsFrom(s: State, steps: seq<Step>, key: Key, k: nat)
    requires Timely(s) && Bounded(s, key, k) && Counts(key)
    requires Runs(s, steps) && AlwaysAtMost(s, steps, key, k)
    ensures Bounded(Run(s, steps), key, k)
    decreases |steps|
  {
    if steps != [] {
      var t := Next(s, steps[0]);
      hide Next, Timely, Bounded;
      StepKeepsTimely(s, steps[0]);
      assert |InFlightFor(t, key)| <= k;
      StepKeepsBound(s, steps[0], key, k);
      BoundHoldsFrom(t, steps[1..], key, k);
    }
  }

  /** With at most k logins for an email in flight at any time, the failed
      attempts in the window plus the logins already past the check never
      exceed 4 + k; for a non-empty address, 19 + k. */
  lemma LimiterBound(s: State, steps: seq<Step>, key: Key, k: nat)
    requires Init(s) && Runs(s, steps) && Counts(key)
    requires AlwaysAtMost(s, steps, key, k)
    ensures var t := Run(s, steps);
      InWindow(t, key) + |PassedFor(t, key)| <= (if key.Email? then 4 else 19) + k
  {
    BoundHoldsFrom(s, steps, key, k);
  }
}
