/** The limiter's bound is exact, and a lock-out ends by itself. */
module AuthLimiterLimits {
  import opened Options
  import opened SessionTable
  import opened AuthTokens
  import opened AuthProtocol
  import opened AuthTheorems
  import opened AuthLimiter

  // ---------------------------------------------------- the bound is reached

  /** A run from s to t along which at most k logins for the key are in flight. */
  ghost predicate Leads(s: State, steps: seq<Step>, t: State, key: Key, k: nat) {
    Runs(s, steps) && Run(s, steps) == t && AlwaysAtMost(s, steps, key, k)
  }

  lemma LeadsOne(s: State, step: Step, key: Key, k: nat)
    requires At(s, step) && |InFlightFor(s, key)| <= k && |InFlightFor(Next(s, step), key)| <= k
    ensures Leads(s, [step], Next(s, step), key, k)
  {
    assert [step][1..] == [];
  }

  lemma {:induction false} LeadsOn(s: State, a: seq<Step>, t: State, b: seq<Step>, u: State, key: Key, k: nat)
    requires Leads(s, a, t, key, k) && Leads(t, b, u, key, k)
    ensures Leads(s, a + b, u, key, k)
    decreases |a|
  {
    if a == [] {
      assert a + b == b;
    } else {
      LeadsOn(Next(s, a[0]), a[1..], t, b, u, key, k);
      assert (a + b)[0] == a[0] && (a + b)[1..] == a[1..] + b;
    }
  }

  /** The logins of a race: one email without an address, or one address with a
      different email each time. */
  function Who(key: Key, j: nat): string {
    if key.Email? then key.email else seq(j, _ => 'a')
  }

  function Where(key: Key): Option<string> {
    if key.Email? then None else Some(key.ip)
  }

  function Failures(key: Key, n: nat): seq<Attempt> {
    seq(n, i requires 0 <= i => Attempt(Who(key, i), Where(key), 0))
  }

  /** Numbers of the m logins after the first n. */
  function Following(n: nat, m: nat): (b: set<RequestId>)
    ensures forall r: RequestId :: r in b <==> n <= r < n + m
    ensures |b| == m
  {
    if m == 0 then {} else Following(n, m - 1) + {n + m - 1}
  }

  /** n failures on record and the next m logins past the check, about to record. */
  function Race(key: Key, n: nat, m: nat): State {
    State(
      World(map[], Failures(key, n), map[], 0, {}, {}),
      map r | r in Following(n, m) :: Failing(Who(key, r), Where(key)),
      History(map[], {}, {}, {}, {}, {}))
  }

  lemma {:induction false} FailuresCount(key: Key, n: nat, since: int)
    requires since <= 0
    ensures CountSince(Failures(key, n), key, since) == n
  {
    if n > 0 {
      FailuresCount(key, n - 1, since);
      assert Failures(key, n)[..n - 1] == Failures(key, n - 1);
    }
  }

  /** How often the next login's own email is on record. */
  lemma {:induction false} OwnFailures(key: Key, n: nat, j: nat, since: int)
    requires since <= 0 && n <= j
    ensures CountSince(Failures(key, n), Email(Who(key, j)), since) == if key.Email? then n else 0
  {
    if n > 0 {
      OwnFailures(key, n - 1, j, since);
      assert Failures(key, n)[..n - 1] == Failures(key, n - 1);
      assert key.Ip? ==> |Who(key, n - 1)| != |Who(key, j)|;
    }
  }

  lemma RacersLogIn(key: Key)
    ensures forall j: nat :: LoggingIn(Failing(Who(key, j), Where(key)), key)
  {
  }

  lemma RaceInFlight(key: Key, n: nat, m: nat)
    ensures |InFlightFor(Race(key, n, m), key)| == m
  {
    RacersLogIn(key);
    hide Following, LoggingIn, Who, Where, Failures;
    assert InFlightFor(Race(key, n, m), key) == Following(n, m);
  }

  /** The next login, at pc, on top of a race. */
  function Entering(key: Key, n: nat, m: nat, pc: Pc): State {
    Goto(Race(key, n, m), n + m, pc)
  }

  lemma EnteringInFlight(key: Key, n: nat, m: nat, pc: Pc)
    requires LoggingIn(pc, key)
    ensures |InFlightFor(Entering(key, n, m, pc), key)| == m + 1
  {
    RacersLogIn(key);
    hide Following, LoggingIn, Who, Where, Failures;
    assert InFlightFor(Entering(key, n, m, pc), key) == Following(n, m + 1);
  }

  lemma AtEntering(key: Key, n: nat, m: nat, pc: Pc)
    ensures var s := Entering(key, n, m, pc);
      n + m in s.reqs && s.reqs[n + m] == pc && s.w == World(map[], Failures(key, n), map[], 0, {}, {})
  {
  }

  lemma GotoTwice(s: State, r: RequestId, before: Pc, after: Pc)
    ensures Goto(Goto(s, r, before), r, after) == Goto(s, r, after)
  {
  }

  ghost predicate Steps(s: State, step: Step, t: State) {
    At(s, step) && Next(s, step) == t
  }

  lemma LeadsStep(s: State, step: Step, t: State, key: Key, k: nat)
    requires Steps(s, step, t) && |InFlightFor(s, key)| <= k && |InFlightFor(t, key)| <= k
    ensures Leads(s, [step], t, key, k)
  {
    LeadsOne(s, step, key, k);
  }

  function CountingAt(key: Key, j: nat): Pc {
    CountingEmail(Who(key, j), Where(key), 0 - WINDOW)
  }

  function CountedAt(key: Key, j: nat, n: nat): Pc {
    CountingIp(Who(key, j), Where(key), 0 - WINDOW, if key.Email? then n else 0)
  }

  function AdmittedAt(key: Key, j: nat): Pc {
    Admitted(Who(key, j), Where(key))
  }

  lemma StepBegin(key: Key, n: nat, m: nat)
    ensures Steps(Race(key, n, m), BeginLogin(n + m, Who(key, n + m), Where(key)),
                  Entering(key, n, m, CountingAt(key, n + m)))
  {
    hide Who, Where, Failures, Following;
  }

  lemma StepCountEmail(key: Key, n: nat, m: nat)
    ensures Steps(Entering(key, n, m, CountingAt(key, n + m)), CountByEmail(n + m),
                  Entering(key, n, m, CountedAt(key, n + m, n)))
  {
    hide CountSince, Who, Where, Failures, Race;
    OwnFailures(key, n, n + m, 0 - WINDOW);
    AtEntering(key, n, m, CountingAt(key, n + m));
    GotoTwice(Race(key, n, m), n + m, CountingAt(key, n + m), CountedAt(key, n + m, n));
    hide Goto;
  }

  lemma StepCountIp(key: Key, n: nat, m: nat)
    requires n < Threshold(key) && Counts(key)
    ensures Steps(Entering(key, n, m, CountedAt(key, n + m, n)), CountByIp(n + m),
                  Entering(key, n, m, AdmittedAt(key, n + m)))
  {
    hide CountSince, Who, Failures, Race;
    FailuresCount(key, n, 0 - WINDOW);
    AtEntering(key, n, m, CountedAt(key, n + m, n));
    GotoTwice(Race(key, n, m), n + m, CountedAt(key, n + m, n), AdmittedAt(key, n + m));
    hide Goto;
  }

  lemma StepCheck(key: Key, n: nat, m: nat)
    ensures Steps(Entering(key, n, m, AdmittedAt(key, n + m)), CheckPassword(n + m, None, false),
                  Race(key, n, m + 1))
  {
    hide Who, Where, Failures, Race;
    RaceGrows(key, n, m);
    AtEntering(key, n, m, AdmittedAt(key, n + m));
    GotoTwice(Race(key, n, m), n + m, AdmittedAt(key, n + m), Failing(Who(key, n + m), Where(key)));
    hide Goto;
  }

  lemma RaceGrows(key: Key, n: nat, m: nat)
    ensures Race(key, n, m + 1) == Goto(Race(key, n, m), n + m, Failing(Who(key, n + m), Where(key)))
  {
    hide Following, Who, Where, Failures;
    assert Race(key, n, m + 1).reqs == Race(key, n, m).reqs[n + m := Failing(Who(key, n + m), Where(key))];
  }

  /** The login that has waited longest records its failure. */
  lemma StepRecord(key: Key, n: nat, m: nat)
    ensures Steps(Race(key, n, m + 1), RecordAttempt(n), Race(key, n + 1, m))
  {
    RaceShrinks(key, n, m);
    FailuresGrow(key, n);
    hide Following, Failures, Who, Where;
  }

  lemma RaceShrinks(key: Key, n: nat, m: nat)
    ensures n in Race(key, n, m + 1).reqs && Race(key, n, m + 1).reqs[n] == Failing(Who(key, n), Where(key))
    ensures Race(key, n, m + 1).reqs - {n} == Race(key, n + 1, m).reqs
  {
    hide Failures, Who, Where, Following;
  }

  lemma FailuresGrow(key: Key, n: nat)
    ensures Failures(key, n) + [Attempt(Who(key, n), Where(key), 0)] == Failures(key, n + 1)
  {
  }

  lemma AllLoggingIn(key: Key, j: nat, n: nat)
    ensures LoggingIn(CountingAt(key, j), key) && LoggingIn(CountedAt(key, j, n), key)
      && LoggingIn(AdmittedAt(key, j), key)
  {
  }

  /** One more login slips past the check while the recorded failures are below
      the threshold, whoever else is past it already. */
  lemma Admit(key: Key, n: nat, m: nat, k: nat) returns (steps: seq<Step>)
    requires n < Threshold(key) && Counts(key) && m < k
    ensures Leads(Race(key, n, m), steps, Race(key, n, m + 1), key, k)
  {
    hide Leads, Steps, Race, Entering, InFlightFor, Who, Where, LoggingIn, CountingAt, CountedAt, AdmittedAt;
    var j, s0, s4 := n + m, Race(key, n, m), Race(key, n, m + 1);
    var s1, s2 := Entering(key, n, m, CountingAt(key, j)), Entering(key, n, m, CountedAt(key, j, n));
    var s3 := Entering(key, n, m, AdmittedAt(key, j));
    AllLoggingIn(key, j, n);
    RaceInFlight(key, n, m);
    EnteringInFlight(key, n, m, CountingAt(key, j));
    EnteringInFlight(key, n, m, CountedAt(key, j, n));
    EnteringInFlight(key, n, m, AdmittedAt(key, j));
    RaceInFlight(key, n, m + 1);
    StepBegin(key, n, m);
    StepCountEmail(key, n, m);
    StepCountIp(key, n, m);
    StepCheck(key, n, m);
    var a, b := BeginLogin(j, Who(key, j), Where(key)), CountByEmail(j);
    var c, d := CountByIp(j), CheckPassword(j, None, false);
    LeadsStep(s0, a, s1, key, k);
    LeadsStep(s1, b, s2, key, k);
    LeadsStep(s2, c, s3, key, k);
    LeadsStep(s3, d, s4, key, k);
    LeadsOn(s0, [a], s1, [b], s2, key, k);
    LeadsOn(s2, [c], s3, [d], s4, key, k);
    LeadsOn(s0, [a] + [b], s2, [c] + [d], s4, key, k);
    steps := [a] + [b] + ([c] + [d]);
  }

  /** A login past the check records its failure, however many are recorded. */
  lemma Fail(key: Key, n: nat, m: nat, k: nat) returns (steps: seq<Step>)
    requires m < k
    ensures Leads(Race(key, n, m + 1), steps, Race(key, n + 1, m), key, k)
  {
    RaceInFlight(key, n, m + 1);
    RaceInFlight(key, n + 1, m);
    StepRecord(key, n, m);
    hide Leads, Steps, Race, InFlightFor;
    LeadsStep(Race(key, n, m + 1), RecordAttempt(n), Race(key, n + 1, m), key, k);
    steps := [RecordAttempt(n)];
  }

  lemma LeadsNowhere(key: Key, n: nat, k: nat)
    ensures Leads(Race(key, n, 0), [], Race(key, n, 0), key, k)
  {
    RaceInFlight(key, n, 0);
  }

  lemma {:induction false} FailOneByOne(key: Key, n: nat, k: nat) returns (steps: seq<Step>)
    requires n < Threshold(key) && Counts(key) && k > 0
    ensures Leads(Race(key, 0, 0), steps, Race(key, n, 0), key, k)
  {
    hide Leads, Race;
    if n == 0 {
      LeadsNowhere(key, 0, k);
      steps := [];
    } else {
      var before := FailOneByOne(key, n - 1, k);
      var admit := Admit(key, n - 1, 0, k);
      var fail := Fail(key, n - 1, 0, k);
      LeadsOn(Race(key, 0, 0), before, Race(key, n - 1, 0), admit, Race(key, n - 1, 1), key, k);
      LeadsOn(Race(key, 0, 0), before + admit, Race(key, n - 1, 1), fail, Race(key, n, 0), key, k);
      steps := before + admit + fail;
    }
  }

  lemma {:induction false} AdmitMany(key: Key, n: nat, m: nat, k: nat) returns (steps: seq<Step>)
    requires n < Threshold(key) && Counts(key) && 0 < k && m <= k
    ensures Leads(Race(key, n, 0), steps, Race(key, n, m), key, k)
  {
    hide Leads, Race;
    if m == 0 {
      LeadsNowhere(key, n, k);
      steps := [];
    } else {
      var before := AdmitMany(key, n, m - 1, k);
      var admit := Admit(key, n, m - 1, k);
      LeadsOn(Race(key, n, 0), before, Race(key, n, m - 1), admit, Race(key, n, m), key, k);
      steps := before + admit;
    }
  }

  lemma {:induction false} FailMany(key: Key, n: nat, m: nat, k: nat) returns (steps: seq<Step>)
    requires m <= k
    ensures Leads(Race(key, n, m), steps, Race(key, n + m, 0), key, k)
    decreases m
  {
    hide Leads, Race;
    if m == 0 {
      LeadsNowhere(key, n, k);
      steps := [];
    } else {
      var fail := Fail(key, n, m - 1, k);
      var after := FailMany(key, n + 1, m - 1, k);
      LeadsOn(Race(key, n, m), fail, Race(key, n + 1, m - 1), after, Race(key, n + m, 0), key, k);
      steps := fail + after;
    }
  }

  /** For every email and every non-empty address, and every k > 0, the bound of
      LimiterBound is reached: the configured limits are what one login at a time
      gets, not what concurrent logins get. */
  lemma LimiterBoundIsReached(key: Key, k: nat)
    requires Counts(key) && k > 0
    ensures exists s, steps ::
      && Init(s) && Runs(s, steps) && AlwaysAtMost(s, steps, key, k)
      && InWindow(Run(s, steps), key) == (if key.Email? then 4 else 19) + k
  {
    var n := Threshold(key) - 1;
    var one := FailOneByOne(key, n, k);
    var many := AdmitMany(key, n, k, k);
    var fail := FailMany(key, n, k, k);
    var s := Race(key, 0, 0);
    RaceStarts(key);
    hide Race;
    LeadsOn(s, one, Race(key, n, 0), many, Race(key, n, k), key, k);
    LeadsOn(s, one + many, Race(key, n, k), fail, Race(key, n + k, 0), key, k);
    RaceInWindow(key, n + k);
    assert InWindow(Run(s, one + many + fail), key) == n + k;
  }

  lemma RaceStarts(key: Key)
    ensures Init(Race(key, 0, 0))
  {
  }

  lemma RaceInWindow(key: Key, n: nat)
    ensures InWindow(Race(key, n, 0), key) == n
  {
    FailuresCount(key, n, 0 - WINDOW);
  }

  // ------------------------------------------------------ a lock-out ends

  /** No login for the email gets past the limiter anywhere in the run. */
  predicate NeverAdmits(s: State, steps: seq<Step>, email: string)
    requires Runs(s, steps)
    decreases |steps|
  {
    steps != [] ==>
      && !(steps[0].CountByIp? && s.reqs[steps[0].r].email == email && steps[0].r in Next(s, steps[0]).reqs)
      && NeverAdmits(Next(s, steps[0]), steps[1..], email)
  }

  /** Nothing recorded for the email after t, and nobody about to record. */
  ghost predicate QuietSince(s: State, email: string, t: Time) {
    && CountSince(s.w.attempts, Email(email), t + 1) == 0
    && forall r <- s.reqs :: !(s.reqs[r].Admitted? && s.reqs[r].email == email)
                          && !(s.reqs[r].Failing? && s.reqs[r].email == email)
  }

  lemma {:induction false} NothingAfterNow(attempts: seq<Attempt>, key: Key, now: Time)
    requires forall i | 0 <= i < |attempts| :: attempts[i].at <= now
    ensures CountSince(attempts, key, now + 1) == 0
  {
    if attempts != [] {
      NothingAfterNow(attempts[..|attempts| - 1], key, now);
    }
  }

  lemma StepKeepsQuiet(s: State, step: Step, email: string, t: Time)
    requires QuietSince(s, email, t) && At(s, step)
    requires !(step.CountByIp? && s.reqs[step.r].email == email && step.r in Next(s, step).reqs)
    ensures QuietSince(Next(s, step), email, t)
  {
    hide CountSince, ClearEmail, PurgeAttempts, SignTokenPair, Verify;
    match step
    case RecordAttempt(r) =>
      CountAppend(s.w.attempts, Attempt(s.reqs[r].email, s.reqs[r].ip, s.w.clock), Email(email), t + 1);
    case ClearAttempts(r) => ClearCounts(s.w.attempts, s.reqs[r].email, Email(email), t + 1);
    case PurgeAttemptRows(before) => PurgeNeverCountsMore(s.w.attempts, before, Email(email), t + 1);
    case _ =>
  }

  lemma {:induction false} StaysQuiet(s: State, steps: seq<Step>, email: string, t: Time)
    requires QuietSince(s, email, t) && Runs(s, steps) && NeverAdmits(s, steps, email)
    ensures QuietSince(Run(s, steps), email, t)
    decreases |steps|
  {
    if steps != [] {
      StepKeepsQuiet(s, steps[0], email, t);
      StaysQuiet(Next(s, steps[0]), steps[1..], email, t);
    }
  }

  /** Rejected logins write nothing. If none was past the check at time t and
      every later one is rejected, then once the clock has passed t + 15
      minutes the email's count is zero, however many were tried. */
  lemma LockOutEndsFrom(s: State, steps: seq<Step>, email: string)
    requires Timely(s) && Runs(s, steps) && NeverAdmits(s, steps, email)
    requires forall r <- PassedFor(s, Email(email)) :: s.reqs[r].CountingIp? || s.reqs[r].Clearing?
    requires Run(s, steps).w.clock > s.w.clock + WINDOW
    ensures InWindow(Run(s, steps), Email(email)) == 0
  {
    var t := Run(s, steps);
    NothingAfterNow(s.w.attempts, Email(email), s.w.clock);
    forall r <- s.reqs ensures
      && !(s.reqs[r].Admitted? && s.reqs[r].email == email)
      && !(s.reqs[r].Failing? && s.reqs[r].email == email)
    {
      assert r in PassedFor(s, Email(email)) || !Passed(s.reqs[r], Email(email));
    }
    StaysQuiet(s, steps, email, s.w.clock);
    CountMonotone(t.w.attempts, Email(email), s.w.clock + 1, t.w.clock - WINDOW);
  }

  lemma {:induction false} RunsStayTimely(s: State, steps: seq<Step>)
    requires Timely(s) && Runs(s, steps)
    ensures Timely(Run(s, steps))
    decreases |steps|
  {
    if steps != [] {
      StepKeepsTimely(s, steps[0]);
      RunsStayTimely(Next(s, steps[0]), steps[1..]);
    }
  }

  /** A lock-out ends by itself, from every reachable state. */
  lemma LockOutEnds(s: State, steps: seq<Step>, email: string)
    requires Reachable(s) && Runs(s, steps) && NeverAdmits(s, steps, email)
    requires forall r <- PassedFor(s, Email(email)) :: s.reqs[r].CountingIp? || s.reqs[r].Clearing?
    requires Run(s, steps).w.clock > s.w.clock + WINDOW
    ensures InWindow(Run(s, steps), Email(email)) == 0
  {
    hide Timely, NeverAdmits, InWindow, PassedFor;
    var s0, before :| Init(s0) && Runs(s0, before) && Run(s0, before) == s;
    StartIsTimely(s0);
    RunsStayTimely(s0, before);
    LockOutEndsFrom(s, steps, email);
  }

  lemma StartIsTimely(s: State)
    requires Init(s)
    ensures Timely(s)
  {
  }
}
