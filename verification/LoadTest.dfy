/** The load tester's shared report: counters, the bounded latency sample, and
    the nearest-rank 95th percentile read off the sorted sample. */
module LoadTest {
  import opened Reservoir

  /** How one request of a worker went. */
  datatype Response =
    | FetchThrew
    | Answered(ok: bool, bodyThrew: bool)
  {
    /** A failed status whose body then cannot be read is counted twice. */
    function Errors(): nat {
      match this
      case FetchThrew => 1
      case Answered(ok, bodyThrew) => (if ok then 0 else 1) + (if bodyThrew then 1 else 0)
    }
  }

  /** One finished pass of a worker's loop; draw stands for floor(random * seen). */
  datatype Sample = Sample(response: Response, latency: real, draw: nat)

  type WorkerId = nat

  /** What runs between two awaits of a worker: the status has arrived, or the
      pass ends, in the catch block if `threw`, and then in the finally block. */
  datatype Event =
    | Answers(worker: WorkerId, ok: bool)
    | Settles(worker: WorkerId, threw: bool, latency: real, draw: nat)

  /** Workers that are reading a body, with the status they got. */
  type Reading = map<WorkerId, bool>

  predicate CanHappen(reading: Reading, e: Event) {
    match e
    case Answers(w, _) => w !in reading
    case Settles(w, threw, _, _) => w in reading || threw
  }

  function After(reading: Reading, e: Event): Reading {
    match e
    case Answers(w, ok) => reading[w := ok]
    case Settles(w, _, _, _) => reading - {w}
  }

  /** The pass an event completes. */
  function PassOf(reading: Reading, e: Event): seq<Sample> {
    match e
    case Answers(_, _) => []
    case Settles(w, threw, latency, draw) =>
      [Sample(if w in reading then Answered(reading[w], threw) else FetchThrew, latency, draw)]
  }

  /** Workers left reading after a schedule, and the passes it completed. */
  function ReadingAfter(reading: Reading, events: seq<Event>): Reading {
    if events == [] then reading
    else After(ReadingAfter(reading, events[..|events| - 1]), events[|events| - 1])
  }

  function Passes(reading: Reading, events: seq<Event>): seq<Sample> {
    if events == [] then []
    else
      var before := events[..|events| - 1];
      Passes(reading, before) + PassOf(ReadingAfter(reading, before), events[|events| - 1])
  }

  /** A schedule of the workers' events, each drawing below the number of passes
      finished by then, its own included. */
  predicate IsSchedule(reading: Reading, seen: nat, events: seq<Event>) {
    forall i | 0 <= i < |events| ::
      && CanHappen(ReadingAfter(reading, events[..i]), events[i])
      && (events[i].Settles? ==> events[i].draw < seen + |Passes(reading, events[..i])| + 1)
  }

  // ---------------------------------------------------------------- the sample

  function Latencies(log: seq<Sample>): seq<real> {
    seq(|log|, i requires 0 <= i < |log| => log[i].latency)
  }

  /** The draws that were used: those made once the k slots were full. */
  function UsedDraws(k: nat, log: seq<Sample>): seq<nat> {
    if |log| <= k then [] else seq<nat>(|log| - k, i requires 0 <= i < |log| - k => log[k + i].draw)
  }

  /** Observation numbers in the sample after the log. */
  function Kept(k: nat, log: seq<Sample>): (p: seq<nat>)
    ensures |p| == if |log| < k then |log| else k
  {
    if |log| <= k then seq(|log|, (i: nat) => i) else Slots(k, UsedDraws(k, log))
  }

  lemma KeptAreSeen(k: nat, log: seq<Sample>)
    ensures forall i | 0 <= i < |Kept(k, log)| :: Kept(k, log)[i] < |log|
    ensures NoRepeats(Kept(k, log))
  {
    SlotsAreDistinct(k, UsedDraws(k, log));
  }

  ghost predicate SampleOf(k: nat, log: seq<Sample>, latencies: seq<real>) {
    var p := Kept(k, log);
    && |latencies| == |p|
    && forall i | 0 <= i < |p| :: p[i] < |log| && latencies[i] == log[p[i]].latency
  }

  lemma UsedDrawsStep(k: nat, log: seq<Sample>, s: Sample)
    requires |log| >= k
    ensures UsedDraws(k, log + [s]) == UsedDraws(k, log) + [s.draw]
    ensures |UsedDraws(k, log)| == |log| - k
  {
  }

  lemma KeptOnceFull(k: nat, log: seq<Sample>)
    requires |log| >= k
    ensures Kept(k, log) == Slots(k, UsedDraws(k, log))
  {
  }

  lemma KeptStep(k: nat, log: seq<Sample>, s: Sample)
    ensures Kept(k, log + [s]) ==
      if |log| < k then Kept(k, log) + [|log|]
      else if s.draw < k then Kept(k, log)[s.draw := |log|]
      else Kept(k, log)
  {
    if |log| >= k {
      UsedDrawsStep(k, log, s);
      SlotsStep(k, UsedDraws(k, log), s.draw);
      KeptOnceFull(k, log);
      KeptOnceFull(k, log + [s]);
      hide Slots, Kept, UsedDraws;
    }
  }

  /** latencies of the given observations, in slot order. */
  ghost function Pick(all: seq<real>, p: seq<nat>): seq<real>
    requires forall i | 0 <= i < |p| :: p[i] < |all|
  {
    seq(|p|, i requires 0 <= i < |p| => all[p[i]])
  }

  lemma PickWithout(all: seq<real>, p: seq<nat>, i: nat)
    requires all != [] && NoRepeats(p) && (forall i | 0 <= i < |p| :: p[i] < |all|)
    requires i < |p| && p[i] == |all| - 1
    ensures var q := p[..i] + p[i + 1..];
      && NoRepeats(q) && (forall i | 0 <= i < |q| :: q[i] < |all| - 1)
      && multiset(Pick(all, p)) == multiset(Pick(all[..|all| - 1], q)) + multiset{all[|all| - 1]}
  {
    var n, q := |all| - 1, p[..i] + p[i + 1..];
    forall j | 0 <= j < |q| ensures q[j] < n {
      assert q[j] == if j < i then p[j] else p[j + 1];
    }
    var a, b := Pick(all, p[..i]), Pick(all, p[i + 1..]);
    assert Pick(all, p) == a + [all[n]] + b;
    assert Pick(all[..n], q) == a + b;
  }

  /** Different positions of a list pick a sub-multiset of it. */
  lemma {:induction false} PickIsSubMultiset(all: seq<real>, p: seq<nat>)
    requires NoRepeats(p) && forall i | 0 <= i < |p| :: p[i] < |all|
    ensures multiset(Pick(all, p)) <= multiset(all)
    decreases |all|
  {
    assert p == [] || p[0] < |all|;
    if all != [] {
      var n := |all| - 1;
      ButLast(all);
      if i :| 0 <= i < |p| && p[i] == n {
        var q := p[..i] + p[i + 1..];
        PickWithout(all, p, i);
        hide NoRepeats, Pick;
        PickIsSubMultiset(all[..n], q);
      } else {
        forall i | 0 <= i < |p| ensures p[i] < n {}
        assert Pick(all[..n], p) == Pick(all, p);
        hide NoRepeats, Pick;
        PickIsSubMultiset(all[..n], p);
      }
    }
  }

  // ------------------------------------------------------------------ sorting

  ghost predicate Sorted(s: seq<real>) {
    forall i, j | 0 <= i < j < |s| :: s[i] <= s[j]
  }

  function Insert(s: seq<real>, x: real): (r: seq<real>)
    ensures |r| == |s| + 1 && multiset(r) == multiset(s) + multiset{x}
  {
    if s == [] || s[|s| - 1] <= x then s + [x]
    else
      var r := Insert(s[..|s| - 1], x);
      assert s == s[..|s| - 1] + [s[|s| - 1]];
      r + [s[|s| - 1]]
  }

  lemma InMultiset(s: seq<real>, x: real)
    ensures x in s <==> x in multiset(s)
  {
  }

  lemma LastIsLargest(s: seq<real>, y: real)
    requires Sorted(s) && y in s
    ensures y <= s[|s| - 1]
  {
  }

  lemma AppendKeepsSorted(s: seq<real>, x: real)
    requires Sorted(s) && forall y <- s :: y <= x
    ensures Sorted(s + [x])
  {
    forall i | 0 <= i < |s| ensures s[i] <= x {
      assert s[i] in s;
    }
  }

  lemma {:induction false} InsertKeepsSorted(s: seq<real>, x: real)
    requires Sorted(s)
    ensures Sorted(Insert(s, x))
    ensures forall y <- Insert(s, x) :: y in s || y == x
  {
    if s == [] || s[|s| - 1] <= x {
      forall y <- s ensures y <= x {
        LastIsLargest(s, y);
      }
      AppendKeepsSorted(s, x);
    } else {
      var n := |s| - 1;
      var q := Insert(s[..n], x);
      InsertKeepsSorted(s[..n], x);
      forall y <- q ensures y <= s[n] {
        if y != x { LastIsLargest(s, y); }
      }
      AppendKeepsSorted(q, s[n]);
    }
  }

  // --------------------------------------------------------------- percentile

  /** ceil(0.95 n), in exact arithmetic. */
  function Rank95(n: nat): nat {
    (95 * n + 99) / 100
  }

  function P95(sorted: seq<real>): real {
    var index := if Rank95(|sorted|) - 1 < 0 then 0 else Rank95(|sorted|) - 1;
    if index < |sorted| then sorted[index] else 0.0
  }

  /** How many samples are at most v. */
  function AtMost(s: seq<real>, v: real): nat {
    if s == [] then 0 else AtMost(s[..|s| - 1], v) + if s[|s| - 1] <= v then 1 else 0
  }

  lemma {:induction false} AtMostOfSorted(s: seq<real>, v: real, i: nat)
    requires Sorted(s) && i <= |s|
    ensures (forall j | 0 <= j < i :: s[j] <= v) ==> AtMost(s, v) >= i
    ensures (forall j | i <= j < |s| :: s[j] > v) ==> AtMost(s, v) <= i
  {
    if s != [] {
      var n := |s| - 1;
      if i == |s| {
        AtMostBound(s, v);
        if forall j | 0 <= j < i :: s[j] <= v {
          AtMostOfSorted(s[..n], v, n);
        }
      } else {
        AtMostOfSorted(s[..n], v, i);
      }
    }
  }

  lemma {:induction false} AtMostBound(s: seq<real>, v: real)
    ensures AtMost(s, v) <= |s|
  {
    if s != [] {
      AtMostBound(s[..|s| - 1], v);
    }
  }

  /** p95 is the smallest sample that at least 95% of the samples do not exceed,
      and 0 when there is none. */
  lemma P95IsNearestRank(s: seq<real>)
    requires Sorted(s)
    ensures s == [] ==> P95(s) == 0.0
    ensures s != [] ==> P95(s) in s
    ensures 100 * AtMost(s, P95(s)) >= 95 * |s|
    ensures forall x <- s | x < P95(s) :: 100 * AtMost(s, x) < 95 * |s|
  {
    if s == [] { return; }
    RankBounds(|s|);
    var i := Rank95(|s|) - 1;
    AtMostAtRank(s, i);
    hide AtMost, Sorted, Rank95;
    assert P95(s) == s[i];
  }

  lemma RankBounds(n: nat)
    requires n > 0
    ensures 0 < Rank95(n) <= n && 100 * Rank95(n) >= 95 * n > 100 * (Rank95(n) - 1)
  {
  }

  lemma AtMostAtRank(s: seq<real>, i: nat)
    requires Sorted(s) && i < |s|
    ensures AtMost(s, s[i]) >= i + 1
    ensures forall x <- s | x < s[i] :: AtMost(s, x) <= i
  {
    hide AtMost;
    forall j | 0 <= j < i + 1 ensures s[j] <= s[i] {}
    AtMostOfSorted(s, s[i], i + 1);
    forall x <- s | x < s[i] ensures AtMost(s, x) <= i {
      forall j | i <= j < |s| ensures s[j] > x {}
      AtMostOfSorted(s, x, i);
    }
  }

  /** It depends on the samples only, not on how the sort arranged equal ones. */
  lemma {:induction false} SortedIsUnique(s: seq<real>, t: seq<real>)
    requires Sorted(s) && Sorted(t) && multiset(s) == multiset(t)
    ensures s == t
  {
    hide Sorted;
    SameLength(s, t);
    if s != [] {
      var n := |s| - 1;
      LastsAgree(s, t);
      PrefixesAgree(s, t);
      SortedIsUnique(s[..n], t[..n]);
      assert s == s[..n] + [s[n]] && t == t[..n] + [t[n]];
    }
  }

  lemma PrefixesAgree(s: seq<real>, t: seq<real>)
    requires Sorted(s) && Sorted(t) && multiset(s) == multiset(t) && |s| == |t| > 0
    requires s[|s| - 1] == t[|t| - 1]
    ensures var n := |s| - 1;
      Sorted(s[..n]) && Sorted(t[..n]) && multiset(s[..n]) == multiset(t[..n])
  {
    hide Sorted;
    ButLast(s);
    ButLast(t);
    PrefixIsSorted(s);
    PrefixIsSorted(t);
  }

  lemma PrefixIsSorted(s: seq<real>)
    requires Sorted(s) && s != []
    ensures Sorted(s[..|s| - 1])
  {
  }

  lemma LastsAgree(s: seq<real>, t: seq<real>)
    requires Sorted(s) && Sorted(t) && multiset(s) == multiset(t) && |s| == |t| > 0
    ensures s[|s| - 1] == t[|t| - 1]
  {
    var n := |s| - 1;
    InMultiset(s, s[n]);
    InMultiset(t, s[n]);
    InMultiset(t, t[n]);
    InMultiset(s, t[n]);
    LastIsLargest(s, t[n]);
    LastIsLargest(t, s[n]);
  }

  lemma SameLength(s: seq<real>, t: seq<real>)
    requires multiset(s) == multiset(t)
    ensures |s| == |t|
  {
    assert |multiset(s)| == |s| && |multiset(t)| == |t|;
  }

  lemma ButLast(s: seq<real>)
    requires s != []
    ensures multiset(s[..|s| - 1]) == multiset(s) - multiset{s[|s| - 1]}
  {
    assert s == s[..|s| - 1] + [s[|s| - 1]];
  }

  // --------------------------------------------------------------- the report

  function TotalErrors(log: seq<Sample>): nat {
    if log == [] then 0 else TotalErrors(log[..|log| - 1]) + log[|log| - 1].response.Errors()
  }

  /** Every draw lies below the number of observations so far. */
  ghost predicate LegalDraws(log: seq<Sample>) {
    forall i | 0 <= i < |log| :: log[i].draw < i + 1
  }

  /** What recordLatency does to the sample, as a function. */
  function Recorded(k: nat, latencies: seq<real>, latency: real, draw: nat): seq<real>
    requires |latencies| <= k
  {
    if |latencies| < k then latencies + [latency]
    else if draw < k then latencies[draw := latency]
    else latencies
  }

  lemma SampleStep(k: nat, log: seq<Sample>, s: Sample, latencies: seq<real>)
    requires k > 0 && SampleOf(k, log, latencies)
    ensures SampleOf(k, log + [s], Recorded(k, latencies, s.latency, s.draw))
  {
    KeptStep(k, log, s);
    hide Kept;
    var p, q, now := Kept(k, log), Kept(k, log + [s]), Recorded(k, latencies, s.latency, s.draw);
    forall i | 0 <= i < |q| ensures q[i] < |log| + 1 && now[i] == (log + [s])[q[i]].latency {
      assert i < |p| ==> (log + [s])[p[i]] == log[p[i]];
    }
  }

  lemma NoErrors()
    ensures TotalErrors([]) == 0
  {
  }

  lemma ErrorsStep(log: seq<Sample>, s: Sample)
    ensures TotalErrors(log + [s]) == TotalErrors(log) + s.response.Errors()
  {
    assert (log + [s])[..|log|] == log;
  }

  lemma StartOfSchedule(reading: Reading)
    ensures ReadingAfter(reading, []) == reading && Passes(reading, []) == [] && |Unfinished(map[])| == 0
  {
  }

  lemma NextEvent(reading: Reading, events: seq<Event>, i: nat)
    requires i < |events|
    ensures ReadingAfter(reading, events[..i + 1]) == After(ReadingAfter(reading, events[..i]), events[i])
    ensures Passes(reading, events[..i + 1])
         == Passes(reading, events[..i]) + PassOf(ReadingAfter(reading, events[..i]), events[i])
  {
    hide After, PassOf;
    assert events[..i + 1][..i] == events[..i] && events[..i + 1][i] == events[i];
  }

  /** Failed statuses counted already, of passes not finished yet. */
  function Unfinished(reading: Reading): set<WorkerId> {
    set w | w in reading && !reading[w]
  }

  lemma InUnfinished(reading: Reading, w: WorkerId)
    ensures w in Unfinished(reading) <==> w in reading && !reading[w]
  {
  }

  lemma DrawsStep(log: seq<Sample>, s: Sample)
    requires LegalDraws(log) && s.draw < |log| + 1
    ensures LegalDraws(log + [s])
  {
  }

  lemma RoomInSample(k: nat, log: seq<Sample>, latencies: seq<real>)
    requires SampleOf(k, log, latencies)
    ensures |latencies| <= k
  {
  }

  lemma UnfinishedAfter(reading: Reading, e: Event)
    requires CanHappen(reading, e)
    ensures |Unfinished(After(reading, e))| == |Unfinished(reading)|
      + (if e.Answers? && !e.ok then 1 else 0) - (if e.Settles? && e.worker in Unfinished(reading) then 1 else 0)
  {
    var was, now := Unfinished(reading), Unfinished(After(reading, e));
    if e.Answers? {
      assert now == if e.ok then was else was + {e.worker};
    } else {
      assert now == was - {e.worker};
    }
  }

  class Report {
    const maxSamples: nat
    var latencies: seq<real>
    var requests: nat
    var errors: nat
    ghost var reading: Reading // where each worker of the pool stands
    ghost var log: seq<Sample> // every finished pass, of all workers, in order

    ghost predicate Valid()
      reads this
    {
      && maxSamples > 0
      && requests == |log|
      && errors == TotalErrors(log) + |Unfinished(reading)|
      && LegalDraws(log)
      && SampleOf(maxSamples, log, latencies)
    }

    constructor (maxSamples: nat)
      requires maxSamples > 0
      ensures Valid() && this.maxSamples == maxSamples && log == [] && reading == map[]
    {
      this.maxSamples := maxSamples;
      latencies, requests, errors, log, reading := [], 0, 0, [], map[];
    }

    method RecordLatency(latency: real, seenRequests: nat, draw: nat)
      requires |latencies| <= maxSamples && draw < seenRequests
      modifies this`latencies
      ensures latencies == Recorded(maxSamples, old(latencies), latency, draw)
    {
      if |latencies| < maxSamples {
        latencies := latencies + [latency];
        return;
      }
      var replacementIndex := draw;
      if replacementIndex < maxSamples { latencies := latencies[replacementIndex := latency]; }
    }

    /** The status has arrived: a failed one is counted before the body is read. */
    method Answer(worker: WorkerId, ok: bool)
      requires Valid() && worker !in reading
      modifies this`errors, this`reading
      ensures Valid() && reading == old(reading)[worker := ok]
      ensures errors == old(errors) + if ok then 0 else 1
    {
      UnfinishedAfter(reading, Answers(worker, ok));
      if !ok { errors := errors + 1; }
      reading := reading[worker := ok];
    }

    /** A pass ends: the catch block if the fetch or the body threw, then the
        finally block, with no await in between. */
    method Settle(worker: WorkerId, threw: bool, latency: real, draw: nat)
      requires Valid() && (worker in reading || threw) && draw < requests + 1
      modifies this
      ensures Valid() && reading == old(reading) - {worker}
      ensures log == old(log) + PassOf(old(reading), Settles(worker, threw, latency, draw))
      ensures requests == old(requests) + 1 && errors == old(errors) + if threw then 1 else 0
    {
      hide SampleOf, TotalErrors, LegalDraws, Unfinished, Recorded;
      ghost var e := Settles(worker, threw, latency, draw);
      ghost var pass := PassOf(reading, e)[0];
      UnfinishedAfter(reading, e);
      InUnfinished(reading, worker);
      ErrorsStep(log, pass);
      DrawsStep(log, pass);
      SampleStep(maxSamples, log, pass, latencies);
      RoomInSample(maxSamples, log, latencies);
      if threw { errors := errors + 1; }
      requests := requests + 1;
      RecordLatency(latency, requests, draw);
      log, reading := log + [pass], reading - {worker};
    }

    method Happen(e: Event)
      requires Valid() && CanHappen(reading, e) && (e.Settles? ==> e.draw < requests + 1)
      modifies this
      ensures Valid() && reading == After(old(reading), e) && log == old(log) + PassOf(old(reading), e)
    {
      hide SampleOf, TotalErrors, LegalDraws, Unfinished;
      match e {
        case Answers(w, ok) => Answer(w, ok);
        case Settles(w, threw, latency, draw) => Settle(w, threw, latency, draw);
      }
    }

    /** The whole pool: the workers' loops interleave between awaits in any way.
        When every worker is done, each pass has counted all its errors. */
    method RunWorkers(events: seq<Event>)
      requires Valid() && IsSchedule(reading, requests, events)
      modifies this
      ensures Valid()
      ensures reading == ReadingAfter(old(reading), events)
      ensures log == old(log) + Passes(old(reading), events)
      ensures reading == map[] ==> errors == TotalErrors(log)
    {
      hide SampleOf, TotalErrors, LegalDraws, ReadingAfter, Passes, PassOf, After, CanHappen, Unfinished;
      StartOfSchedule(reading);
      var i := 0;
      while i < |events|
        invariant 0 <= i <= |events| && Valid()
        invariant reading == ReadingAfter(old(reading), events[..i])
        invariant log == old(log) + Passes(old(reading), events[..i])
      {
        NextEvent(old(reading), events, i);
        Happen(events[i]);
        i := i + 1;
      }
      assert events[..i] == events;
    }

    /** latencies.sort, in place. */
    method Sort()
      modifies this`latencies
      ensures Sorted(latencies) && multiset(latencies) == multiset(old(latencies))
    {
      var i := 0;
      var sorted: seq<real> := [];
      while i < |latencies|
        invariant 0 <= i <= |latencies| && latencies == old(latencies)
        invariant Sorted(sorted) && multiset(sorted) == multiset(latencies[..i])
      {
        InsertKeepsSorted(sorted, latencies[i]);
        assert latencies[..i + 1] == latencies[..i] + [latencies[i]];
        sorted := Insert(sorted, latencies[i]);
        i := i + 1;
      }
      assert latencies[..i] == latencies;
      latencies := sorted;
    }

    /** The figures the script prints once every worker is done: p95 of the sample,
        errors per request. The rate is a proportion exactly when no more requests
        failed twice than went well. */
    method Finish() returns (p95: real, errorRate: real)
      requires Valid() && reading == map[]
      modifies this`latencies
      ensures Sorted(latencies) && multiset(latencies) == multiset(old(latencies))
      ensures p95 == P95(latencies)
      ensures errorRate == ErrorRate(log)
      ensures if requests == 0 then errorRate == 1.0 else errorRate * requests as real == errors as real
      ensures log != [] ==> (errorRate <= 1.0 <==> DoublyFailed(log) <= Clean(log))
    {
      hide TotalErrors, P95, Sorted, SampleOf, LegalDraws, DoublyFailed, Clean, Rate, Unfinished;
      StartOfSchedule(map[]);
      Sort();
      p95 := P95(latencies);
      errorRate := Rate(errors, requests);
      RateTimesRequests(errors, requests);
      RateIsAProportionExactlyWhen(log);
    }
  }

  /** errors / requests, or 1 when there was no request. */
  function Rate(errors: nat, requests: nat): real {
    if requests == 0 then 1.0 else errors as real / requests as real
  }

  lemma RateTimesRequests(errors: nat, requests: nat)
    ensures if requests == 0 then Rate(errors, requests) == 1.0
            else Rate(errors, requests) * requests as real == errors as real
  {
  }

  /** After n observations the sample has min(n, k) entries, taken from different
      observations, hence a sub-multiset of all the latencies seen. */
  lemma SampleIsFair(k: nat, log: seq<Sample>, latencies: seq<real>)
    requires SampleOf(k, log, latencies)
    ensures |latencies| == if |log| < k then |log| else k
    ensures multiset(latencies) <= multiset(Latencies(log))
    ensures |log| > k && LegalDraws(log) ==> Legal(k, UsedDraws(k, log))
  {
    KeptAreSeen(k, log);
    PickIsSubMultiset(Latencies(log), Kept(k, log));
    assert latencies == Pick(Latencies(log), Kept(k, log));
  }

  function DoublyFailed(log: seq<Sample>): nat {
    if log == [] then 0
    else DoublyFailed(log[..|log| - 1]) + if log[|log| - 1].response.Errors() == 2 then 1 else 0
  }

  function Clean(log: seq<Sample>): nat {
    if log == [] then 0
    else Clean(log[..|log| - 1]) + if log[|log| - 1].response.Errors() == 0 then 1 else 0
  }

  /** Errors counted per finished pass; 1 when there was none. */
  function ErrorRate(log: seq<Sample>): real {
    Rate(TotalErrors(log), |log|)
  }

  lemma {:induction false} ErrorsAreFailuresTwice(log: seq<Sample>)
    ensures TotalErrors(log) == |log| + DoublyFailed(log) - Clean(log)
  {
    if log != [] {
      ErrorsAreFailuresTwice(log[..|log| - 1]);
    }
  }

  lemma RateIsAProportionExactlyWhen(log: seq<Sample>)
    ensures log != [] ==> (ErrorRate(log) <= 1.0 <==> DoublyFailed(log) <= Clean(log))
  {
    ErrorsAreFailuresTwice(log);
    if log != [] { Quotient(TotalErrors(log), |log|); }
  }

  lemma Quotient(a: nat, b: nat)
    requires b > 0
    ensures a as real / b as real <= 1.0 <==> a <= b
  {
  }

  // ------------------------------------------------ the counters, written out

  ghost function Where(events: seq<Event>, p: Event -> bool): set<nat> {
    set i: nat | i < |events| && p(events[i])
  }

  lemma WhereStep(events: seq<Event>, e: Event, p: Event -> bool)
    ensures |Where(events + [e], p)| == |Where(events, p)| + if p(e) then 1 else 0
  {
    var n, all := |events|, events + [e];
    assert forall i | 0 <= i < n :: all[i] == events[i];
    if p(e) {
      assert Where(all, p) == Where(events, p) + {n};
    } else {
      assert Where(all, p) == Where(events, p);
    }
  }

  lemma NoneWhere(p: Event -> bool)
    ensures |Where([], p)| == 0
  {
    assert Where([], p) == {};
  }

  lemma PassSize(reading: Reading, e: Event)
    ensures |PassOf(reading, e)| == if e.Settles? then 1 else 0
  {
  }

  lemma PassErrors(reading: Reading, e: Event, log: seq<Sample>)
    requires CanHappen(reading, e)
    ensures TotalErrors(log + PassOf(reading, e)) + |Unfinished(After(reading, e))|
         == TotalErrors(log) + |Unfinished(reading)| + (if e.Answers? && !e.ok then 1 else 0)
            + (if e.Settles? && e.threw then 1 else 0)
  {
    UnfinishedAfter(reading, e);
    InUnfinished(reading, e.worker);
    if e.Settles? {
      ErrorsStep(log, PassOf(reading, e)[0]);
    } else {
      assert log + [] == log;
    }
    hide Unfinished, TotalErrors;
  }

  /** Over any interleaving from the start: a pass per end of a pass, and an error
      per failed status and per exception, whoever they belong to. */
  lemma {:induction false} CountersWrittenOut(seen: nat, events: seq<Event>)
    requires IsSchedule(map[], seen, events)
    ensures |Passes(map[], events)| == |set i: nat | i < |events| && events[i].Settles?|
    ensures TotalErrors(Passes(map[], events)) + |Unfinished(ReadingAfter(map[], events))|
         == |set i: nat | i < |events| && events[i].Answers? && !events[i].ok|
          + |set i: nat | i < |events| && events[i].Settles? && events[i].threw|
  {
    var ends := (e: Event) => e.Settles?;
    var failed := (e: Event) => e.Answers? && !e.ok;
    var threw := (e: Event) => e.Settles? && e.threw;
    CountersAre(seen, events, ends, failed, threw);
    assert Where(events, ends) == set i: nat | i < |events| && events[i].Settles?;
    assert Where(events, failed) == set i: nat | i < |events| && events[i].Answers? && !events[i].ok;
    assert Where(events, threw) == set i: nat | i < |events| && events[i].Settles? && events[i].threw;
  }

  lemma {:induction false} CountersAre(seen: nat, events: seq<Event>, ends: Event -> bool, failed: Event -> bool,
        threw: Event -> bool)
    requires IsSchedule(map[], seen, events)
    requires forall e :: ends(e) == e.Settles?
    requires forall e :: failed(e) == (e.Answers? && !e.ok)
    requires forall e :: threw(e) == (e.Settles? && e.threw)
    ensures |Passes(map[], events)| == |Where(events, ends)|
    ensures TotalErrors(Passes(map[], events)) + |Unfinished(ReadingAfter(map[], events))|
         == |Where(events, failed)| + |Where(events, threw)|
  {
    hide Where, Passes, ReadingAfter, TotalErrors, Unfinished, IsSchedule, CanHappen, After, PassOf;
    if events == [] {
      NoneWhere(ends);
      NoneWhere(failed);
      NoneWhere(threw);
      StartOfSchedule(map[]);
      NoErrors();
    } else {
      var n := |events| - 1;
      var before, e := events[..n], events[n];
      PrefixIsSchedule(map[], seen, events, n);
      CountersAre(seen, before, ends, failed, threw);
      assert events == before + [e] && events[..n + 1] == events;
      NextEvent(map[], events, n);
      PassErrors(ReadingAfter(map[], before), e, Passes(map[], before));
      WhereStep(before, e, ends);
      WhereStep(before, e, failed);
      WhereStep(before, e, threw);
      PassSize(ReadingAfter(map[], before), e);
    }
  }

  lemma PrefixIsSchedule(reading: Reading, seen: nat, events: seq<Event>, n: nat)
    requires IsSchedule(reading, seen, events) && n < |events|
    ensures IsSchedule(reading, seen, events[..n]) && CanHappen(ReadingAfter(reading, events[..n]), events[n])
  {
    hide ReadingAfter, Passes, CanHappen;
    forall i | 0 <= i < n ensures events[..n][..i] == events[..i] && events[..n][i] == events[i] {}
  }

  /** One worker, one request: a failed status whose body then cannot be read is
      reported as an error rate of 2. */
  lemma ErrorRateCanExceedOne()
    ensures var events := [Answers(0, false), Settles(0, true, 1.0, 0)];
      && IsSchedule(map[], 0, events) && ReadingAfter(map[], events) == map[]
      && ErrorRate(Passes(map[], events)) == 2.0
  {
    hide ReadingAfter, Passes, TotalErrors;
    var first, second := Answers(0, false), Settles(0, true, 1.0, 0);
    var events, pass := [first, second], Sample(Answered(false, true), 1.0, 0);
    assert events[..0] == [] && events[..1] == [first] && events[..2] == events;
    StartOfSchedule(map[]);
    NextEvent(map[], events, 0);
    NextEvent(map[], events, 1);
    assert After(map[0 := false], second) == map[];
    ErrorsStep([], pass);
    assert [] + [pass] == [pass];
    NoErrors();
  }
}
