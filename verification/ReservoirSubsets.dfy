/** The full strength of "uniform": every set of k observations is the final
    sample after equally many draw sequences. */
module ReservoirSubsets {
  import opened Reservoir

  function SetOf(p: seq<nat>): set<nat> {
    set x | x in p
  }

  function Factorial(n: nat): (f: nat)
    ensures f > 0
  {
    if n == 0 then 1 else n * Factorial(n - 1)
  }

  /** The draw sequences that leave exactly the observations of sample behind. */
  ghost function Yielding(k: nat, t: nat, sample: set<nat>): set<seq<nat>> {
    set s | s in Draws(k, t) && SetOf(Slots(k, s)) == sample
  }

  lemma {:induction false} DistinctSize(p: seq<nat>)
    requires NoRepeats(p)
    ensures |SetOf(p)| == |p|
  {
    if p == [] {
      assert SetOf(p) == {};
    } else {
      var q, x := p[..|p| - 1], p[|p| - 1];
      DistinctSize(q);
      assert SetOf(p) == SetOf(q) + {x};
      forall i | 0 <= i < |q| ensures q[i] != x {}
    }
  }

  /** What one draw does to the sample as a set. */
  lemma SampleStep(k: nat, s: seq<nat>, c: nat)
    ensures c >= k ==> SetOf(Slots(k, s + [c])) == SetOf(Slots(k, s))
    ensures c < k ==> SetOf(Slots(k, s + [c])) == SetOf(Slots(k, s)) - {Slots(k, s)[c]} + {k + |s|}
  {
    hide Slots;
    SlotsStep(k, s, c);
    SlotsAreDistinct(k, s);
    var p, n := Slots(k, s), k + |s|;
    if c < k {
      var q := p[c := n];
      forall x ensures x in q <==> x in SetOf(p) - {p[c]} + {n} {
        if x in SetOf(p) - {p[c]} {
          var i :| 0 <= i < |p| && p[i] == x;
          assert q[i] == x;
        }
        if x == n { assert q[c] == x; }
        if x in q {
          var i :| 0 <= i < |q| && q[i] == x;
          assert i != c ==> p[i] == x && p[i] != p[c];
        }
      }
    }
  }

  lemma NewestIsNew(k: nat, t: nat, s: seq<nat>)
    requires s in Draws(k, t)
    ensures |s| == t && SetOf(Slots(k, s)) <= Below(k + t) && |SetOf(Slots(k, s))| == k
  {
    DrawsAreTheLegalOnes(k, t, s);
    hide Draws, Slots;
    SlotsAreDistinct(k, s);
    DistinctSize(Slots(k, s));
  }

  // ------------------------------------- the newest observation is not kept

  ghost function High(k: nat, n: nat): seq<nat> -> set<nat> {
    s => Below(n) - Below(k)
  }

  lemma SampleWithoutNewest(k: nat, t: nat, sample: set<nat>)
    requires t > 0 && k + t - 1 !in sample
    ensures |Yielding(k, t, sample)| == |Yielding(k, t - 1, sample)| * t
  {
    hide Yielding, Extend, Draws, Slots, Below, SetOf;
    WithoutNewestExtends(k, t, k + t, sample);
    HighSize(k, t);
    ExtendCount(Yielding(k, t - 1, sample), High(k, k + t), t);
  }

  lemma WithoutNewestExtends(k: nat, t: nat, n: nat, sample: set<nat>)
    requires t > 0 && n == k + t && n - 1 !in sample
    ensures Yielding(k, t, sample) == Extend(Yielding(k, t - 1, sample), High(k, n))
  {
    hide Slots, Below, SetOf;
    var now, before := Yielding(k, t, sample), Yielding(k, t - 1, sample);
    forall x <- now ensures x in Extend(before, High(k, n)) {
      var s, c :| s in Draws(k, t - 1) && c in Below(k + t) && x == s + [c];
      NewestIsNew(k, t - 1, s);
      SampleStep(k, s, c);
      assert n - 1 !in SetOf(Slots(k, x));
      assert s in before && c in High(k, n)(s);
    }
    forall x <- Extend(before, High(k, n)) ensures x in now {
      var s, c :| s in before && c in High(k, n)(s) && x == s + [c];
      SampleStep(k, s, c);
      assert s in Draws(k, t - 1) && c in Below(k + t);
    }
  }

  lemma HighSize(k: nat, t: nat)
    ensures |Below(k + t) - Below(k)| == t
  {
    assert Below(k) <= Below(k + t);
  }

  // ----------------------------------------- the newest observation is kept

  /** Draw sequences that leave rest and one more observation from extra. */
  ghost function YieldingOneOf(k: nat, t: nat, rest: set<nat>, extra: set<nat>): set<seq<nat>> {
    set s | s in Draws(k, t) && exists y <- extra :: SetOf(Slots(k, s)) == rest + {y}
  }

  lemma {:induction false} OneOfCount(k: nat, t: nat, rest: set<nat>, extra: set<nat>, each: nat)
    requires rest !! extra
    requires forall y <- extra :: |Yielding(k, t, rest + {y})| == each
    ensures |YieldingOneOf(k, t, rest, extra)| == |extra| * each
  {
    hide Yielding, YieldingOneOf, Draws, Slots, SetOf;
    if y :| y in extra {
      OneOfSplits(k, t, rest, extra, y);
      OneOfCount(k, t, rest, extra - {y}, each);
      assert |extra| == |extra - {y}| + 1;
      OneMore(|extra - {y}|, each);
    } else {
      OneOfNone(k, t, rest);
      assert extra == {};
    }
  }

  lemma OneOfNone(k: nat, t: nat, rest: set<nat>)
    ensures YieldingOneOf(k, t, rest, {}) == {}
  {
  }

  lemma OneMore(n: nat, each: nat)
    ensures (n + 1) * each == n * each + each
  {
  }

  lemma OneOfSplits(k: nat, t: nat, rest: set<nat>, extra: set<nat>, y: nat)
    requires rest !! extra && y in extra
    ensures |YieldingOneOf(k, t, rest, extra)|
         == |YieldingOneOf(k, t, rest, extra - {y})| + |Yielding(k, t, rest + {y})|
  {
    hide Draws, Slots, SetOf;
    var here, others := Yielding(k, t, rest + {y}), YieldingOneOf(k, t, rest, extra - {y});
    forall s | s in here ensures s !in others {
      forall z | z in extra - {y} ensures rest + {z} != rest + {y} {
        assert z !in rest + {y};
      }
    }
    assert YieldingOneOf(k, t, rest, extra) == others + here by {
      forall s | s in YieldingOneOf(k, t, rest, extra) ensures s in others + here {
        var z :| z in extra && SetOf(Slots(k, s)) == rest + {z};
        assert z != y ==> z in extra - {y};
      }
    }
  }

  /** The slots whose eviction leaves exactly rest. */
  ghost function Evicting(k: nat, rest: set<nat>): seq<nat> -> set<nat> {
    s => set c | c in Below(k) && SetOf(Slots(k, s)) - {Slots(k, s)[c]} == rest
  }

  lemma OneSlotEvicts(k: nat, s: seq<nat>, rest: set<nat>, y: nat)
    requires y !in rest && SetOf(Slots(k, s)) == rest + {y}
    ensures |Evicting(k, rest)(s)| == 1
  {
    hide Slots;
    SlotsAreDistinct(k, s);
    var p := Slots(k, s);
    assert y in SetOf(p);
    var i := IndexOf(p, y);
    assert Evicting(k, rest)(s) == {i} by {
      forall c | c in Below(k) ensures SetOf(p) - {p[c]} == rest <==> c == i {
        if c != i {
          assert p[c] in rest;
        } else {
          assert SetOf(p) - {y} == rest;
        }
      }
    }
  }

  lemma SampleWithNewest(k: nat, t: nat, sample: set<nat>)
    requires t > 0 && k + t - 1 in sample && sample <= Below(k + t) && |sample| == k
    ensures var rest := sample - {k + t - 1};
      |Yielding(k, t, sample)| == |YieldingOneOf(k, t - 1, rest, Below(k + t - 1) - rest)|
  {
    var rest := sample - {k + t - 1};
    var before := YieldingOneOf(k, t - 1, rest, Below(k + t - 1) - rest);
    WithNewestExtends(k, t, sample);
    forall s <- before ensures |Evicting(k, rest)(s)| == 1 {
      var y :| y in Below(k + t - 1) - rest && SetOf(Slots(k, s)) == rest + {y};
      OneSlotEvicts(k, s, rest, y);
    }
    hide Yielding, YieldingOneOf, Extend, Evicting;
    ExtendCount(before, Evicting(k, rest), 1);
  }

  lemma WithNewestExtends(k: nat, t: nat, sample: set<nat>)
    requires t > 0 && k + t - 1 in sample && sample <= Below(k + t) && |sample| == k
    ensures var rest := sample - {k + t - 1};
      Yielding(k, t, sample) == Extend(YieldingOneOf(k, t - 1, rest, Below(k + t - 1) - rest), Evicting(k, rest))
  {
    var rest := sample - {k + t - 1};
    var now, all := Yielding(k, t, sample),
      Extend(YieldingOneOf(k, t - 1, rest, Below(k + t - 1) - rest), Evicting(k, rest));
    hide Extend, Evicting, YieldingOneOf, Slots, SetOf, Below;
    forall x <- now ensures x in all {
      var s, c :| s in Draws(k, t - 1) && c in Below(k + t) && x == s + [c];
      KeptMeansExtended(k, t, s, c, sample);
    }
    forall x <- all ensures x in now {
      ExtendedMeansKept(k, t, x, sample);
    }
  }

  lemma KeptMeansExtended(k: nat, t: nat, s: seq<nat>, c: nat, sample: set<nat>)
    requires t > 0 && s in Draws(k, t - 1) && c in Below(k + t)
    requires k + t - 1 in sample && SetOf(Slots(k, s + [c])) == sample
    ensures var rest := sample - {k + t - 1};
      s + [c] in Extend(YieldingOneOf(k, t - 1, rest, Below(k + t - 1) - rest), Evicting(k, rest))
  {
    hide Draws, Slots, SetOf;
    var rest := sample - {k + t - 1};
    EvictionLeavesRest(k, t, s, c, sample);
    assert s in YieldingOneOf(k, t - 1, rest, Below(k + t - 1) - rest) && c in Evicting(k, rest)(s);
  }

  lemma ExtendedMeansKept(k: nat, t: nat, x: seq<nat>, sample: set<nat>)
    requires t > 0 && k + t - 1 in sample
    requires var rest := sample - {k + t - 1};
      x in Extend(YieldingOneOf(k, t - 1, rest, Below(k + t - 1) - rest), Evicting(k, rest))
    ensures x in Yielding(k, t, sample)
  {
    var rest := sample - {k + t - 1};
    hide Slots, SetOf;
    var s, c :| s in YieldingOneOf(k, t - 1, rest, Below(k + t - 1) - rest) && c in Evicting(k, rest)(s)
      && x == s + [c];
    hide Extend, YieldingOneOf, Evicting;
    assert s in Draws(k, t - 1) && c < k && SetOf(Slots(k, s)) - {Slots(k, s)[c]} == rest;
    EvictionRestores(k, t, s, c, sample);
    assert c in Below(k + t);
  }

  lemma EvictionRestores(k: nat, t: nat, s: seq<nat>, c: nat, sample: set<nat>)
    requires t > 0 && s in Draws(k, t - 1) && c < k && k + t - 1 in sample
    requires SetOf(Slots(k, s)) - {Slots(k, s)[c]} == sample - {k + t - 1}
    ensures SetOf(Slots(k, s + [c])) == sample
  {
    hide Draws, Slots, SetOf, Below;
    DrawsAreTheLegalOnes(k, t - 1, s);
    SampleStep(k, s, c);
    assert (sample - {k + t - 1}) + {k + t - 1} == sample;
  }

  lemma EvictionLeavesRest(k: nat, t: nat, s: seq<nat>, c: nat, sample: set<nat>)
    requires t > 0 && s in Draws(k, t - 1) && c in Below(k + t)
    requires k + t - 1 in sample && SetOf(Slots(k, s + [c])) == sample
    ensures var rest := sample - {k + t - 1};
      && c < k && SetOf(Slots(k, s)) - {Slots(k, s)[c]} == rest
      && exists y <- Below(k + t - 1) - rest :: SetOf(Slots(k, s)) == rest + {y}
  {
    hide Slots, Draws, NoRepeats, Below;
    var n, before := k + t - 1, SetOf(Slots(k, s));
    OldOnly(k, t - 1, s);
    SampleStep(k, s, c);
    var y := Slots(k, s)[c];
    assert y in before;
    RemoveInsert(before, y, n, sample);
    assert y in Below(n) - (sample - {n});
  }

  lemma OldOnly(k: nat, t: nat, s: seq<nat>)
    requires s in Draws(k, t)
    ensures |s| == t && k + t !in SetOf(Slots(k, s)) && SetOf(Slots(k, s)) <= Below(k + t)
  {
    hide Slots, Draws;
    NewestIsNew(k, t, s);
  }

  lemma RemoveInsert(before: set<nat>, y: nat, n: nat, after: set<nat>)
    requires y in before && n !in before && after == before - {y} + {n}
    ensures before - {y} == after - {n} && before == (after - {n}) + {y} && y !in after - {n}
  {
  }

  // --------------------------------------------------------------- the count

  /** Every k-element sample of the k + t observations is left by exactly t!
      draw sequences, so all samples are equally likely. */
  lemma {:induction false} EverySampleIsEquallyLikely(k: nat, t: nat, sample: set<nat>)
    requires sample <= Below(k + t) && |sample| == k
    ensures |Yielding(k, t, sample)| == Factorial(t)
    decreases t, 0
  {
    hide Draws, Slots, Yielding, YieldingOneOf, Below, Factorial, EachYields;
    if t == 0 {
      FirstSample(k, sample);
      NoFactorial();
    } else if k + t - 1 in sample {
      SmallerSamples(k, t, sample);
      CountWithNewest(k, t, sample, Factorial(t - 1));
      FactorialStep(t);
    } else {
      OldSample(k, t, sample);
      SampleWithoutNewest(k, t, sample);
      EverySampleIsEquallyLikely(k, t - 1, sample);
      FactorialStep(t);
    }
  }

  /** Adding any one of extra to rest gives a sample left by `each` sequences. */
  ghost predicate EachYields(k: nat, t: nat, rest: set<nat>, extra: set<nat>, each: nat) {
    forall y <- extra :: |Yielding(k, t, rest + {y})| == each
  }

  lemma {:induction false} SmallerSamples(k: nat, t: nat, sample: set<nat>)
    requires t > 0 && k + t - 1 in sample && sample <= Below(k + t) && |sample| == k
    ensures var rest := sample - {k + t - 1};
      EachYields(k, t - 1, rest, Below(k + t - 1) - rest, Factorial(t - 1))
    decreases t - 1, 1
  {
    hide Yielding, Below, Factorial, Draws, Slots;
    ExtraSize(k, t, sample);
    var rest := sample - {k + t - 1};
    forall y <- Below(k + t - 1) - rest ensures |Yielding(k, t - 1, rest + {y})| == Factorial(t - 1) {
      EverySampleIsEquallyLikely(k, t - 1, rest + {y});
    }
  }

  lemma CountWithNewest(k: nat, t: nat, sample: set<nat>, each: nat)
    requires t > 0 && k + t - 1 in sample && sample <= Below(k + t) && |sample| == k
    requires EachYields(k, t - 1, sample - {k + t - 1}, Below(k + t - 1) - (sample - {k + t - 1}), each)
    ensures |Yielding(k, t, sample)| == t * each
  {
    hide Draws, Slots, Yielding, YieldingOneOf, Below;
    ExtraSize(k, t, sample);
    SampleWithNewest(k, t, sample);
    OneOfCount(k, t - 1, sample - {k + t - 1}, Below(k + t - 1) - (sample - {k + t - 1}), each);
  }

  lemma NoFactorial()
    ensures Factorial(0) == 1
  {
  }

  lemma OldSample(k: nat, t: nat, sample: set<nat>)
    requires t > 0 && sample <= Below(k + t) && k + t - 1 !in sample
    ensures sample <= Below(k + t - 1)
  {
  }

  lemma ExtraSize(k: nat, t: nat, sample: set<nat>)
    requires t > 0 && k + t - 1 in sample && sample <= Below(k + t) && |sample| == k
    ensures var rest := sample - {k + t - 1};
      && |Below(k + t - 1) - rest| == t
      && forall y <- Below(k + t - 1) - rest :: rest + {y} <= Below(k + t - 1) && |rest + {y}| == k
  {
    var rest, all := sample - {k + t - 1}, Below(k + t - 1);
    assert |rest| == k - 1 && rest <= all;
    assert all == rest + (all - rest);
  }

  lemma FirstSample(k: nat, sample: set<nat>)
    requires sample <= Below(k) && |sample| == k
    ensures |Yielding(k, 0, sample)| == 1
  {
    assert sample == Below(k) by {
      assert Below(k) == sample + (Below(k) - sample);
    }
    var p := Slots(k, []);
    forall i: nat ensures i in SetOf(p) <==> i in Below(k) {
      assert i < k ==> p[i] == i;
    }
    assert SetOf(p) == Below(k);
    assert Yielding(k, 0, sample) == {[]};
  }

  /** There are n! / k! draw sequences in all. */
  lemma {:induction false} AllDraws(k: nat, t: nat)
    ensures |Draws(k, t)| * Factorial(k) == Factorial(k + t)
  {
    hide Draws, Factorial;
    if t == 0 {
      NoDrawsYet(k);
    } else {
      DrawsCount(k, t);
      AllDraws(k, t - 1);
      FactorialStep(k + t);
      Product(|Draws(k, t - 1)|, k + t, Factorial(k), |Draws(k, t)|, Factorial(k + t - 1));
    }
  }

  lemma NoDrawsYet(k: nat)
    ensures |Draws(k, 0)| == 1
  {
  }

  lemma FactorialStep(n: nat)
    requires n > 0
    ensures Factorial(n) == n * Factorial(n - 1)
  {
  }

  lemma Product(d: nat, n: nat, f: nat, all: nat, before: nat)
    requires all == d * n && d * f == before
    ensures all * f == n * before
  {
    assert d * n * f == n * (d * f);
  }
}
