/** Algorithm R as the load tester uses it: k slots, one draw per observation
    once they are full, and the exact count of draw sequences behind "uniform". */
module Reservoir {

  /** Which observation each slot holds after k + |draws| observations. The
      i-th draw is made at observation number k + i + 1. */
  function Slots(k: nat, draws: seq<nat>): (p: seq<nat>)
    ensures |p| == k
  {
    if draws == [] then seq(k, i => i)
    else
      var p, c := Slots(k, draws[..|draws| - 1]), draws[|draws| - 1];
      if c < k then p[c := k + |draws| - 1] else p
  }

  predicate Legal(k: nat, draws: seq<nat>) {
    forall i | 0 <= i < |draws| :: draws[i] < k + i + 1
  }

  ghost predicate NoRepeats(p: seq<nat>) {
    forall i, j | 0 <= i < j < |p| :: p[i] != p[j]
  }

  /** One observation per slot: the slots hold different, already seen observations. */
  lemma {:induction false} SlotsAreDistinct(k: nat, draws: seq<nat>)
    ensures NoRepeats(Slots(k, draws))
    ensures forall i | 0 <= i < k :: Slots(k, draws)[i] < k + |draws|
  {
    if draws != [] {
      SlotsAreDistinct(k, draws[..|draws| - 1]);
    }
  }

  lemma SlotsStep(k: nat, s: seq<nat>, c: nat)
    ensures Slots(k, s + [c]) == if c < k then Slots(k, s)[c := k + |s|] else Slots(k, s)
  {
    assert (s + [c])[..|s|] == s;
  }

  // ------------------------------------------------- all sequences of draws

  function Below(n: nat): (r: set<nat>)
    ensures forall i: nat :: i in r <==> i < n
    ensures |r| == n
  {
    if n == 0 then {} else Below(n - 1) + {n - 1}
  }

  /** Every sequence of t draws, each as likely as any other. */
  function Draws(k: nat, t: nat): set<seq<nat>> {
    if t == 0 then {[]}
    else set s, c | s in Draws(k, t - 1) && c in Below(k + t) :: s + [c]
  }

  lemma {:induction false} DrawsAreTheLegalOnes(k: nat, t: nat, s: seq<nat>)
    ensures s in Draws(k, t) <==> |s| == t && Legal(k, s)
  {
    hide Legal;
    if t == 0 { assert s == [] ==> Legal(k, s) by { NothingIsLegal(k); } }
    if t > 0 && s in Draws(k, t) {
      var p, c :| p in Draws(k, t - 1) && c in Below(k + t) && s == p + [c];
      DrawsAreTheLegalOnes(k, t - 1, p);
      LegalStep(k, p, c);
    }
    if t > 0 && |s| == t && Legal(k, s) {
      var p, c := s[..t - 1], s[t - 1];
      assert s == p + [c];
      LegalStep(k, p, c);
      DrawsAreTheLegalOnes(k, t - 1, p);
      assert c in Below(k + t);
    }
  }

  lemma NothingIsLegal(k: nat)
    ensures Legal(k, [])
  {
  }

  lemma LegalStep(k: nat, p: seq<nat>, c: nat)
    ensures Legal(k, p + [c]) <==> Legal(k, p) && c < k + |p| + 1
  {
    if Legal(k, p + [c]) {
      assert (p + [c])[|p|] == c;
      forall i | 0 <= i < |p| ensures p[i] < k + i + 1 {
        assert (p + [c])[i] == p[i];
      }
    }
  }

  /** s followed by each of the choices. */
  ghost function Tails(s: seq<nat>, cs: set<nat>): set<seq<nat>> {
    set c | c in cs :: s + [c]
  }

  ghost function Extend(a: set<seq<nat>>, choices: seq<nat> -> set<nat>): set<seq<nat>> {
    set s, c | s in a && c in choices(s) :: s + [c]
  }

  lemma {:induction false} TailsCount(s: seq<nat>, cs: set<nat>)
    ensures |Tails(s, cs)| == |cs|
  {
    if c :| c in cs {
      TailsCount(s, cs - {c});
      assert Tails(s, cs) == Tails(s, cs - {c}) + {s + [c]};
      forall d | d in cs - {c} ensures s + [d] != s + [c] {
        assert (s + [d])[|s|] == d && (s + [c])[|s|] == c;
      }
    } else {
      assert Tails(s, cs) == {};
    }
  }

  lemma ExtendOne(a: set<seq<nat>>, choices: seq<nat> -> set<nat>, s: seq<nat>)
    requires s in a
    ensures |Extend(a, choices)| == |Extend(a - {s}, choices)| + |choices(s)|
  {
    var rest, here := Extend(a - {s}, choices), Tails(s, choices(s));
    forall x | x in here ensures x !in rest {
      assert x[..|x| - 1] == s;
      forall r, d | r in a - {s} && d in choices(r) ensures r + [d] != x {
        assert (r + [d])[..|r|] == r;
      }
    }
    assert Extend(a, choices) == rest + here;
    TailsCount(s, choices(s));
  }

  /** Extending every sequence of a set by m choices multiplies its size by m. */
  lemma {:induction false} ExtendCount(a: set<seq<nat>>, choices: seq<nat> -> set<nat>, m: nat)
    requires forall s <- a :: |choices(s)| == m
    ensures |Extend(a, choices)| == |a| * m
  {
    if s :| s in a {
      ExtendOne(a, choices, s);
      ExtendCount(a - {s}, choices, m);
      assert |a| == |a - {s}| + 1;
      assert (|a - {s}| + 1) * m == |a - {s}| * m + m;
    } else {
      assert Extend(a, choices) == {};
    }
  }

  lemma DrawsCount(k: nat, t: nat)
    requires t > 0
    ensures |Draws(k, t)| == |Draws(k, t - 1)| * (k + t)
  {
    var all := (s: seq<nat>) => Below(k + t);
    assert Draws(k, t) == Extend(Draws(k, t - 1), all);
    ExtendCount(Draws(k, t - 1), all, k + t);
  }

  // ------------------------------------------- one observation: k chances in n

  /** The draw sequences after which observation i is still in the reservoir. */
  ghost function Keeping(k: nat, t: nat, i: nat): set<seq<nat>> {
    set s | s in Draws(k, t) && i in Slots(k, s)
  }

  function IndexOf(p: seq<nat>, x: nat): (i: nat)
    requires x in p
    ensures i < |p| && p[i] == x
  {
    if p[0] == x then 0 else 1 + IndexOf(p[1..], x)
  }

  /** The draws that do not evict observation i. */
  ghost function Sparing(k: nat, n: nat, i: nat): seq<nat> -> set<nat> {
    s => if i in Slots(k, s) then Below(n) - {IndexOf(Slots(k, s), i)} else {}
  }

  lemma SparingCount(k: nat, n: nat, i: nat, s: seq<nat>)
    requires i in Slots(k, s) && 0 < k <= n
    ensures |Sparing(k, n, i)(s)| == n - 1
  {
    hide Slots;
    assert IndexOf(Slots(k, s), i) in Below(n);
  }

  lemma KeptOldOnes(k: nat, t: nat, i: nat)
    requires t > 0 && i < k + t - 1
    ensures |Keeping(k, t, i)| == |Keeping(k, t - 1, i)| * (k + t - 1)
  {
    hide Draws, Extend, Sparing, IndexOf, Below, Slots;
    KeepingExtends(k, t, i);
    var sparing := Sparing(k, k + t, i);
    forall s <- Keeping(k, t - 1, i) ensures |sparing(s)| == k + t - 1 {
      assert i in Slots(k, s);
      SparingCount(k, k + t, i, s);
    }
    ExtendCount(Keeping(k, t - 1, i), sparing, k + t - 1);
  }

  lemma KeepingExtends(k: nat, t: nat, i: nat)
    requires t > 0 && i < k + t - 1
    ensures Keeping(k, t, i) == Extend(Keeping(k, t - 1, i), Sparing(k, k + t, i))
  {
    hide Slots, IndexOf;
    var sparing, was := Sparing(k, k + t, i), Keeping(k, t - 1, i);
    forall x <- Keeping(k, t, i) ensures x in Extend(was, sparing) {
      var s, c :| s in Draws(k, t - 1) && c in Below(k + t) && x == s + [c];
      KeptByOneDraw(k, t, i, s, c);
      assert s in was && c in sparing(s);
    }
    forall x <- Extend(was, sparing) ensures x in Keeping(k, t, i) {
      var s, c :| s in was && c in sparing(s) && x == s + [c];
      KeptByOneDraw(k, t, i, s, c);
      assert s in Draws(k, t - 1) && c in Below(k + t);
    }
  }

  lemma KeptByOneDraw(k: nat, t: nat, i: nat, s: seq<nat>, c: nat)
    requires t > 0 && i < k + t - 1 && s in Draws(k, t - 1)
    ensures i in Slots(k, s + [c]) <==> i in Slots(k, s) && c != IndexOf(Slots(k, s), i)
  {
    hide Draws, Slots, Legal, NoRepeats, IndexOf;
    DrawsAreTheLegalOnes(k, t - 1, s);
    SlotsStep(k, s, c);
    SlotsAreDistinct(k, s);
    Survives(Slots(k, s), k + |s|, i, c);
  }

  /** Overwriting slot c evicts what it held and nothing else. */
  lemma Survives(p: seq<nat>, n: nat, i: nat, c: nat)
    requires NoRepeats(p) && i != n
    ensures i in (if c < |p| then p[c := n] else p) <==> i in p && c != IndexOf(p, i)
  {
    var q := if c < |p| then p[c := n] else p;
    if i in p && c != IndexOf(p, i) {
      assert q[IndexOf(p, i)] == i;
    }
    if i in q {
      var j :| 0 <= j < |q| && q[j] == i;
      assert p[j] == i;
    }
  }

  lemma KeptNewOne(k: nat, t: nat)
    requires t > 0
    ensures |Keeping(k, t, k + t - 1)| == |Draws(k, t - 1)| * k
  {
    var entering := (s: seq<nat>) => Below(k);
    NewOneExtends(k, t, entering);
    hide Draws, Extend;
    ExtendCount(Draws(k, t - 1), entering, k);
  }

  lemma NewOneExtends(k: nat, t: nat, entering: seq<nat> -> set<nat>)
    requires t > 0 && forall s :: entering(s) == Below(k)
    ensures Keeping(k, t, k + t - 1) == Extend(Draws(k, t - 1), entering)
  {
    hide Slots;
    var kept, all := Keeping(k, t, k + t - 1), Extend(Draws(k, t - 1), entering);
    forall x <- kept ensures x in all {
      var s, c :| s in Draws(k, t - 1) && c in Below(k + t) && x == s + [c];
      NewOneByOneDraw(k, t, s, c);
      assert c in entering(s);
    }
    forall x <- all ensures x in kept {
      var s, c :| s in Draws(k, t - 1) && c in entering(s) && x == s + [c];
      NewOneByOneDraw(k, t, s, c);
      assert c in Below(k + t);
    }
  }

  lemma NewOneByOneDraw(k: nat, t: nat, s: seq<nat>, c: nat)
    requires t > 0 && s in Draws(k, t - 1)
    ensures k + t - 1 in Slots(k, s + [c]) <==> c < k
  {
    hide Draws, Slots, Legal;
    DrawsAreTheLegalOnes(k, t - 1, s);
    NewOneEnters(k, s, c);
  }

  lemma NewOneEnters(k: nat, s: seq<nat>, c: nat)
    ensures k + |s| in Slots(k, s + [c]) <==> c < k
  {
    hide Slots, NoRepeats;
    SlotsStep(k, s, c);
    SlotsAreDistinct(k, s);
    Entering(Slots(k, s), k + |s|, c);
  }

  lemma Entering(p: seq<nat>, n: nat, c: nat)
    requires forall i | 0 <= i < |p| :: p[i] < n
    ensures n !in p
    ensures c < |p| ==> n in p[c := n]
  {
    if c < |p| { assert p[c := n][c] == n; }
  }

  /** Exact uniformity: after n = k + t observations, the draw sequences that
      keep observation i are k / n of all of them, whichever i it is. */
  lemma {:induction false} EveryObservationIsEquallyLikely(k: nat, t: nat, i: nat)
    requires i < k + t
    ensures |Keeping(k, t, i)| * (k + t) == k * |Draws(k, t)|
  {
    hide Draws, Keeping, Slots;
    if t == 0 {
      FirstOnesAreKept(k, i);
    } else {
      DrawsCount(k, t);
      if i < k + t - 1 {
        KeptOldOnes(k, t, i);
        EveryObservationIsEquallyLikely(k, t - 1, i);
      } else {
        KeptNewOne(k, t);
      }
      Arithmetic(k, |Draws(k, t - 1)|, k + t, |Keeping(k, t - 1, i)|, |Keeping(k, t, i)|, i == k + t - 1);
    }
  }

  lemma FirstOnesAreKept(k: nat, i: nat)
    requires i < k
    ensures |Keeping(k, 0, i)| == |Draws(k, 0)| == 1
  {
    assert Slots(k, [])[i] == i;
    assert Keeping(k, 0, i) == {[]};
  }

  lemma Arithmetic(k: nat, d: nat, n: nat, before: nat, after: nat, entering: bool)
    requires n > 0
    requires if entering then after == d * k else after == before * (n - 1) && before * (n - 1) == k * d
    ensures after * n == k * (d * n)
  {
  }
}
