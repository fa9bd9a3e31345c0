/** The string operations of the language the program is written in, on
    sequences of Unicode scalar values. */
module Text {

  /** White space as `trim` understands it. */
  predicate IsSpace(c: char) {
    || '\U{0009}' <= c <= '\U{000D}' || c == ' ' || c == '\U{00A0}'
    || c == '\U{1680}' || '\U{2000}' <= c <= '\U{200A}'
    || c == '\U{2028}' || c == '\U{2029}' || c == '\U{202F}' || c == '\U{205F}'
    || c == '\U{3000}' || c == '\U{FEFF}'
  }

  function TrimStart(s: string): (t: string)
    ensures t == [] || !IsSpace(t[0])
    ensures |t| <= |s| && t == s[|s| - |t|..]
  {
    if s != [] && IsSpace(s[0]) then TrimStart(s[1..]) else s
  }

  function TrimEnd(s: string): (t: string)
    ensures t == [] || !IsSpace(t[|t| - 1])
    ensures t <= s
  {
    if s != [] && IsSpace(s[|s| - 1]) then TrimEnd(s[..|s| - 1]) else s
  }

  function Trim(s: string): string {
    TrimEnd(TrimStart(s))
  }

  predicate Trimmed(s: string) {
    s == [] || (!IsSpace(s[0]) && !IsSpace(s[|s| - 1]))
  }

  lemma TrimTrims(s: string)
    ensures Trimmed(Trim(s))
    ensures Trimmed(s) ==> Trim(s) == s
  {
  }

  predicate Blank(s: string) {
    forall c <- s :: IsSpace(c)
  }

  lemma {:induction false} TrimStartPadded(a: string, s: string)
    requires Blank(a) && (s == [] || !IsSpace(s[0]))
    ensures TrimStart(a + s) == s
  {
    hide IsSpace;
    if a == [] {
      assert a + s == s;
    } else {
      assert (a + s)[0] == a[0] && a[0] in a && (a + s)[1..] == a[1..] + s;
      forall c <- a[1..] ensures c in a {}
      TrimStartPadded(a[1..], s);
    }
  }

  lemma {:induction false} TrimEndPadded(s: string, b: string)
    requires Blank(b) && (s == [] || !IsSpace(s[|s| - 1]))
    ensures TrimEnd(s + b) == s
  {
    hide IsSpace;
    if b == [] {
      assert s + b == s;
    } else {
      var n, all := |b| - 1, s + b;
      assert all[|all| - 1] == b[n] && b[n] in b && all[..|all| - 1] == s + b[..n];
      forall c <- b[..n] ensures c in b {}
      TrimEndPadded(s, b[..n]);
    }
  }

  /** Trimming takes away exactly the white space around. */
  lemma TrimPadded(a: string, s: string, b: string)
    requires Blank(a) && Blank(b) && Trimmed(s)
    ensures Trim(a + s + b) == s
  {
    hide IsSpace, TrimStart, TrimEnd;
    if s == [] {
      assert a + s + b == (a + b) + s;
      TrimStartPadded(a + b, s);
      TrimEndPadded(s, s);
      assert s + s == s;
    } else {
      assert a + s + b == a + (s + b) && (s + b)[0] == s[0];
      TrimStartPadded(a, s + b);
      TrimEndPadded(s, b);
    }
  }

  lemma {:induction false} TrimStartDropsBlanks(s: string)
    ensures Blank(s[..|s| - |TrimStart(s)|])
  {
    hide IsSpace, TrimStart, Blank;
    TrimStartStep(s);
    BlankGrows([], ' ');
    if s != [] && IsSpace(s[0]) {
      TrimStartDropsBlanks(s[1..]);
      var n := |s| - |TrimStart(s)|;
      BlankGrows(s[1..][..n - 1], s[0]);
      assert s[..n] == [s[0]] + s[1..][..n - 1];
    } else {
      assert s[..0] == [];
    }
  }

  lemma TrimStartStep(s: string)
    ensures TrimStart(s) == if s != [] && IsSpace(s[0]) then TrimStart(s[1..]) else s
  {
    hide IsSpace;
  }

  lemma BlankGrows(a: string, c: char)
    ensures Blank([])
    ensures Blank(a) && IsSpace(c) ==> Blank([c] + a) && Blank(a + [c])
  {
    hide IsSpace;
  }

  lemma TrimEndStep(s: string)
    ensures TrimEnd(s) == if s != [] && IsSpace(s[|s| - 1]) then TrimEnd(s[..|s| - 1]) else s
  {
    hide IsSpace;
  }

  lemma {:induction false} TrimEndDropsBlanks(s: string)
    ensures Blank(s[|TrimEnd(s)|..])
  {
    hide IsSpace, TrimEnd, Blank;
    TrimEndStep(s);
    BlankGrows([], ' ');
    if s != [] && IsSpace(s[|s| - 1]) {
      var init, n := s[..|s| - 1], |TrimEnd(s)|;
      TrimEndDropsBlanks(init);
      BlankGrows(init[n..], s[|s| - 1]);
      assert s[n..] == init[n..] + [s[|s| - 1]];
    } else {
      assert s[|s|..] == [];
    }
  }

  lemma SuffixSplits(s: string, t: string)
    requires |t| <= |s| && t == s[|s| - |t|..]
    ensures s == s[..|s| - |t|] + t
  {
  }

  lemma PrefixSplits(s: string, t: string)
    requires t <= s
    ensures s == t + s[|t|..]
  {
  }

  /** What trimming takes away is white space. */
  lemma TrimSplits(s: string) returns (a: string, b: string)
    ensures Blank(a) && Blank(b) && s == a + (Trim(s) + b)
  {
    hide IsSpace, TrimStart, TrimEnd, Blank;
    var t := TrimStart(s);
    TrimStartDropsBlanks(s);
    TrimEndDropsBlanks(t);
    SuffixSplits(s, t);
    PrefixSplits(t, TrimEnd(t));
    a, b := s[..|s| - |t|], t[|TrimEnd(t)|..];
  }

  /** A character that is not white space is in the trimmed string or nowhere. */
  lemma TrimKeeps(s: string, c: char)
    requires !IsSpace(c)
    ensures c in Trim(s) <==> c in s
  {
    hide IsSpace, Trim;
    var a, b := TrimSplits(s);
  }

  lemma BlankTrims(s: string)
    ensures Trim(s) == [] <==> Blank(s)
  {
    hide IsSpace, Trim;
    var a, b := TrimSplits(s);
    if Blank(s) {
      TrimPadded(s, [], []);
      assert s + [] + [] == s;
    }
  }

  /** Position of the first c, or -1. */
  function IndexOf(s: string, c: char): (i: int)
    ensures -1 <= i < |s|
    ensures i == -1 <==> c !in s
    ensures i >= 0 ==> s[i] == c && c !in s[..i]
  {
    if s == [] then -1
    else if s[0] == c then 0
    else
      var i := IndexOf(s[1..], c);
      assert i >= 0 ==> s[..i + 1] == [s[0]] + s[1..][..i];
      if i == -1 then -1 else i + 1
  }

  lemma FirstOccurrence(a: string, c: char, b: string)
    requires c !in a
    ensures IndexOf(a + [c] + b, c) == |a|
  {
    var s := a + [c] + b;
    var i := IndexOf(s, c);
    assert s[|a|] == c;
    assert forall j | 0 <= j < |a| :: s[j] == a[j];
    assert forall j | |a| < j <= |s| :: s[..j][|a|] == c;
  }

  // ------------------------------------------------------------- split, join

  function Split(s: string, sep: char): (parts: seq<string>)
    ensures parts != []
    decreases |s|
  {
    if s == [] then [[]]
    else Prepend(s[0], sep, Split(s[1..], sep))
  }

  function Join(parts: seq<string>, sep: string): string {
    if parts == [] then [] else if |parts| == 1 then parts[0]
    else parts[0] + sep + Join(parts[1..], sep)
  }

  lemma {:induction false} SplitPartsLackSep(s: string, sep: char)
    ensures forall p <- Split(s, sep) :: sep !in p
  {
    if s != [] {
      SplitPartsLackSep(s[1..], sep);
      var rest := Split(s[1..], sep);
      assert rest[0] in rest;
      forall p <- Split(s, sep) ensures sep !in p {
        assert p == [] || p == [s[0]] + rest[0] || p in rest;
      }
    }
  }

  lemma {:induction false} SplitNothing(s: string, sep: char)
    requires sep !in s
    ensures Split(s, sep) == [s]
  {
    if s != [] {
      SplitNothing(s[1..], sep);
      assert [s[0]] + s[1..] == s;
    }
  }

  /** What a leading character does to a list of parts. */
  function Prepend(c: char, sep: char, parts: seq<string>): seq<string>
    requires parts != []
  {
    if c == sep then [[]] + parts else [[c] + parts[0]] + parts[1..]
  }

  lemma PrependToFirst(c: char, sep: char, left: seq<string>, right: seq<string>)
    requires left != []
    ensures Prepend(c, sep, left + right) == Prepend(c, sep, left) + right
  {
    assert (left + right)[1..] == left[1..] + right;
  }

  /** Splitting at a separator in the middle is splitting both sides. */
  lemma {:induction false} SplitAt(a: string, sep: char, b: string)
    ensures Split(a + [sep] + b, sep) == Split(a, sep) + Split(b, sep)
  {
    var s := a + [sep] + b;
    if a == [] {
      assert s[1..] == b;
    } else {
      SplitAt(a[1..], sep, b);
      assert s[1..] == a[1..] + [sep] + b && s[0] == a[0];
      PrependToFirst(a[0], sep, Split(a[1..], sep), Split(b, sep));
    }
  }

  /** join then split gives the list back when no part holds the separator. */
  lemma {:induction false} SplitJoin(parts: seq<string>, sep: char)
    requires parts != [] && forall p <- parts :: sep !in p
    ensures Split(Join(parts, [sep]), sep) == parts
  {
    assert parts[0] in parts;
    SplitNothing(parts[0], sep);
    if |parts| > 1 {
      forall p <- parts[1..] ensures p in parts {}
      SplitJoin(parts[1..], sep);
      SplitAt(parts[0], sep, Join(parts[1..], [sep]));
      assert parts == [parts[0]] + parts[1..];
    } else {
      assert parts == [parts[0]];
    }
  }

  // ---------------------------------------------------------------- decimal

  predicate IsDigit(c: char) {
    '0' <= c <= '9'
  }

  predicate IsNumeral(s: string) {
    s != [] && forall c <- s :: IsDigit(c)
  }

  function DigitChar(d: nat): (c: char)
    requires d < 10
    ensures IsDigit(c) && DigitValue(c) == d
  {
    ['0', '1', '2', '3', '4', '5', '6', '7', '8', '9'][d]
  }

  function DigitValue(c: char): (d: nat)
    requires IsDigit(c)
    ensures d < 10
  {
    c as int - '0' as int
  }

  function PrintNat(n: nat): (s: string)
    ensures IsNumeral(s)
  {
    if n < 10 then [DigitChar(n)] else PrintNat(n / 10) + [DigitChar(n % 10)]
  }

  function ReadNat(s: string): nat
    requires IsNumeral(s)
  {
    var last := DigitValue(s[|s| - 1]);
    if |s| == 1 then last else 10 * ReadNat(s[..|s| - 1]) + last
  }

  lemma {:induction false} ReadPrint(n: nat)
    ensures ReadNat(PrintNat(n)) == n
    ensures Trimmed(PrintNat(n))
  {
    if n >= 10 {
      ReadPrint(n / 10);
      assert PrintNat(n)[..|PrintNat(n)| - 1] == PrintNat(n / 10);
    }
  }

  /** No leading zeros. */
  lemma {:induction false} PrintIsCanonical(n: nat)
    ensures PrintNat(n)[0] == '0' <==> n == 0
    ensures n < 10 <==> |PrintNat(n)| == 1
  {
    if n >= 10 {
      PrintIsCanonical(n / 10);
    } else {
      assert DigitValue('0') == 0;
    }
  }
}
