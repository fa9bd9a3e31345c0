/** Reading the refresh cookie back out of a Cookie header, against the header a
    client sends for the cookies it was given: `name=value` pairs joined by "; ",
    as in section 4.2.1 of RFC 6265. */
module AuthRefreshCookie {
  import opened Options
  import opened Text
  import opened Percent

  datatype Cookie = Cookie(name: string, value: string)

  // ------------------------------------------------------------------ reading

  predicate Names(part: string, name: string) {
    var i := IndexOf(part, '=');
    i >= 0 && Trim(part[..i]) == name
  }

  function ValueOf(part: string): Option<string>
    requires '=' in part
  {
    Decode(Trim(part[IndexOf(part, '=') + 1..]))
  }

  /** The first part with the name decides, even when its value is malformed. */
  function FirstNamed(parts: seq<string>, name: string): Option<string> {
    if parts == [] then None
    else if Names(parts[0], name) then ValueOf(parts[0])
    else FirstNamed(parts[1..], name)
  }

  function Lookup(header: Option<string>, name: string): Option<string> {
    if header.None? then None else FirstNamed(Split(header.value, ';'), name)
  }

  /** None stands for null. */
  method ReadCookie(header: Option<string>, name: string) returns (value: Option<string>)
    ensures value == Lookup(header, name)
  {
    if header.None? { return None; }
    var parts := Split(header.value, ';');
    assert parts[0..] == parts;
    var i := 0;
    hide Split, IndexOf, Trim, Decode, FirstNamed;
    while i < |parts|
      invariant 0 <= i <= |parts|
      invariant Lookup(header, name) == FirstNamed(parts[i..], name)
    {
      NextPart(parts, i, name);
      var part := parts[i];
      var separator := IndexOf(part, '=');
      if separator < 0 || Trim(part[..separator]) != name {
        i := i + 1;
        continue;
      }
      var encodedValue := Trim(part[separator + 1..]);
      return Decode(encodedValue);
    }
    NoPart(parts, name);
    value := None;
  }

  lemma NextPart(parts: seq<string>, i: nat, name: string)
    requires i < |parts|
    ensures FirstNamed(parts[i..], name)
         == if Names(parts[i], name) then ValueOf(parts[i]) else FirstNamed(parts[i + 1..], name)
  {
    assert parts[i..][1..] == parts[i + 1..];
  }

  lemma NoPart(parts: seq<string>, name: string)
    ensures FirstNamed(parts[|parts|..], name) == None
  {
  }

  /** On any header: null when no part has the name, and otherwise what the
      first such part decodes to. */
  lemma {:induction false} FirstPartDecides(parts: seq<string>, name: string)
    ensures (forall p <- parts :: !Names(p, name)) ==> FirstNamed(parts, name) == None
    ensures forall i | 0 <= i < |parts| && Names(parts[i], name) && (forall j | 0 <= j < i :: !Names(parts[j], name)) ::
              FirstNamed(parts, name) == ValueOf(parts[i])
  {
    if parts != [] {
      FirstPartDecides(parts[1..], name);
      forall i | 0 <= i < |parts| && Names(parts[i], name) && (forall j | 0 <= j < i :: !Names(parts[j], name))
        ensures FirstNamed(parts, name) == ValueOf(parts[i])
      {
        if i > 0 {
          assert !Names(parts[0], name);
          assert parts[1..][i - 1] == parts[i];
          forall j | 0 <= j < i - 1 ensures !Names(parts[1..][j], name) {
            assert parts[1..][j] == parts[j + 1];
          }
        }
      }
    }
  }

  /** A part has the name: up to its first equals sign, trimmed. */
  ghost predicate IsNamed(part: string, name: string) {
    exists left, right :: part == left + ['='] + right && '=' !in left && Trim(left) == name
  }

  lemma NamedMeans(part: string, name: string)
    ensures IsNamed(part, name) <==> Names(part, name)
  {
    hide Trim;
    var i := IndexOf(part, '=');
    if i >= 0 {
      var left, right := part[..i], part[i + 1..];
      assert part == left + ['='] + right;
      assert Names(part, name) ==> IsNamed(part, name);
    }
    forall left, right | part == left + ['='] + right && '=' !in left && Trim(left) == name ensures Names(part, name) {
      FirstOccurrence(left, '=', right);
      assert part[..|left|] == left;
    }
  }

  /** On any header, split at semicolons: null when no part has the name; otherwise
      the value is what follows the first equals sign of the first such part,
      trimmed and decoded, and null when that does not decode. */
  lemma HeaderDecides(parts: seq<string>, name: string, i: nat, left: string, right: string)
    requires parts != [] && forall p <- parts :: ';' !in p
    requires i < |parts| && forall j | 0 <= j < i :: !IsNamed(parts[j], name)
    ensures (forall p <- parts :: !IsNamed(p, name)) ==> Lookup(Some(Join(parts, ";")), name) == None
    ensures parts[i] == left + ['='] + right && '=' !in left && Trim(left) == name ==>
      Lookup(Some(Join(parts, ";")), name) == Decode(Trim(right))
  {
    hide Trim, Decode, IsNamed, FirstNamed, Split, Names, ValueOf, Join;
    SplitJoin(parts, ';');
    FirstPartDecides(parts, name);
    forall p <- parts ensures IsNamed(p, name) <==> Names(p, name) { NamedMeans(p, name); }
    forall j | 0 <= j < i ensures !Names(parts[j], name) { assert parts[j] in parts; }
    if parts[i] == left + ['='] + right && '=' !in left && Trim(left) == name {
      ValueAfter(left, right, name);
    }
  }

  lemma ValueAfter(left: string, right: string, name: string)
    requires '=' !in left && Trim(left) == name
    ensures var part := left + ['='] + right;
      Names(part, name) && '=' in part && ValueOf(part) == Decode(Trim(right))
  {
    hide Trim, Decode;
    var part := left + ['='] + right;
    FirstOccurrence(left, '=', right);
    assert part[..|left|] == left && part[|left| + 1..] == right && part[|left|] == '=';
  }

  // ------------------------------------------------------------------ writing

  /** A name the configuration accepts has none of the characters that matter. */
  predicate WellFormed(name: string) {
    Trimmed(name) && '=' !in name && ';' !in name
  }

  function Pair(c: Cookie): string {
    c.name + "=" + Encode(c.value)
  }

  /** The header a client sends for its cookies. */
  function Header(cookies: seq<Cookie>): string {
    if cookies == [] then []
    else if |cookies| == 1 then Pair(cookies[0])
    else Pair(cookies[0]) + "; " + Header(cookies[1..])
  }

  ghost predicate DistinctNames(cookies: seq<Cookie>) {
    forall i, j | 0 <= i < j < |cookies| :: cookies[i].name != cookies[j].name
  }

  lemma EncodedIsPlain(v: string)
    ensures ';' !in Encode(v) && Trimmed(Encode(v))
  {
    EncodedAlphabet(v);
    hide Encode;
    var e := Encode(v);
    forall c <- e ensures c != ';' && !IsSpace(c) {}
    hide IsSpace, Unreserved;
    if e != [] { assert e[0] in e && e[|e| - 1] in e; }
  }

  /** A part as it comes out of the header, after the optional space. */
  lemma PartOfCookie(c: Cookie, name: string, space: string)
    requires WellFormed(c.name) && (space == "" || space == " ")
    ensures var part := space + Pair(c);
      && ';' !in part
      && (Names(part, name) <==> name == c.name)
      && '=' in part && ValueOf(part) == Some(c.value)
  {
    hide Encode, Decode, Trim, Trimmed, Pair, Names, ValueOf;
    var e, left := Encode(c.value), space + c.name;
    EncodedIsPlain(c.value);
    DecodeEncode(c.value);
    TrimSpace(c.name, space);
    TrimTrims(e);
    PairSplits(c, space);
    NameAndValue(left, e, name);
    NoSemicolon(left, e);
  }

  lemma NameAndValue(left: string, e: string, name: string)
    requires '=' !in left
    ensures var part := left + ['='] + e;
      && (Names(part, name) <==> name == Trim(left))
      && '=' in part && ValueOf(part) == Decode(Trim(e))
  {
    hide Trim, Decode;
    var part := left + ['='] + e;
    FirstOccurrence(left, '=', e);
    assert part[..|left|] == left && part[|left| + 1..] == e && part[|left|] == '=';
  }

  lemma PairSplits(c: Cookie, space: string)
    ensures var part, e, left := space + Pair(c), Encode(c.value), space + c.name;
      part == left + ['='] + e && part[..|left|] == left && part[|left| + 1..] == e && '=' in part
  {
    hide Encode;
    var part, e, left := space + Pair(c), Encode(c.value), space + c.name;
    assert part == left + ['='] + e;
    assert part[|left|] == '=';
  }

  lemma NoSemicolon(a: string, b: string)
    requires ';' !in a && ';' !in b
    ensures ';' !in a + ['='] + b
  {
  }

  lemma TrimSpace(s: string, space: string)
    requires Trimmed(s) && (space == "" || space == " ")
    ensures Trim(space + s) == s
  {
    hide TrimStart, TrimEnd, IsSpace, Trimmed;
    TrimTrims(s);
    if space == " " {
      TrimStartSpace(s);
    } else {
      assert space + s == s;
    }
  }

  lemma TrimStartSpace(s: string)
    ensures TrimStart(" " + s) == TrimStart(s)
  {
    assert IsSpace(' ') && (" " + s)[0] == ' ' && (" " + s)[1..] == s;
  }

  /** Looking a name up among cookies, as values. */
  function Stored(cookies: seq<Cookie>, name: string): Option<string> {
    if cookies == [] then None
    else if cookies[0].name == name then Some(cookies[0].value)
    else Stored(cookies[1..], name)
  }

  lemma {:induction false} HeaderParts(cookies: seq<Cookie>, name: string, space: string)
    requires cookies != [] && (forall c <- cookies :: WellFormed(c.name))
    requires space == "" || space == " "
    ensures FirstNamed(Split(space + Header(cookies), ';'), name) == Stored(cookies, name)
  {
    hide Split, Names, ValueOf, Pair, WellFormed;
    var part := space + Pair(cookies[0]);
    assert cookies[0] in cookies;
    PartOfCookie(cookies[0], name, space);
    SplitNothing(part, ';');
    if |cookies| == 1 {
      assert Stored(cookies[1..], name) == None;
      assert FirstNamed([part][1..], name) == None;
    } else {
      var rest := " " + Header(cookies[1..]);
      assert space + Header(cookies) == part + [';'] + rest;
      SplitAt(part, ';', rest);
      HeaderParts(cookies[1..], name, " ");
      assert ([part] + Split(rest, ';'))[1..] == Split(rest, ';');
    }
  }

  /** Reading undoes writing: every stored cookie comes back with its value, and
      every other name reads as null. */
  lemma ReadUndoesWrite(cookies: seq<Cookie>, name: string)
    requires DistinctNames(cookies) && forall c <- cookies :: WellFormed(c.name)
    ensures forall c <- cookies | c.name == name :: Lookup(Some(Header(cookies)), name) == Some(c.value)
    ensures (forall c <- cookies :: c.name != name) ==> Lookup(Some(Header(cookies)), name) == None
  {
    if cookies == [] {
      assert !Names([], name);
      assert FirstNamed([[]][1..], name) == None;
    } else {
      HeaderParts(cookies, name, "");
      assert "" + Header(cookies) == Header(cookies);
    }
    StoredFinds(cookies, name);
  }

  lemma {:induction false} StoredFinds(cookies: seq<Cookie>, name: string)
    requires DistinctNames(cookies)
    ensures forall c <- cookies | c.name == name :: Stored(cookies, name) == Some(c.value)
    ensures (forall c <- cookies :: c.name != name) ==> Stored(cookies, name) == None
  {
    if cookies != [] {
      StoredFinds(cookies[1..], name);
      forall c <- cookies ensures c == cookies[0] || (c in cookies[1..] && c.name != cookies[0].name) {}
    }
  }
}
