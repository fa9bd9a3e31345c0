/** encodeURIComponent and decodeURIComponent: UTF-8, then percent-encoding as
    in section 2.1 of RFC 3986. */
module Percent {
  import opened Options

  // ------------------------------------------------------------------- UTF-8

  predicate IsScalar(n: int) {
    0 <= n < 0xD800 || 0xE000 <= n < 0x11_0000
  }

  type Byte = b: nat | b < 0x100

  function Utf8(n: nat): (bs: seq<Byte>)
    requires IsScalar(n)
    ensures 1 <= |bs| <= 4
  {
    if n < 0x80 then [n]
    else if n < 0x800 then [0xC0 + n / 0x40, 0x80 + n % 0x40]
    else if n < 0x1_0000 then [0xE0 + n / 0x1000, 0x80 + n / 0x40 % 0x40, 0x80 + n % 0x40]
    else [0xF0 + n / 0x4_0000, 0x80 + n / 0x1000 % 0x40, 0x80 + n / 0x40 % 0x40, 0x80 + n % 0x40]
  }

  /** How many bytes a first byte announces; 0 when it can start nothing. */
  function Announced(b: Byte): nat {
    if b < 0x80 then 1 else if b < 0xC0 then 0 else if b < 0xE0 then 2
    else if b < 0xF0 then 3 else if b < 0xF8 then 4 else 0
  }

  predicate Continues(b: Byte) {
    0x80 <= b < 0xC0
  }

  /** The bits a group of 1 to 4 bytes carries. */
  function Payload(bs: seq<Byte>): int
    requires 1 <= |bs| <= 4
  {
    var b0: int := bs[0];
    if |bs| == 1 then b0
    else
      var b1 := bs[1] as int - 0x80;
      if |bs| == 2 then (b0 - 0xC0) * 0x40 + b1
      else
        var b2 := bs[2] as int - 0x80;
        if |bs| == 3 then ((b0 - 0xE0) * 0x40 + b1) * 0x40 + b2
        else
          var b3 := bs[3] as int - 0x80;
          (((b0 - 0xF0) * 0x40 + b1) * 0x40 + b2) * 0x40 + b3
  }

  /** The scalar value of one complete group; None for an overlong form, a
      surrogate, a value out of range or a bad continuation byte. */
  function FromUtf8(bs: seq<Byte>): (r: Option<nat>)
    ensures r.Some? ==> IsScalar(r.value)
  {
    if bs == [] || |bs| != Announced(bs[0]) || (exists i | 1 <= i < |bs| :: !Continues(bs[i])) then None
    else
      var n := Payload(bs);
      var least := if |bs| == 1 then 0 else if |bs| == 2 then 0x80 else if |bs| == 3 then 0x800 else 0x1_0000;
      if n >= least && IsScalar(n) then Some(n) else None
  }

  /** Dividing by 64 twice and three times, which is all UTF-8 does. */
  lemma Sixty4(n: nat)
    ensures n == n / 0x40 * 0x40 + n % 0x40
    ensures n / 0x1000 == n / 0x40 / 0x40
    ensures n / 0x4_0000 == n / 0x40 / 0x40 / 0x40
  {
  }

  /** A group announces its length, continues properly and carries its number. */
  predicate Carries(bs: seq<Byte>, n: nat) {
    && 1 <= |bs| <= 4 && Announced(bs[0]) == |bs|
    && (forall i | 1 <= i < |bs| :: Continues(bs[i]))
    && Payload(bs) == n
  }

  lemma Two(n: nat)
    requires 0x80 <= n < 0x800
    ensures Carries(Utf8(n), n)
  {
    Sixty4(n);
  }

  lemma Three(n: nat)
    requires 0x800 <= n < 0x1_0000 && IsScalar(n)
    ensures Carries(Utf8(n), n)
  {
    Sixty4(n);
    Sixty4(n / 0x40);
  }

  lemma Four(n: nat)
    requires 0x1_0000 <= n < 0x11_0000
    ensures Carries(Utf8(n), n)
  {
    Sixty4(n);
    Sixty4(n / 0x40);
    Sixty4(n / 0x40 / 0x40);
  }

  lemma Utf8RoundTrip(n: nat)
    requires IsScalar(n)
    ensures FromUtf8(Utf8(n)) == Some(n)
  {
    if n < 0x80 {
      assert Carries(Utf8(n), n);
    } else if n < 0x800 {
      Two(n);
    } else if n < 0x1_0000 {
      Three(n);
    } else {
      Four(n);
    }
    Length(n);
    hide Utf8, Payload, Announced, Continues;
  }

  lemma Length(n: nat)
    requires IsScalar(n)
    ensures |Utf8(n)| == if n < 0x80 then 1 else if n < 0x800 then 2 else if n < 0x1_0000 then 3 else 4
  {
  }

  lemma DivMod64(a: nat, b: nat)
    requires b < 0x40
    ensures (a * 0x40 + b) / 0x40 == a && (a * 0x40 + b) % 0x40 == b
  {
  }

  lemma UniqueTwo(bs: seq<Byte>)
    requires |bs| == 2 && FromUtf8(bs).Some?
    ensures Utf8(FromUtf8(bs).value) == bs
  {
    assert Continues(bs[1]);
    DivMod64(bs[0] - 0xC0, bs[1] - 0x80);
  }

  lemma UniqueThree(bs: seq<Byte>)
    requires |bs| == 3 && FromUtf8(bs).Some?
    ensures Utf8(FromUtf8(bs).value) == bs
  {
    assert Continues(bs[1]) && Continues(bs[2]);
    var x: nat, y: nat := bs[0] - 0xE0, bs[1] - 0x80;
    var a: nat := x * 0x40 + y;
    DivMod64(bs[0] - 0xE0, bs[1] - 0x80);
    DivMod64(a, bs[2] - 0x80);
    Sixty4(FromUtf8(bs).value);
  }

  lemma UniqueFour(bs: seq<Byte>)
    requires |bs| == 4 && FromUtf8(bs).Some?
    ensures Utf8(FromUtf8(bs).value) == bs
  {
    assert Continues(bs[1]) && Continues(bs[2]) && Continues(bs[3]);
    var x: nat, y: nat := bs[0] - 0xF0, bs[1] - 0x80;
    var a: nat := x * 0x40 + y;
    var b: nat := a * 0x40 + (bs[2] - 0x80);
    DivMod64(bs[0] - 0xF0, bs[1] - 0x80);
    DivMod64(a, bs[2] - 0x80);
    DivMod64(b, bs[3] - 0x80);
    Sixty4(FromUtf8(bs).value);
  }

  /** Only one group of bytes is read as a number, the one it is written as. */
  lemma Utf8IsUnique(bs: seq<Byte>, n: nat)
    requires IsScalar(n)
    ensures FromUtf8(bs) == Some(n) <==> bs == Utf8(n)
  {
    Utf8RoundTrip(n);
    if FromUtf8(bs) == Some(n) {
      if |bs| == 2 { UniqueTwo(bs); }
      if |bs| == 3 { UniqueThree(bs); }
      if |bs| == 4 { UniqueFour(bs); }
    }
  }

  // ------------------------------------------------------------ percent signs

  function HexChar(d: nat): char
    requires d < 16
  {
    "0123456789ABCDEF"[d]
  }

  function HexValue(c: char): (r: Option<nat>)
    ensures r.Some? ==> r.value < 16
  {
    if '0' <= c <= '9' then Some(c as nat - '0' as nat)
    else if 'A' <= c <= 'F' then Some(c as nat - 'A' as nat + 10)
    else if 'a' <= c <= 'f' then Some(c as nat - 'a' as nat + 10)
    else None
  }

  function EscapeByte(b: Byte): string {
    ['%', HexChar(b / 16), HexChar(b % 16)]
  }

  function EscapeBytes(bs: seq<Byte>): string {
    if bs == [] then [] else EscapeByte(bs[0]) + EscapeBytes(bs[1..])
  }

  /** The byte spelled by a %XX at the front. */
  function ReadByte(s: string): (r: Option<Byte>)
    ensures r.Some? ==> |s| >= 3
  {
    if |s| < 3 || s[0] != '%' || HexValue(s[1]).None? || HexValue(s[2]).None? then None
    else Some(16 * HexValue(s[1]).value + HexValue(s[2]).value)
  }

  /** k escaped bytes in a row. */
  function ReadBytes(s: string, k: nat): (r: Option<seq<Byte>>)
    ensures r.Some? ==> |s| >= 3 * k && |r.value| == k
  {
    if k == 0 then Some([])
    else
      var b := ReadByte(s);
      if b.None? then None
      else
        var rest := ReadBytes(s[3..], k - 1);
        if rest.None? then None else Some([b.value] + rest.value)
  }

  lemma HexRoundTrip(d: nat)
    requires d < 16
    ensures HexValue(HexChar(d)) == Some(d)
  {
  }

  lemma ByteRoundTrip(b: Byte, tail: string)
    ensures ReadByte(EscapeByte(b) + tail) == Some(b)
  {
    HexRoundTrip(b / 16);
    HexRoundTrip(b % 16);
  }

  lemma {:induction false} BytesRoundTrip(bs: seq<Byte>, tail: string)
    ensures |EscapeBytes(bs)| == 3 * |bs|
    ensures ReadBytes(EscapeBytes(bs) + tail, |bs|) == Some(bs)
  {
    if bs != [] {
      var s := EscapeBytes(bs) + tail;
      var rest := EscapeBytes(bs[1..]) + tail;
      assert s == EscapeByte(bs[0]) + rest;
      ByteRoundTrip(bs[0], rest);
      assert s[3..] == rest;
      BytesRoundTrip(bs[1..], tail);
      assert bs == [bs[0]] + bs[1..];
    }
  }

  // ------------------------------------------------------------------- codec

  /** Characters encodeURIComponent leaves alone. */
  predicate Unreserved(c: char) {
    || 'A' <= c <= 'Z' || 'a' <= c <= 'z' || '0' <= c <= '9'
    || c == '-' || c == '_' || c == '.' || c == '!' || c == '~'
    || c == '*' || c == '\'' || c == '(' || c == ')'
  }

  function EncodeChar(c: char): string {
    if Unreserved(c) then [c] else EscapeBytes(Utf8(c as nat))
  }

  function Encode(s: string): string {
    if s == [] then [] else EncodeChar(s[0]) + Encode(s[1..])
  }

  /** None stands for URIError. */
  function Decode(s: string): Option<string>
    decreases |s|
  {
    if s == [] then Some([])
    else if s[0] != '%' then
      var rest := Decode(s[1..]);
      if rest.None? then None else Some([s[0]] + rest.value)
    else
      var first := ReadByte(s);
      if first.None? || Announced(first.value) == 0 then None
      else
        var k := Announced(first.value);
        var bs := ReadBytes(s, k);
        if bs.None? then None
        else
          var n := FromUtf8(bs.value);
          if n.None? then None
          else
            var rest := Decode(s[3 * k..]);
            if rest.None? then None else Some([n.value as char] + rest.value)
  }

  lemma EscapedCharRoundTrip(c: char, tail: string)
    ensures Decode(EscapeBytes(Utf8(c as nat)) + tail)
         == if Decode(tail).None? then None else Some([c] + Decode(tail).value)
  {
    var bs := Utf8(c as nat);
    var s := EscapeBytes(bs) + tail;
    Utf8RoundTrip(c as nat);
    BytesRoundTrip(bs, tail);
    assert |bs| == Announced(bs[0]);
    FirstByteOf(bs, tail);
    hide ReadBytes, ReadByte, EscapeBytes, FromUtf8, Utf8;
    assert s[3 * |bs|..] == tail;
  }

  lemma FirstByteOf(bs: seq<Byte>, tail: string)
    requires bs != []
    ensures ReadByte(EscapeBytes(bs) + tail) == Some(bs[0])
    ensures EscapeBytes(bs) != [] && EscapeBytes(bs)[0] == '%'
  {
    hide ReadByte;
    var head, rest := EscapeByte(bs[0]), EscapeBytes(bs[1..]);
    ByteRoundTrip(bs[0], rest + tail);
    assert EscapeBytes(bs) == head + rest;
    assert head + rest + tail == head + (rest + tail);
  }

  /** Decoding undoes encoding, for every string. */
  lemma {:induction false} DecodeEncode(s: string)
    ensures Decode(Encode(s)) == Some(s)
  {
    if s != [] {
      var tail := Encode(s[1..]);
      DecodeEncode(s[1..]);
      assert s == [s[0]] + s[1..];
      if Unreserved(s[0]) {
        assert ([s[0]] + tail)[1..] == tail;
      } else {
        EscapedCharRoundTrip(s[0], tail);
      }
    }
  }

  /** The encoded form is made of unreserved characters and percent signs. */
  lemma {:induction false} EncodedAlphabet(s: string)
    ensures forall c <- Encode(s) :: Unreserved(c) || c == '%'
  {
    if s != [] {
      EncodedAlphabet(s[1..]);
      if !Unreserved(s[0]) {
        EscapedAlphabet(Utf8(s[0] as nat));
      }
    }
  }

  lemma {:induction false} EscapedAlphabet(bs: seq<Byte>)
    ensures forall c <- EscapeBytes(bs) :: Unreserved(c) || c == '%'
  {
    if bs != [] {
      EscapedAlphabet(bs[1..]);
    }
  }

  /** s spells v: character by character, each as itself or as the percent-encoded
      bytes of its UTF-8 form, in either case of the hexadecimal digits. */
  ghost predicate Spells(s: string, v: string)
    decreases |v|
  {
    if v == [] then s == []
    else
      || (s != [] && s[0] == v[0] && v[0] != '%' && Spells(s[1..], v[1..]))
      || (ReadBytes(s, |Utf8(v[0] as nat)|) == Some(Utf8(v[0] as nat))
          && Spells(s[3 * |Utf8(v[0] as nat)|..], v[1..]))
  }

  lemma DecodeStep(s: string, c: char)
    requires s != [] && s[0] == '%'
    ensures ReadBytes(s, |Utf8(c as nat)|) == Some(Utf8(c as nat)) ==>
      Decode(s) == var rest := Decode(s[3 * |Utf8(c as nat)|..]);
                   if rest.None? then None else Some([c] + rest.value)
    ensures Decode(s).Some? && Decode(s).value != [] && Decode(s).value[0] == c ==>
      ReadBytes(s, |Utf8(c as nat)|) == Some(Utf8(c as nat))
  {
    var bs := Utf8(c as nat);
    Utf8RoundTrip(c as nat);
    var first := ReadByte(s);
    if ReadBytes(s, |bs|) == Some(bs) {
      assert first == Some(bs[0]);
    }
    if first.Some? && Announced(first.value) > 0 && ReadBytes(s, Announced(first.value)).Some? {
      Utf8IsUnique(ReadBytes(s, Announced(first.value)).value, c as nat);
    }
    hide FromUtf8, Utf8, ReadByte;
  }

  /** decodeURIComponent answers v exactly when its input spells v, and throws
      exactly when it spells nothing. */
  lemma {:induction false} DecodesExactlyWhen(s: string, v: string)
    ensures Decode(s) == Some(v) <==> Spells(s, v)
    decreases |v|
  {
    hide Utf8, ReadBytes, FromUtf8, Announced;
    if v != [] && s != [] {
      var k := |Utf8(v[0] as nat)|;
      assert v == [v[0]] + v[1..];
      if s[0] != '%' {
        NoEscape(s, k);
        DecodesExactlyWhen(s[1..], v[1..]);
      } else {
        DecodeStep(s, v[0]);
        hide Decode;
        if ReadBytes(s, k) == Some(Utf8(v[0] as nat)) {
          DecodesExactlyWhen(s[3 * k..], v[1..]);
        }
      }
    }
  }

  lemma NoEscape(s: string, k: nat)
    requires s != [] && s[0] != '%' && k > 0
    ensures ReadBytes(s, k) == None
  {
  }
}
