/** The UTF-8 codec that turns text into bytes and back, with the strict decoder
    of section 3 of RFC 3629: no over-long forms, no surrogates, nothing above 0x10FFFF. */
module Utf8 {
  import opened Orders
  import opened Wrappers

  type Byte = n: int | 0 <= n < 256

  function EncodeChar(c: char): (r: seq<Byte>)
    ensures 1 <= |r| <= 4
  {
    var n := c as int;
    if n < 0x80 then [n]
    else if n < 0x800 then [0xC0 + n / 64, 0x80 + n % 64]
    else if n < 0x1_0000 then [0xE0 + n / 64 / 64, 0x80 + n / 64 % 64, 0x80 + n % 64]
    else [0xF0 + n / 64 / 64 / 64, 0x80 + n / 64 / 64 % 64, 0x80 + n / 64 % 64, 0x80 + n % 64]
  }

  function Encode(s: string): (r: seq<Byte>)
    ensures |s| <= |r|
  {
    if s == [] then [] else EncodeChar(s[0]) + Encode(s[1..])
  }

  predicate Continuation(b: Byte) {
    0x80 <= b < 0xC0
  }

  /** The number whose low six bits are the continuation byte `b`. */
  function Extend(high: int, b: Byte): int {
    64 * high + (b - 0x80)
  }

  predicate IsScalar(n: int) {
    0 <= n < 0xD800 || 0xE000 <= n < 0x11_0000
  }

  /** The first character of `b` and the number of bytes it takes. */
  function DecodeChar(b: seq<Byte>): (r: Option<(char, nat)>)
    ensures r.Some? ==> 1 <= r.value.1 <= |b|
  {
    if |b| >= 1 && b[0] < 0x80 then Some((b[0] as char, 1))
    else if |b| >= 2 && 0xC2 <= b[0] < 0xE0 && Continuation(b[1]) then
      Some((Extend(b[0] - 0xC0, b[1]) as char, 2))
    else if |b| >= 3 && 0xE0 <= b[0] < 0xF0 && Continuation(b[1]) && Continuation(b[2]) then
      var n := Extend(Extend(b[0] - 0xE0, b[1]), b[2]);
      if n < 0x800 || !IsScalar(n) then None else Some((n as char, 3))
    else if |b| >= 4 && 0xF0 <= b[0] < 0xF5 && Continuation(b[1]) && Continuation(b[2]) && Continuation(b[3]) then
      var n := Extend(Extend(Extend(b[0] - 0xF0, b[1]), b[2]), b[3]);
      if n < 0x1_0000 || !IsScalar(n) then None else Some((n as char, 4))
    else None
  }

  function Decode(b: seq<Byte>): (r: Option<string>)
    decreases |b|
  {
    if b == [] then Some("")
    else match DecodeChar(b)
      case None => None
      case Some((c, k)) =>
        match Decode(b[k..])
        case None => None
        case Some(rest) => Some([c] + rest)
  }

  lemma CharRoundTrip(c: char, rest: seq<Byte>)
    ensures DecodeChar(EncodeChar(c) + rest) == Some((c, |EncodeChar(c)|))
  {
    var e := EncodeChar(c);
    var b := e + rest;
    assert forall i :: 0 <= i < |e| ==> b[i] == e[i];
  }

  /** The table of section 3 of RFC 3629: lead byte, continuation bytes, and the bits in them. */
  lemma CharBytes(c: char)
    ensures var b, n := EncodeChar(c), c as int;
      if n < 0x80 then |b| == 1 && n == b[0]
      else if n < 0x800 then
        |b| == 2 && 0xC0 <= b[0] < 0xE0 && 0x80 <= b[1] < 0xC0
        && n == (b[0] as int - 0xC0) * 64 + (b[1] as int - 0x80)
      else if n < 0x1_0000 then
        |b| == 3 && 0xE0 <= b[0] < 0xF0 && 0x80 <= b[1] < 0xC0 && 0x80 <= b[2] < 0xC0
        && n == (b[0] as int - 0xE0) * 4096 + (b[1] as int - 0x80) * 64 + (b[2] as int - 0x80)
      else
        |b| == 4 && 0xF0 <= b[0] < 0xF8 && 0x80 <= b[1] < 0xC0 && 0x80 <= b[2] < 0xC0 && 0x80 <= b[3] < 0xC0
        && n == (b[0] as int - 0xF0) * 262144 + (b[1] as int - 0x80) * 4096 + (b[2] as int - 0x80) * 64
                + (b[3] as int - 0x80)
  {
  }

  lemma ExtendInverse(high: int, b: Byte)
    requires Continuation(b)
    ensures Extend(high, b) / 64 == high && Extend(high, b) % 64 == b - 0x80
  {
  }

  lemma CharUnique(b: seq<Byte>)
    requires DecodeChar(b).Some?
    ensures b[..DecodeChar(b).value.1] == EncodeChar(DecodeChar(b).value.0)
  {
    var (c, k) := DecodeChar(b).value;
    if k == 2 {
      ExtendInverse(b[0] - 0xC0, b[1]);
    } else if k == 3 {
      ExtendInverse(b[0] - 0xE0, b[1]);
      ExtendInverse(Extend(b[0] - 0xE0, b[1]), b[2]);
    } else if k == 4 {
      ExtendInverse(b[0] - 0xF0, b[1]);
      ExtendInverse(Extend(b[0] - 0xF0, b[1]), b[2]);
      ExtendInverse(Extend(Extend(b[0] - 0xF0, b[1]), b[2]), b[3]);
    }
  }

  /** Decoding undoes encoding for every text. */
  lemma {:induction false} RoundTrip(s: string)
    ensures Decode(Encode(s)) == Some(s)
  {
    if s == [] {
    } else {
      var e := EncodeChar(s[0]);
      CharRoundTrip(s[0], Encode(s[1..]));
      assert (e + Encode(s[1..]))[|e|..] == Encode(s[1..]);
      RoundTrip(s[1..]);
      assert [s[0]] + s[1..] == s;
    }
  }

  /** Each text has one byte form: whatever decodes was encoded. */
  lemma {:induction false} DecodeUnique(b: seq<Byte>)
    requires Decode(b).Some?
    ensures Encode(Decode(b).value) == b
    decreases |b|
  {
    hide EncodeChar, DecodeChar;
    if b == [] {
    } else {
      CharUnique(b);
      var (c, k) := DecodeChar(b).value;
      DecodeUnique(b[k..]);
      var rest := Decode(b[k..]).value;
      assert ([c] + rest)[1..] == rest;
      assert b == b[..k] + b[k..];
    }
  }

  lemma EncodeInjective(s: string, t: string)
    requires Encode(s) == Encode(t)
    ensures s == t
  {
    RoundTrip(s);
    RoundTrip(t);
  }

  /** Of two numbers the smaller one has the smaller quotient by 64, or the same and the smaller
      remainder. */
  lemma Digits(m: nat, n: nat)
    requires m <= n
    ensures m / 64 < n / 64 || (m / 64 == n / 64 && m % 64 <= n % 64)
    ensures m < n && m / 64 == n / 64 ==> m % 64 < n % 64
  {
  }

  /** Two different encodings of one length differ first where the smaller character has the
      smaller byte. */
  lemma SameLengthDiffer(c: char, d: char) returns (i: nat)
    requires c as int < d as int && |EncodeChar(c)| == |EncodeChar(d)|
    ensures i < |EncodeChar(c)| && EncodeChar(c)[i] < EncodeChar(d)[i]
    ensures forall j :: 0 <= j < i ==> EncodeChar(c)[j] == EncodeChar(d)[j]
  {
    var m, n := c as int, d as int;
    Digits(m, n);
    Digits(m / 64, n / 64);
    Digits(m / 64 / 64, n / 64 / 64);
    if n < 0x80 {
      i := 0;
    } else if n < 0x800 {
      i := if m / 64 < n / 64 then 0 else 1;
    } else if n < 0x1_0000 {
      i := if m / 64 / 64 < n / 64 / 64 then 0 else if m / 64 < n / 64 then 1 else 2;
    } else {
      i := if m / 64 / 64 / 64 < n / 64 / 64 / 64 then 0
           else if m / 64 / 64 < n / 64 / 64 then 1
           else if m / 64 < n / 64 then 2 else 3;
    }
  }

  lemma LongerIsGreater(c: char, d: char)
    requires c as int < d as int && |EncodeChar(c)| != |EncodeChar(d)|
    ensures EncodeChar(c)[0] < EncodeChar(d)[0]
  {
  }

  /** Where the byte forms of two characters first differ, the lesser one has the lesser byte. */
  lemma CharsDiffer(c: char, d: char) returns (i: nat)
    requires c as int < d as int
    ensures i < |EncodeChar(c)| && i < |EncodeChar(d)| && EncodeChar(c)[i] < EncodeChar(d)[i]
    ensures forall j :: 0 <= j < i ==> EncodeChar(c)[j] == EncodeChar(d)[j]
  {
    hide EncodeChar;
    if |EncodeChar(c)| != |EncodeChar(d)| {
      LongerIsGreater(c, d);
      i := 0;
    } else {
      i := SameLengthDiffer(c, d);
    }
  }

  /** Byte order agrees with code point order, one character at a time. */
  lemma CharOrder(c: char, d: char, x: seq<Byte>, y: seq<Byte>)
    requires c as int < d as int
    ensures LexLess(EncodeChar(c) + x, EncodeChar(d) + y)
  {
    hide LexLess, EncodeChar;
    var i := CharsDiffer(c, d);
    var a, b := EncodeChar(c) + x, EncodeChar(d) + y;
    assert a[..i] == b[..i];
    LexFirstDifference(a, b, i);
  }

  lemma {:induction false} EncodeKeepsOrder(s: string, t: string)
    requires TextLess(s, t)
    ensures LexLess(Encode(s), Encode(t))
  {
    if s == [] {
    } else if s[0] != t[0] {
      CharOrder(s[0], t[0], Encode(s[1..]), Encode(t[1..]));
    } else {
      assert Codes(s)[1..] == Codes(s[1..]) && Codes(t)[1..] == Codes(t[1..]);
      EncodeKeepsOrder(s[1..], t[1..]);
      LexPrefix(EncodeChar(s[0]), Encode(s[1..]), Encode(t[1..]));
    }
  }

  /** UTF-8 bytes sort exactly as the texts do. */
  lemma EncodeOrder(s: string, t: string)
    ensures LexLess(Encode(s), Encode(t)) <==> TextLess(s, t)
  {
    TextTotal(s, t);
    if TextLess(s, t) {
      EncodeKeepsOrder(s, t);
    } else if TextLess(t, s) {
      EncodeKeepsOrder(t, s);
      TextOrder(t, s, s);
      LexAsymmetric(Encode(t), Encode(s));
    } else {
      LexIrreflexive(Encode(s));
      LexIrreflexive(Codes(s));
    }
  }
}
