/** When the order in which the encoder writes dict keys is the bytewise order of the encoded
    keys, which section 4.2.1 of RFC 8949 asks of a deterministic encoding. */
module CborOrder {
  import opened Orders
  import opened Cbor
  import opened CborRoundTrip
  import opened CborSame
  import Utf8

  lemma {:induction false} BigEndianOrder(m: nat, n: nat, width: nat, x: Bytes, y: Bytes)
    requires m < n < Pow256(width)
    ensures LexLess(BigEndian(m, width) + x, BigEndian(n, width) + y)
  {
    var a, b := BigEndian(m / 256, width - 1), BigEndian(n / 256, width - 1);
    assert BigEndian(m, width) + x == a + ([m % 256] + x);
    assert BigEndian(n, width) + y == b + ([n % 256] + y);
    if m / 256 < n / 256 {
      BigEndianOrder(m / 256, n / 256, width - 1, [m % 256] + x, [n % 256] + y);
    } else {
      LexPrefix(a, [m % 256] + x, [n % 256] + y);
    }
  }

  lemma AdditionalOrder(m: nat, n: nat)
    requires m < n < TWO64
    ensures Additional(m) < Additional(n)
         || (Additional(m) == Additional(n) && |ArgBytes(m)| == |ArgBytes(n)| && n < Pow256(|ArgBytes(n)|))
    ensures Additional(m) == Additional(n) ==>
      ArgBytes(m) == BigEndian(m, |ArgBytes(n)|) && ArgBytes(n) == BigEndian(n, |ArgBytes(n)|)
  {
    Powers();
  }

  /** Of two arguments the smaller one has the smaller head, across all five widths. */
  lemma HeadOrder(major: nat, m: nat, n: nat, x: Bytes, y: Bytes)
    requires major < 8 && m < n < TWO64
    ensures LexLess(Head(major, m) + x, Head(major, n) + y)
  {
    hide Head, ArgBytes, Additional;
    HeadParts(major, m);
    HeadParts(major, n);
    AdditionalOrder(m, n);
    var p, q := [32 * major + Additional(m)], [32 * major + Additional(n)];
    var a, b := ArgBytes(m) + x, ArgBytes(n) + y;
    assert Head(major, m) + x == p + a && Head(major, n) + y == q + b;
    if Additional(m) < Additional(n) {
      LexFirstDifference(p + a, q + b, 0);
    } else {
      BigEndianOrder(m, n, |ArgBytes(n)|, x, y);
      LexPrefix(p, a, b);
    }
  }

  lemma MajorOrder(a: nat, b: nat, m: nat, n: nat, x: Bytes, y: Bytes)
    requires a < b < 8
    ensures LexLess(Head(a, m) + x, Head(b, n) + y)
  {
    hide Head, ArgBytes;
    HeadParts(a, m);
    HeadParts(b, n);
    LexFirstDifference(Head(a, m) + x, Head(b, n) + y, 0);
  }

  /** Number keys are written in bytewise order exactly when the smaller one is not negative. */
  lemma NumberOrder(a: int, b: int)
    requires -TWO64 <= a < b < TWO64
    ensures LexLess(Encode(Int(a)), Encode(Int(b))) <==> 0 <= a
  {
    hide Head, LexLess;
    var x, y := Encode(Int(a)), Encode(Int(b));
    assert x + [] == x && y + [] == y;
    if 0 <= a {
      HeadOrder(0, a, b, [], []);
    } else {
      if b < 0 {
        HeadOrder(1, -1 - b, -1 - a, [], []);
      } else {
        MajorOrder(0, 1, b, -1 - a, [], []);
      }
      LexAsymmetric(y, x);
    }
  }

  /** Text keys are written in bytewise order exactly when the smaller one is not longer. */
  lemma TextOrder(a: string, b: string)
    requires Fits(Text(a)) && Fits(Text(b)) && TextLess(a, b)
    ensures LexLess(Encode(Text(a)), Encode(Text(b))) <==> |Utf8.Encode(a)| <= |Utf8.Encode(b)|
  {
    hide Head, LexLess, Utf8.Encode;
    var u, w := Utf8.Encode(a), Utf8.Encode(b);
    Utf8.EncodeOrder(a, b);
    if |u| < |w| {
      HeadOrder(3, |u|, |w|, u, w);
    } else if |u| == |w| {
      LexPrefix(Head(3, |u|), u, w);
    } else {
      HeadOrder(3, |w|, |u|, w, u);
      LexAsymmetric(Encode(Text(b)), Encode(Text(a)));
    }
  }

  /** The keys stand in strictly ascending bytewise order of their encodings. */
  predicate Deterministic(es: seq<Entry>) {
    forall i, j :: 0 <= i < j < |es| ==> LexLess(Encode(es[i].key), Encode(es[j].key))
  }

  lemma SortedIntegers(es: seq<Entry>, s: seq<Entry>)
    requires DistinctKeys(es) && Fits(Dict(es)) && s == SortEntries(es)
    requires forall e :: e in es ==> e.key.Int?
    ensures forall i :: 0 <= i < |s| ==> s[i] in es && s[i].key.Int? && -TWO64 <= s[i].key.n < TWO64
    ensures forall i, j :: 0 <= i < j < |s| ==> s[i].key.n < s[j].key.n
  {
    hide DistinctKeys, SortEntries;
    SortAscending(es);
    forall i | 0 <= i < |s|
      ensures s[i] in es && s[i].key.Int? && -TWO64 <= s[i].key.n < TWO64
    {
      SortedFrom(es, s[i]);
      var k :| 0 <= k < |es| && es[k] == s[i];
      assert Fits(es[k].key);
    }
    forall i, j | 0 <= i < j < |s|
      ensures s[i].key.n < s[j].key.n
    {
      assert KeyLess(s[i].key, s[j].key);
    }
  }

  /** A dict with integer keys is written deterministically exactly when it has at most one
      entry or no negative key. */
  lemma IntegerDictOrder(es: seq<Entry>)
    requires DistinctKeys(es) && Fits(Dict(es))
    requires forall e :: e in es ==> e.key.Int?
    ensures Deterministic(SortEntries(es)) <==> |es| <= 1 || forall e :: e in es ==> e.key.n >= 0
  {
    hide Encode, LexLess, SortEntries, DistinctKeys, Fits;
    var s := SortEntries(es);
    SortedIntegers(es, s);
    forall i, j | 0 <= i < j < |s|
      ensures LexLess(Encode(s[i].key), Encode(s[j].key)) <==> s[i].key.n >= 0
    {
      NumberOrder(s[i].key.n, s[j].key.n);
    }
    if |es| > 1 && Deterministic(s) {
      assert LexLess(Encode(s[0].key), Encode(s[1].key));
      forall e | e in es
        ensures e.key.n >= 0
      {
        SortedFrom(es, e);
        var i :| 0 <= i < |s| && s[i] == e;
        assert i == 0 || s[0].key.n < s[i].key.n;
      }
    }
  }

  lemma SortedTexts(es: seq<Entry>, s: seq<Entry>)
    requires DistinctKeys(es) && Fits(Dict(es)) && s == SortEntries(es)
    requires forall e :: e in es ==> e.key.Text?
    ensures forall i :: 0 <= i < |s| ==> s[i] in es && s[i].key.Text? && Fits(s[i].key)
    ensures forall i, j :: 0 <= i < j < |s| ==> TextLess(s[i].key.s, s[j].key.s)
  {
    hide DistinctKeys, SortEntries, TextLess;
    SortAscending(es);
    forall i | 0 <= i < |s|
      ensures s[i] in es && s[i].key.Text? && Fits(s[i].key)
    {
      SortedFrom(es, s[i]);
      var k :| 0 <= k < |es| && es[k] == s[i];
      assert Fits(es[k].key);
    }
    forall i, j | 0 <= i < j < |s|
      ensures TextLess(s[i].key.s, s[j].key.s)
    {
      assert KeyLess(s[i].key, s[j].key);
    }
  }

  /** A dict with text keys is written deterministically exactly when no key that is greater as text
      is shorter in bytes. */
  lemma TextDictOrder(es: seq<Entry>)
    requires DistinctKeys(es) && Fits(Dict(es))
    requires forall e :: e in es ==> e.key.Text?
    ensures Deterministic(SortEntries(es)) <==>
      forall e, f :: e in es && f in es && TextLess(e.key.s, f.key.s) ==>
        |Utf8.Encode(e.key.s)| <= |Utf8.Encode(f.key.s)|
  {
    hide Encode, LexLess, SortEntries, DistinctKeys, Fits, TextLess, Utf8.Encode;
    var s := SortEntries(es);
    SortedTexts(es, s);
    forall i, j | 0 <= i < j < |s|
      ensures LexLess(Encode(s[i].key), Encode(s[j].key)) <==> |Utf8.Encode(s[i].key.s)| <= |Utf8.Encode(s[j].key.s)|
    {
      TextOrder(s[i].key.s, s[j].key.s);
    }
    if Deterministic(s) {
      forall e, f | e in es && f in es && TextLess(e.key.s, f.key.s)
        ensures |Utf8.Encode(e.key.s)| <= |Utf8.Encode(f.key.s)|
      {
        SortedFrom(es, e);
        SortedFrom(es, f);
        var i :| 0 <= i < |s| && s[i] == e;
        var j :| 0 <= j < |s| && s[j] == f;
        Orders.TextOrder(e.key.s, f.key.s, f.key.s);
        assert i < j;
      }
    }
  }
}
