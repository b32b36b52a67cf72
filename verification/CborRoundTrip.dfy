/** Decoding an encoding, anywhere inside any bytes, gives the value back. */
module CborRoundTrip {
  import opened Sorting
  import opened Wrappers
  import opened Cbor
  import Utf8

  /** `part` stands in `data` at `offset`. */
  predicate Holds(data: Bytes, offset: nat, part: Bytes) {
    offset + |part| <= |data| && data[offset..offset + |part|] == part
  }

  lemma HoldsSplit(data: Bytes, offset: nat, a: Bytes, b: Bytes)
    requires Holds(data, offset, a + b)
    ensures Holds(data, offset, a) && Holds(data, offset + |a|, b)
  {
    assert data[offset..offset + |a|] == (a + b)[..|a|];
    assert data[offset + |a|..offset + |a| + |b|] == (a + b)[|a|..];
  }

  // ---------- The initial byte and its argument ----------

  function Pow256(k: nat): nat {
    if k == 0 then 1 else 256 * Pow256(k - 1)
  }

  lemma {:induction false} BigEndianRoundTrip(n: nat, width: nat)
    requires n < Pow256(width)
    ensures FromBigEndian(BigEndian(n, width)) == n
  {
    if width == 0 {
    } else {
      BigEndianRoundTrip(n / 256, width - 1);
      var r := BigEndian(n, width);
      assert r[..|r| - 1] == BigEndian(n / 256, width - 1);
    }
  }

  lemma Powers()
    ensures Pow256(1) == 0x100 && Pow256(2) == 0x1_0000 && Pow256(4) == 0x1_0000_0000 && Pow256(8) == TWO64
  {
    assert Pow256(3) == 0x100_0000 && Pow256(4) == 0x1_0000_0000;
    assert Pow256(5) == 0x100_0000_0000 && Pow256(6) == 0x1_0000_0000_0000;
    assert Pow256(7) == 0x100_0000_0000_0000;
  }

  /** The argument bytes that follow the initial byte. */
  function ArgBytes(n: nat): Bytes {
    if n < 24 then []
    else if n <= 0xFF then BigEndian(n, 1)
    else if n <= 0xFFFF then BigEndian(n, 2)
    else if n <= 0xFFFF_FFFF then BigEndian(n, 4)
    else BigEndian(n, 8)
  }

  function Additional(n: nat): nat {
    if n < 24 then n
    else if n <= 0xFF then 24
    else if n <= 0xFFFF then 25
    else if n <= 0xFFFF_FFFF then 26
    else 27
  }

  lemma HeadParts(major: nat, n: nat)
    requires major < 8
    ensures Head(major, n) == [32 * major + Additional(n)] + ArgBytes(n)
  {
    if 24 <= n <= 0xFF {
      assert BigEndian(n, 1) == BigEndian(n / 256, 0) + [n % 256] == [n];
    }
  }

  lemma ArgRead(data: Bytes, offset: nat, n: nat)
    requires n < TWO64
    requires Holds(data, offset, ArgBytes(n))
    ensures ReadArg(data, offset, Additional(n)) == Ok(Found(n, offset + |ArgBytes(n)|))
  {
    Powers();
    if n >= 24 {
      BigEndianRoundTrip(n, |ArgBytes(n)|);
    }
  }

  lemma HeadRead(data: Bytes, offset: nat, major: nat, n: nat)
    requires (major <= 1 || 3 <= major <= 5) && n < TWO64
    requires Holds(data, offset, Head(major, n))
    ensures ReadHead(data, offset) == Ok(Initial(major, n, offset + |Head(major, n)|))
  {
    HeadParts(major, n);
    HoldsSplit(data, offset, [32 * major + Additional(n)], ArgBytes(n));
    assert data[offset] == data[offset..offset + 1][0] == 32 * major + Additional(n);
    assert data[offset] / 32 == major && data[offset] % 32 == Additional(n);
    ArgRead(data, offset + 1, n);
  }

  // ---------- Values ----------

  lemma SetNew(es: seq<Entry>, k: Value, v: Value)
    requires forall i :: 0 <= i < |es| ==> !KeyEq(es[i].key, k)
    ensures DictSet(es, k, v) == es + [Entry(k, v)]
  {
    if es == [] {
    } else {
      SetNew(es[1..], k, v);
      assert es == [es[0]] + es[1..];
    }
  }

  lemma SortDistinct(es: seq<Entry>)
    requires DistinctKeys(es)
    ensures DistinctKeys(SortEntries(es))
  {
    var s := SortEntries(es);
    SortKeeps(es, ByKey);
    PairwiseKept(es, s, (x: Entry, y: Entry) => !KeyEq(x.key, y.key));
    forall i | 0 <= i < |s|
      ensures Hashable(s[i].key)
    {
      SortedFrom(es, s[i]);
    }
  }

  predicate Codable(e: Entry) {
    && Hashable(e.key) && Fits(e.key)
    && PythonValue(e.value) && Encodable(e.value)
  }

  lemma SortedMembers(es: seq<Entry>)
    requires PythonValue(Dict(es)) && Encodable(Dict(es))
    ensures DistinctKeys(SortEntries(es))
    ensures forall e :: e in SortEntries(es) ==> Codable(e)
  {
    SortDistinct(es);
    forall e | e in SortEntries(es)
      ensures Codable(e)
    {
      SortedFrom(es, e);
    }
  }

  // One step of the decoder at a time.

  lemma TextStep(data: Bytes, offset: nat, u: Bytes, s: string)
    requires |u| < TWO64 && Holds(data, offset, Head(3, |u|) + u)
    requires Utf8.Decode(u) == Some(s)
    ensures DecodeAt(data, offset) == Ok(Found(Text(s), offset + |Head(3, |u|) + u|))
  {
    hide Head, ReadHead, DecodeItems, DecodeEntries, Utf8.Decode;
    HoldsSplit(data, offset, Head(3, |u|), u);
    HeadRead(data, offset, 3, |u|);
    var next := offset + |Head(3, |u|)|;
    assert DecodeText(data, next, |u|) == Ok(Found(Text(s), next + |u|));
  }

  lemma ListStep(data: Bytes, offset: nat, n: nat, body: Bytes, items: seq<Value>)
    requires n < TWO64 && Holds(data, offset, Head(4, n) + body)
    requires DecodeItems(data, offset + |Head(4, n)|, n) == Ok(Found(items, offset + |Head(4, n)| + |body|))
    ensures DecodeAt(data, offset) == Ok(Found(List(items), offset + |Head(4, n) + body|))
  {
    hide Head, ReadHead, DecodeItems, DecodeEntries, DecodeText;
    HoldsSplit(data, offset, Head(4, n), body);
    HeadRead(data, offset, 4, n);
  }

  lemma DictStep(data: Bytes, offset: nat, n: nat, body: Bytes, es: seq<Entry>)
    requires n < TWO64 && Holds(data, offset, Head(5, n) + body)
    requires DecodeEntries(data, offset + |Head(5, n)|, n, []) == Ok(Found(es, offset + |Head(5, n)| + |body|))
    ensures DecodeAt(data, offset) == Ok(Found(Dict(es), offset + |Head(5, n) + body|))
  {
    hide Head, ReadHead, DecodeItems, DecodeEntries, DecodeText;
    HoldsSplit(data, offset, Head(5, n), body);
    HeadRead(data, offset, 5, n);
  }

  lemma ItemStep(data: Bytes, offset: nat, count: nat, v: Value, next: nat, vs: seq<Value>, end: nat)
    requires DecodeAt(data, offset) == Ok(Found(v, next))
    requires DecodeItems(data, next, count) == Ok(Found(vs, end))
    ensures DecodeItems(data, offset, count + 1) == Ok(Found([v] + vs, end))
  {
  }

  lemma EntryStep(data: Bytes, offset: nat, count: nat, sofar: seq<Entry>, k: Value, next: nat, v: Value, after: nat)
    requires DecodeAt(data, offset) == Ok(Found(k, next))
    requires DecodeAt(data, next) == Ok(Found(v, after))
    requires Hashable(k)
    ensures DecodeEntries(data, offset, count + 1, sofar) == DecodeEntries(data, after, count, DictSet(sofar, k, v))
  {
  }

  lemma RoundTripScalar(v: Value, data: Bytes, offset: nat)
    requires Hashable(v) && Fits(v)
    requires Holds(data, offset, Encode(v))
    ensures DecodeAt(data, offset) == Ok(Found(v, offset + |Encode(v)|))
  {
    hide Utf8.Encode, Utf8.Decode, DecodeItems, DecodeEntries, DecodeText, Head;
    match v
    case Bool(b) =>
      assert data[offset] == data[offset..offset + 1][0];
    case Int(n) =>
      HeadRead(data, offset, if n >= 0 then 0 else 1, if n >= 0 then n else -1 - n);
    case Text(s) =>
      Utf8.RoundTrip(s);
      TextStep(data, offset, Utf8.Encode(s), s);
  }

  /** The decoder reads `v` back wherever its encoding stands, whatever is around it. */
  lemma {:induction false} RoundTripAt(v: Value, data: Bytes, offset: nat)
    requires PythonValue(v) && Encodable(v)
    requires Holds(data, offset, Encode(v))
    ensures DecodeAt(data, offset) == Ok(Found(Canon(v), offset + |Encode(v)|))
    decreases Size(v), 1
  {
    hide DecodeAt, Head, DecodeItems, EncodeItems, EncodeEntries, CanonItems, CanonEntries, SortEntries, EntriesSize;
    match v
    case List(items) =>
      HoldsSplit(data, offset, Head(4, |items|), EncodeItems(items));
      RoundTripItems(items, data, offset + |Head(4, |items|)|);
      ListStep(data, offset, |items|, EncodeItems(items), CanonItems(items));
    case Dict(es) =>
      SortedMembers(es);
      SortSize(es);
      RoundTripDict(SortEntries(es), data, offset);
    case _ =>
      RoundTripScalar(v, data, offset);
  }

  lemma {:induction false} RoundTripDict(es: seq<Entry>, data: Bytes, offset: nat)
    requires |es| < TWO64 && DistinctKeys(es)
    requires forall e :: e in es ==> Codable(e)
    requires Holds(data, offset, Head(5, |es|) + EncodeEntries(es))
    ensures DecodeAt(data, offset)
         == Ok(Found(Dict(CanonEntries(es)), offset + |Head(5, |es|) + EncodeEntries(es)|))
    decreases EntriesSize(es), 2
  {
    hide Head, DecodeAt, EncodeEntries, CanonEntries, Codable;
    HoldsSplit(data, offset, Head(5, |es|), EncodeEntries(es));
    RoundTripEntries(es, data, offset + |Head(5, |es|)|, []);
    assert [] + CanonEntries(es) == CanonEntries(es);
    DictStep(data, offset, |es|, EncodeEntries(es), CanonEntries(es));
  }

  lemma {:induction false} RoundTripItems(items: seq<Value>, data: Bytes, offset: nat)
    requires forall i :: 0 <= i < |items| ==> PythonValue(items[i]) && Encodable(items[i])
    requires Holds(data, offset, EncodeItems(items))
    ensures DecodeItems(data, offset, |items|) == Ok(Found(CanonItems(items), offset + |EncodeItems(items)|))
    decreases ItemsSize(items), 0
  {
    hide DecodeAt, Encode, Canon, PythonValue, Encodable, Holds;
    if items == [] {
    } else {
      var next := offset + |Encode(items[0])|;
      HoldsSplit(data, offset, Encode(items[0]), EncodeItems(items[1..]));
      RoundTripAt(items[0], data, offset);
      RoundTripItems(items[1..], data, next);
      ItemStep(data, offset, |items| - 1, Canon(items[0]), next,
        CanonItems(items[1..]), next + |EncodeItems(items[1..])|);
    }
  }

  /** No key of `es` is in the dict read so far. */
  predicate AllNew(sofar: seq<Entry>, es: seq<Entry>) {
    forall i, j :: 0 <= i < |sofar| && 0 <= j < |es| ==> !KeyEq(sofar[i].key, es[j].key)
  }

  lemma NextNew(sofar: seq<Entry>, es: seq<Entry>, v: Value)
    requires es != [] && DistinctKeys(es) && AllNew(sofar, es)
    ensures DictSet(sofar, es[0].key, v) == sofar + [Entry(es[0].key, v)]
    ensures DistinctKeys(es[1..]) && AllNew(sofar + [Entry(es[0].key, v)], es[1..])
  {
    SetNew(sofar, es[0].key, v);
    var rest := es[1..];
    assert forall j :: 0 <= j < |rest| ==> rest[j] == es[j + 1];
  }

  lemma {:induction false} FirstEntry(e: Entry, data: Bytes, offset: nat, count: nat, sofar: seq<Entry>)
    requires Codable(e)
    requires Holds(data, offset, Encode(e.key) + Encode(e.value))
    ensures DecodeEntries(data, offset, count + 1, sofar)
         == DecodeEntries(data, offset + |Encode(e.key) + Encode(e.value)|, count,
                          DictSet(sofar, e.key, Canon(e.value)))
    decreases Size(e.key) + Size(e.value), 2
  {
    hide DecodeAt, Encode, Canon, DecodeEntries;
    var next := offset + |Encode(e.key)|;
    HoldsSplit(data, offset, Encode(e.key), Encode(e.value));
    RoundTripScalar(e.key, data, offset);
    RoundTripAt(e.value, data, next);
    EntryStep(data, offset, count, sofar, e.key, next, Canon(e.value), next + |Encode(e.value)|);
  }

  lemma {:induction false} FirstPair(es: seq<Entry>, data: Bytes, offset: nat, sofar: seq<Entry>, more: seq<Entry>,
                                     after: nat)
    requires es != [] && Codable(es[0]) && DistinctKeys(es) && AllNew(sofar, es)
    requires Holds(data, offset, EncodeEntries(es))
    requires after == offset + |Encode(es[0].key) + Encode(es[0].value)|
    requires more == sofar + [Entry(es[0].key, Canon(es[0].value))]
    ensures DecodeEntries(data, offset, |es|, sofar) == DecodeEntries(data, after, |es| - 1, more)
    ensures Holds(data, after, EncodeEntries(es[1..]))
    ensures DistinctKeys(es[1..]) && AllNew(more, es[1..])
    decreases EntriesSize(es), 0
  {
    hide DecodeAt, DecodeEntries, Encode, Canon, Codable, DistinctKeys, AllNew, Holds;
    var e := es[0];
    HoldsSplit(data, offset, Encode(e.key) + Encode(e.value), EncodeEntries(es[1..]));
    FirstEntry(e, data, offset, |es| - 1, sofar);
    NextNew(sofar, es, Canon(e.value));
  }

  lemma NoEntries(data: Bytes, offset: nat, sofar: seq<Entry>)
    requires offset <= |data|
    ensures DecodeEntries(data, offset, 0, sofar) == Ok(Found(sofar, offset))
    ensures EncodeEntries([]) == [] && CanonEntries([]) == []
  {
  }

  lemma EntriesCons(es: seq<Entry>)
    requires es != []
    ensures EncodeEntries(es) == Encode(es[0].key) + Encode(es[0].value) + EncodeEntries(es[1..])
    ensures CanonEntries(es) == [Entry(es[0].key, Canon(es[0].value))] + CanonEntries(es[1..])
  {
    hide Encode, Canon;
  }

  lemma {:induction false} RoundTripEntries(es: seq<Entry>, data: Bytes, offset: nat, sofar: seq<Entry>)
    requires forall e :: e in es ==> Codable(e)
    requires DistinctKeys(es) && AllNew(sofar, es)
    requires Holds(data, offset, EncodeEntries(es))
    ensures DecodeEntries(data, offset, |es|, sofar)
         == Ok(Found(sofar + CanonEntries(es), offset + |EncodeEntries(es)|))
    decreases EntriesSize(es), 1
  {
    hide DecodeAt, DecodeEntries, Encode, EncodeEntries, Canon, CanonEntries, Codable, DistinctKeys, AllNew, DictSet;
    if es == [] {
      NoEntries(data, offset, sofar);
      assert sofar + [] == sofar;
    } else {
      var after := offset + |Encode(es[0].key) + Encode(es[0].value)|;
      var more := sofar + [Entry(es[0].key, Canon(es[0].value))];
      EntriesCons(es);
      FirstPair(es, data, offset, sofar, more, after);
      RoundTripEntries(es[1..], data, after, more);
      assert more + CanonEntries(es[1..]) == sofar + CanonEntries(es);
    }
  }

  // ---------- The main results ----------

  /** Between any prefix and any suffix the value and its end are found exactly. */
  lemma RoundTripInside(v: Value, before: Bytes, after: Bytes)
    requires PythonValue(v) && Encodable(v)
    ensures DecodeAt(before + Encode(v) + after, |before|) == Ok(Found(Canon(v), |before| + |Encode(v)|))
  {
    RoundTripAt(v, before + Encode(v) + after, |before|);
  }

  lemma RoundTrip(v: Value)
    requires PythonValue(v) && Encodable(v)
    ensures Decode(Encode(v)) == Ok(Canon(v))
  {
    RoundTripAt(v, Encode(v), 0);
  }

  /** No encoding is a proper prefix of another, and one encoding means one value. */
  lemma PrefixFree(v: Value, w: Value)
    requires PythonValue(v) && Encodable(v) && PythonValue(w) && Encodable(w)
    requires Encode(v) <= Encode(w)
    ensures Encode(v) == Encode(w) && Canon(v) == Canon(w)
  {
    var d := Encode(w);
    RoundTripAt(w, d, 0);
    RoundTripAt(v, d, 0);
  }
}
