/** The encoder and the decoder as the source runs them: a growing byte buffer on one side, an
    advancing offset with a growing list or dict on the other. Both are proved to compute the
    functions of module Cbor. */
module CborCodec {
  import opened Wrappers
  import opened Cbor
  import opened CborRoundTrip
  import opened CborBytes
  import Utf8

  datatype EncodeError = Overflow | MixedKeys

  lemma EncodeItemsSnoc(items: seq<Value>, v: Value)
    ensures EncodeItems(items + [v]) == EncodeItems(items) + Encode(v)
  {
    hide Encode;
    if items == [] {
      assert [v][1..] == [];
      assert [] + [v] == [v];
    } else {
      assert (items + [v])[1..] == items[1..] + [v];
      EncodeItemsSnoc(items[1..], v);
    }
  }

  lemma EncodeEntriesSnoc(es: seq<Entry>, e: Entry)
    ensures EncodeEntries(es + [e]) == EncodeEntries(es) + (Encode(e.key) + Encode(e.value))
  {
    hide Encode;
    if es == [] {
      assert [e][1..] == [];
      assert [] + [e] == [e];
    } else {
      assert (es + [e])[1..] == es[1..] + [e];
      EncodeEntriesSnoc(es[1..], e);
    }
  }

  predicate EncodableEntry(e: Entry) {
    Encodable(e.key) && Encodable(e.value)
  }

  predicate EntryFits(e: Entry) {
    Fits(e.key) && Fits(e.value)
  }

  predicate EntrySorts(e: Entry) {
    Sortable(e.key) && Sortable(e.value)
  }

  /** A proper pair of Python values below the given size. */
  predicate Smaller(e: Entry, size: nat) {
    PythonValue(e.key) && PythonValue(e.value) && Size(e.key) + Size(e.value) < size
  }

  lemma SortedSmaller(es: seq<Entry>, sorted: seq<Entry>)
    requires PythonValue(Dict(es)) && sorted == SortEntries(es)
    ensures forall i :: 0 <= i < |sorted| ==> Smaller(sorted[i], EntriesSize(es))
  {
    hide SortEntries, DistinctKeys;
    SortSize(es);
    forall i | 0 <= i < |sorted|
      ensures Smaller(sorted[i], EntriesSize(es))
    {
      SortedFrom(es, sorted[i]);
      var k :| 0 <= k < |es| && es[k] == sorted[i];
      KeyIsValue(es, k);
      EntriesSizeSplit(sorted, i);
    }
  }

  lemma KeyIsValue(es: seq<Entry>, k: nat)
    requires PythonValue(Dict(es)) && k < |es|
    ensures Hashable(es[k].key) && PythonValue(es[k].key) && PythonValue(es[k].value)
  {
  }

  /** The dict can be encoded exactly when its keys sort and each sorted entry can. */
  lemma SortedEncodable(es: seq<Entry>, sorted: seq<Entry>)
    requires PythonValue(Dict(es)) && sorted == SortEntries(es)
    ensures Encodable(Dict(es)) <==>
      OneKeyKind(es) && |es| < TWO64 && forall i :: 0 <= i < |sorted| ==> EncodableEntry(sorted[i])
    ensures Fits(Dict(es)) ==> forall i :: 0 <= i < |sorted| ==> EntryFits(sorted[i])
    ensures Sortable(Dict(es)) ==> forall i :: 0 <= i < |sorted| ==> EntrySorts(sorted[i])
  {
    hide OneKeyKind, SortEntries, PythonValue, EncodableEntry, Encodable;
    EntriesEncodable(es);
    forall i | 0 <= i < |sorted|
      ensures sorted[i] in es
      ensures Fits(Dict(es)) ==> EntryFits(sorted[i])
      ensures Sortable(Dict(es)) ==> EntrySorts(sorted[i])
    {
      SortedFrom(es, sorted[i]);
      var k :| 0 <= k < |es| && es[k] == sorted[i];
      KeyIsValue(es, k);
    }
    forall k | 0 <= k < |es|
      ensures es[k] in sorted
    {
      SortedFrom(es, es[k]);
    }
  }

  lemma EntriesEncodable(es: seq<Entry>)
    requires PythonValue(Dict(es))
    ensures Encodable(Dict(es)) <==>
      OneKeyKind(es) && |es| < TWO64 && forall i :: 0 <= i < |es| ==> EncodableEntry(es[i])
  {
    hide OneKeyKind, PythonValue;
    forall i | 0 <= i < |es|
      ensures Hashable(es[i].key)
    {
      KeyIsValue(es, i);
    }
  }

  /** A number as so many big-endian bytes; one that does not fit is an OverflowError. */
  function ToBytes(n: nat, width: nat): Result<Bytes, EncodeError> {
    if n < Pow256(width) then Ok(BigEndian(n, width)) else Err(Overflow)
  }

  function Prefixed(initial: Byte, arg: Result<Bytes, EncodeError>): Result<Bytes, EncodeError> {
    match arg
    case Ok(bytes) => Ok([initial] + bytes)
    case Err(e) => Err(e)
  }

  /** The initial byte and the argument in the least of five widths: below 2^64 they are written, and
      the decoder reads the same major type and argument from them; beyond that there is no head. */
  method EncodeUint(major: nat, value: nat) returns (r: Result<Bytes, EncodeError>)
    requires major < 8
    ensures r.Ok? <==> value < TWO64
    ensures r.Err? ==> r.error == Overflow
    ensures r.Ok? ==> r.value == Head(major, value)
    ensures r.Ok? && Counted(major) ==> ReadHead(r.value, 0) == Ok(Initial(major, value, |r.value|))
    ensures r.Ok? && Counted(major) ==> Headed(r.value, major, value) && |r.value| == HeadSize(value)
  {
    if value < TWO64 && Counted(major) {
      HeadRead(Head(major, value), 0, major, value);
      HeadWritten(major, value, []);
      assert Head(major, value) + [] == Head(major, value);
    }
    hide ReadHead, BigEndian, Headed, HeadSize;
    Powers();
    if value < 24 {
      return Ok([32 * major + value]);
    }
    if value <= 0xFF {
      return Ok([32 * major + 24, value]);
    }
    if value <= 0xFFFF {
      return Prefixed(32 * major + 25, ToBytes(value, 2));
    }
    if value <= 0xFFFF_FFFF {
      return Prefixed(32 * major + 26, ToBytes(value, 4));
    }
    r := Prefixed(32 * major + 27, ToBytes(value, 8));
  }

  /** Which keys Python's sort can handle. */
  method KeysComparable(es: seq<Entry>) returns (ok: bool)
    ensures ok <==> OneKeyKind(es)
  {
    ok := true;
    for i := 0 to |es|
      invariant ok <==> forall k :: 0 <= k < i ==> Comparable(es[0].key, es[k].key)
    {
      ok := ok && Comparable(es[0].key, es[i].key);
    }
  }

  /** The bytes of a value; the error is an overflow if every dict sorts, and a failure to sort if
      every number and length fits. */
  method CborEncode(v: Value) returns (r: Result<Bytes, EncodeError>)
    requires PythonValue(v)
    ensures r.Ok? <==> Encodable(v)
    ensures r.Ok? ==> r.value == Encode(v) && WrittenAs(v, r.value)
    ensures r.Err? && Fits(v) ==> r.error == MixedKeys
    ensures r.Err? && Sortable(v) ==> r.error == Overflow
    decreases Size(v)
  {
    if Encodable(v) {
      Written(v);
    }
    hide WrittenAs, Headed, HeadSize;
    match v
    case Bool(b) =>
      r := Ok(if b then [0xF5] else [0xF4]);
    case Int(n) =>
      if n >= 0 {
        r := EncodeUint(0, n);
      } else {
        r := EncodeUint(1, -1 - n);
      }
    case Text(s) =>
      var data := Utf8.Encode(s);
      r := EncodeUint(3, |data|);
      if r.Ok? {
        r := Ok(r.value + data);
      }
    case List(items) =>
      r := EncodeUint(4, |items|);
      if r.Ok? {
        r := AppendItems(r.value, items);
      }
    case Dict(es) =>
      var sortable := KeysComparable(es);
      if !sortable {
        return Err(MixedKeys);
      }
      var sorted := SortEntries(es);
      SortedEncodable(es, sorted);
      SortedSmaller(es, sorted);
      r := EncodeUint(5, |sorted|);
      if r.Ok? {
        r := AppendEntries(r.value, sorted, EntriesSize(es));
      }
  }

  /** The loop over a list. */
  method AppendItems(head: Bytes, items: seq<Value>) returns (r: Result<Bytes, EncodeError>)
    requires forall i :: 0 <= i < |items| ==> PythonValue(items[i])
    ensures r.Ok? <==> forall i :: 0 <= i < |items| ==> Encodable(items[i])
    ensures r.Ok? ==> r.value == head + EncodeItems(items)
    ensures r.Err? && (forall i :: 0 <= i < |items| ==> Fits(items[i])) ==> r.error == MixedKeys
    ensures r.Err? && (forall i :: 0 <= i < |items| ==> Sortable(items[i])) ==> r.error == Overflow
    decreases ItemsSize(items)
  {
    hide PythonValue, Encodable, Encode, Fits, Sortable, WrittenAs;
    var encoded := head;
    for i := 0 to |items|
      invariant encoded == head + EncodeItems(items[..i])
      invariant forall k :: 0 <= k < i ==> Encodable(items[k])
    {
      ItemsSizeSplit(items, i);
      r := CborEncode(items[i]);
      if r.Err? {
        assert !Encodable(items[i]);
        return;
      }
      EncodeItemsSnoc(items[..i], items[i]);
      assert items[..i + 1] == items[..i] + [items[i]];
      encoded := encoded + r.value;
    }
    assert items[..|items|] == items;
    r := Ok(encoded);
  }

  /** The loop over the sorted items of a dict. */
  method AppendEntries(head: Bytes, sorted: seq<Entry>, ghost size: nat) returns (r: Result<Bytes, EncodeError>)
    requires forall i :: 0 <= i < |sorted| ==> Smaller(sorted[i], size)
    ensures r.Ok? <==> forall i :: 0 <= i < |sorted| ==> EncodableEntry(sorted[i])
    ensures r.Ok? ==> r.value == head + EncodeEntries(sorted)
    ensures r.Err? && (forall i :: 0 <= i < |sorted| ==> EntryFits(sorted[i])) ==> r.error == MixedKeys
    ensures r.Err? && (forall i :: 0 <= i < |sorted| ==> EntrySorts(sorted[i])) ==> r.error == Overflow
    decreases size
  {
    hide PythonValue, Encodable, Encode, Size, Fits, Sortable, WrittenAs;
    var encoded := head;
    for i := 0 to |sorted|
      invariant encoded == head + EncodeEntries(sorted[..i])
      invariant forall k :: 0 <= k < i ==> EncodableEntry(sorted[k])
    {
      var e := sorted[i];
      assert Smaller(e, size);
      r := CborEncode(e.key);
      if r.Err? {
        assert !EncodableEntry(sorted[i]);
        return;
      }
      var key := r.value;
      r := CborEncode(e.value);
      if r.Err? {
        assert !EncodableEntry(sorted[i]);
        return;
      }
      EncodeEntriesSnoc(sorted[..i], e);
      assert sorted[..i + 1] == sorted[..i] + [e];
      encoded := encoded + (key + r.value);
    }
    assert sorted[..|sorted|] == sorted;
    r := Ok(encoded);
  }

  /** The decoder with its offset; lists and dicts are filled one element at a time. */
  method CborDecodeAt(data: Bytes, offset: nat) returns (r: Result<Found<Value>, DecodeError>)
    ensures r == DecodeAt(data, offset)
    ensures HeadDecides(data, offset, r)
    ensures r.Ok? ==> ReadFrom(data, offset, r.value.value, r.value.end)
    decreases |data| - offset
  {
    DecodedFrom(data, offset);
    hide ReadHead, DecodeText, HeadDecides, ReadFrom;
    var head := ReadHead(data, offset);
    if head.Err? {
      return Err(head.error);
    }
    var Initial(major, length, next) := head.value;
    if major == 0 {
      r := Ok(Found(Int(length), next));
    } else if major == 1 {
      r := Ok(Found(Int(-1 - length), next));
    } else if major == 3 {
      r := DecodeText(data, next, length);
    } else if major == 4 {
      var items, end := [], next;
      PrependNothing(DecodeItems(data, next, length));
      for i := 0 to length
        invariant next <= end <= |data|
        invariant DecodeItems(data, next, length) == Prepend(items, DecodeItems(data, end, length - i))
      {
        var item := CborDecodeAt(data, end);
        ItemsStep(data, next, length, items, end, length - i);
        if item.Err? {
          return Err(item.error);
        }
        items, end := items + [item.value.value], item.value.end;
      }
      assert items + [] == items;
      r := Ok(Found(List(items), end));
    } else if major == 5 {
      var result, end := [], next;
      for i := 0 to length
        invariant next <= end <= |data|
        invariant DecodeEntries(data, next, length, []) == DecodeEntries(data, end, length - i, result)
      {
        var key := CborDecodeAt(data, end);
        if key.Err? {
          return Err(key.error);
        }
        var value := CborDecodeAt(data, key.value.end);
        if value.Err? {
          return Err(value.error);
        }
        if !Hashable(key.value.value) {
          return Err(UnhashableKey);
        }
        result, end := DictSet(result, key.value.value, value.value.value), value.value.end;
      }
      r := Ok(Found(Dict(result), end));
    } else {
      r := Ok(Found(Bool(length == 21), next));
    }
  }

  /** The items read before those that are still to come. */
  function Prepend(items: seq<Value>, r: Result<Found<seq<Value>>, DecodeError>): Result<Found<seq<Value>>,
                   DecodeError> {
    match r
    case Err(e) => Err(e)
    case Ok(found) => Ok(Found(items + found.value, found.end))
  }

  lemma PrependNothing(r: Result<Found<seq<Value>>, DecodeError>)
    ensures Prepend([], r) == r
  {
    match r
    case Err(_) =>
    case Ok(found) => assert [] + found.value == found.value;
  }

  lemma ItemsStep(data: Bytes, next: nat, length: nat, items: seq<Value>, end: nat, count: nat)
    requires next <= |data| && end <= |data| && count > 0
    requires DecodeItems(data, next, length) == Prepend(items, DecodeItems(data, end, count))
    ensures match DecodeAt(data, end)
      case Err(e) => DecodeItems(data, next, length) == Err(e)
      case Ok(item) =>
        DecodeItems(data, next, length) == Prepend(items + [item.value], DecodeItems(data, item.end, count - 1))
  {
    hide DecodeAt;
    match DecodeAt(data, end)
    case Err(_) =>
    case Ok(item) =>
      match DecodeItems(data, item.end, count - 1)
      case Err(_) =>
      case Ok(more) =>
        assert items + ([item.value] + more.value) == items + [item.value] + more.value;
  }

  /** The whole input, with nothing after it. */
  method CborDecode(data: Bytes) returns (r: Result<Value, DecodeError>)
    ensures r == Decode(data)
  {
    var found := CborDecodeAt(data, 0);
    if found.Err? {
      return Err(found.error);
    }
    if found.value.end != |data| {
      return Err(Trailing);
    }
    r := Ok(found.value.value);
  }
}
