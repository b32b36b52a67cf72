/** What the decoder accepts: it looks only at the bytes it consumes, every cut makes it fail,
    and what it returns has a normal form no longer than what was read. */
module CborNormal {
  import opened Sorting
  import opened Wrappers
  import opened Cbor
  import opened CborRoundTrip
  import opened CborSame
  import Utf8

  // ---------- Locality ----------

  /** Both inputs reach `k` and agree up to there. */
  predicate Agree(a: Bytes, b: Bytes, k: int) {
    0 <= k <= |a| && k <= |b| && forall i :: 0 <= i < k ==> a[i] == b[i]
  }

  lemma HeadLocal(a: Bytes, b: Bytes, offset: nat)
    requires ReadHead(a, offset).Ok? && Agree(a, b, ReadHead(a, offset).value.next)
    ensures ReadHead(b, offset) == ReadHead(a, offset)
  {
    hide FromBigEndian;
    var next := ReadHead(a, offset).value.next;
    assert a[offset + 1..next] == b[offset + 1..next];
  }

  lemma TextLocal(a: Bytes, b: Bytes, offset: nat, n: nat)
    requires offset <= |a| && offset <= |b|
    requires DecodeText(a, offset, n).Ok? && Agree(a, b, offset + n)
    ensures DecodeText(b, offset, n) == DecodeText(a, offset, n)
  {
    hide Utf8.Decode;
    assert a[offset..offset + n] == b[offset..offset + n];
  }

  /** The outcome depends only on the bytes up to the reported end. */
  lemma {:induction false} Local(a: Bytes, b: Bytes, offset: nat)
    requires DecodeAt(a, offset).Ok? && Agree(a, b, DecodeAt(a, offset).value.end)
    ensures DecodeAt(b, offset) == DecodeAt(a, offset)
    decreases |a| - offset, 0
  {
    hide ReadHead, DecodeItems, DecodeEntries, Utf8.Decode;
    HeadLocal(a, b, offset);
    var h := ReadHead(a, offset).value;
    if h.major == 3 {
      TextLocal(a, b, h.next, h.arg);
    } else if h.major == 4 {
      LocalItems(a, b, h.next, h.arg);
    } else if h.major == 5 {
      LocalEntries(a, b, h.next, h.arg, []);
    }
  }

  lemma {:induction false} LocalItems(a: Bytes, b: Bytes, offset: nat, count: nat)
    requires offset <= |a| && DecodeItems(a, offset, count).Ok?
    requires Agree(a, b, DecodeItems(a, offset, count).value.end)
    ensures DecodeItems(b, offset, count) == DecodeItems(a, offset, count)
    decreases |a| - offset, 1
  {
    hide DecodeAt;
    if count > 0 {
      Local(a, b, offset);
      LocalItems(a, b, DecodeAt(a, offset).value.end, count - 1);
    }
  }

  lemma {:induction false} LocalEntries(a: Bytes, b: Bytes, offset: nat, count: nat, sofar: seq<Entry>)
    requires offset <= |a| && DecodeEntries(a, offset, count, sofar).Ok?
    requires Agree(a, b, DecodeEntries(a, offset, count, sofar).value.end)
    ensures DecodeEntries(b, offset, count, sofar) == DecodeEntries(a, offset, count, sofar)
    decreases |a| - offset, 1
  {
    hide DecodeAt, Hashable, DictSet;
    if count > 0 {
      var k := DecodeAt(a, offset).value;
      var v := DecodeAt(a, k.end).value;
      Local(a, b, offset);
      Local(a, b, k.end);
      LocalEntries(a, b, v.end, count - 1, DictSet(sofar, k.value, v.value));
    }
  }

  /** Success is unchanged by anything appended. */
  lemma AppendKeeps(data: Bytes, more: Bytes, offset: nat)
    requires DecodeAt(data, offset).Ok?
    ensures DecodeAt(data + more, offset) == DecodeAt(data, offset)
  {
    Local(data, data + more, offset);
  }

  // ---------- Truncation ----------

  predicate Truncated<T>(r: Result<T, DecodeError>) {
    r.Err? && (r.error == Empty || r.error == TruncatedArg || r.error == TruncatedText)
  }

  lemma HeadCut(data: Bytes, offset: nat, k: nat)
    requires ReadHead(data, offset).Ok? && k < ReadHead(data, offset).value.next
    ensures Truncated(ReadHead(data[..k], offset))
  {
    hide FromBigEndian;
  }

  /** A value cut anywhere before its end is reported as truncated, never misread. */
  lemma {:induction false} Cut(data: Bytes, offset: nat, k: nat)
    requires DecodeAt(data, offset).Ok? && k < DecodeAt(data, offset).value.end
    ensures Truncated(DecodeAt(data[..k], offset))
    decreases |data| - offset, 0
  {
    hide ReadHead, DecodeItems, DecodeEntries, Utf8.Decode;
    var h := ReadHead(data, offset).value;
    if k < h.next {
      HeadCut(data, offset, k);
    } else {
      HeadLocal(data, data[..k], offset);
      if h.major == 4 {
        CutItems(data, h.next, h.arg, k);
      } else if h.major == 5 {
        CutEntries(data, h.next, h.arg, [], k);
      }
    }
  }

  lemma {:induction false} CutItems(data: Bytes, offset: nat, count: nat, k: nat)
    requires offset <= k <= |data|
    requires DecodeItems(data, offset, count).Ok? && k < DecodeItems(data, offset, count).value.end
    ensures Truncated(DecodeItems(data[..k], offset, count))
    decreases |data| - offset, 1
  {
    hide DecodeAt;
    var v := DecodeAt(data, offset).value;
    if k < v.end {
      Cut(data, offset, k);
    } else {
      Local(data, data[..k], offset);
      CutItems(data, v.end, count - 1, k);
    }
  }

  lemma {:induction false} CutEntries(data: Bytes, offset: nat, count: nat, sofar: seq<Entry>, k: nat)
    requires offset <= k <= |data| && DecodeEntries(data, offset, count, sofar).Ok?
    requires k < DecodeEntries(data, offset, count, sofar).value.end
    ensures Truncated(DecodeEntries(data[..k], offset, count, sofar))
    decreases |data| - offset, 1
  {
    hide DecodeAt, DictSet, Hashable;
    var key := DecodeAt(data, offset).value;
    var v := DecodeAt(data, key.end).value;
    if k < key.end {
      Cut(data, offset, k);
    } else {
      Local(data, data[..k], offset);
      if k < v.end {
        Cut(data, key.end, k);
      } else {
        Local(data, data[..k], key.end);
        CutEntries(data, v.end, count - 1, DictSet(sofar, key.value, v.value), k);
      }
    }
  }

  /** No strict prefix of a complete message is accepted, whoever produced it. */
  lemma StrictPrefixRejected(data: Bytes, k: nat)
    requires Decode(data).Ok? && k < |data|
    ensures Truncated(Decode(data[..k]))
  {
    Cut(data, 0, k);
  }

  lemma EncodingCutRejected(v: Value, k: nat)
    requires PythonValue(v) && Encodable(v) && k < |Encode(v)|
    ensures Truncated(Decode(Encode(v)[..k]))
  {
    RoundTrip(v);
    StrictPrefixRejected(Encode(v), k);
  }

  // ---------- Size of the re-encoding ----------

  lemma {:induction false} FromBigEndianBound(b: Bytes)
    ensures FromBigEndian(b) < Pow256(|b|)
    decreases |b|
  {
    if b == [] {
    } else {
      FromBigEndianBound(b[..|b| - 1]);
    }
  }

  /** The shortest head is at most as long as the one that was read. */
  lemma HeadShortest(data: Bytes, offset: nat)
    requires ReadHead(data, offset).Ok?
    ensures var h := ReadHead(data, offset).value;
      h.arg < TWO64 && (h.major <= 1 || 3 <= h.major <= 5 ==> |Head(h.major, h.arg)| <= h.next - offset)
  {
    hide FromBigEndian;
    Powers();
    var h := ReadHead(data, offset).value;
    FromBigEndianBound(data[offset + 1..h.next]);
    assert h.next == offset + 1 || h.major == 7 || h.arg == FromBigEndian(data[offset + 1..h.next]);
  }

  predicate Read(e: Entry) {
    Hashable(e.key) && Fits(e.key) && PythonValue(e.value) && Fits(e.value)
  }

  /** A dict built by assignments: Python's guarantees hold and nothing grew. */
  lemma {:induction false} SetKeeps(es: seq<Entry>, k: Value, v: Value)
    requires DistinctKeys(es) && Hashable(k)
    ensures DistinctKeys(DictSet(es, k, v))
    ensures forall i :: 0 <= i < |DictSet(es, k, v)| ==>
      KeyEq(DictSet(es, k, v)[i].key, k) || exists j :: 0 <= j < |es| && es[j].key == DictSet(es, k, v)[i].key
  {
    if es == [] {
    } else if KeyEq(es[0].key, k) {
      var r := DictSet(es, k, v);
      assert forall i :: 0 <= i < |es| ==> r[i].key == es[i].key;
    } else {
      var rest, tail := es[1..], DictSet(es[1..], k, v);
      assert forall i :: 0 <= i < |rest| ==> rest[i] == es[i + 1];
      SetKeeps(rest, k, v);
      var r := DictSet(es, k, v);
      assert forall i :: 0 < i < |r| ==> r[i] == tail[i - 1];
      forall j | 0 < j < |r|
        ensures Hashable(r[j].key) && !KeyEq(r[0].key, r[j].key)
        ensures KeyEq(r[j].key, k) || exists m :: 0 <= m < |es| && es[m].key == r[j].key
      {
        if !KeyEq(tail[j - 1].key, k) {
          var m :| 0 <= m < |rest| && rest[m].key == tail[j - 1].key;
          assert es[m + 1].key == r[j].key;
        }
      }
    }
  }

  lemma {:induction false} SetReads(es: seq<Entry>, k: Value, v: Value)
    requires forall e :: e in es ==> Read(e)
    requires Read(Entry(k, v))
    ensures forall e :: e in DictSet(es, k, v) ==> Read(e)
  {
    hide Fits, PythonValue, KeyEq;
    if es == [] {
    } else if KeyEq(es[0].key, k) {
      assert es[0] in es;
    } else {
      SetReads(es[1..], k, v);
    }
  }

  lemma {:induction false} SetLength(es: seq<Entry>, k: Value, v: Value)
    ensures |EncodeEntries(DictSet(es, k, v))| <= |EncodeEntries(es)| + |Encode(k)| + |Encode(v)|
  {
    hide Encode, KeyEq;
    if es == [] {
      assert EncodeEntries([Entry(k, v)]) == Encode(k) + Encode(v) + EncodeEntries([]);
    } else if KeyEq(es[0].key, k) {
      assert DictSet(es, k, v)[1..] == es[1..];
    } else {
      SetLength(es[1..], k, v);
      assert DictSet(es, k, v)[1..] == DictSet(es[1..], k, v);
    }
  }

  lemma {:induction false} PlaceLength(e: Entry, es: seq<Entry>)
    ensures |EncodeEntries(Place(e, es, ByKey))| == |Encode(e.key)| + |Encode(e.value)| + |EncodeEntries(es)|
  {
    hide Encode, KeyLess;
    if es == [] || !KeyLess(es[0].key, e.key) {
      assert Place(e, es, ByKey)[1..] == es;
    } else {
      PlaceLength(e, es[1..]);
      assert Place(e, es, ByKey)[1..] == Place(e, es[1..], ByKey);
    }
  }

  lemma {:induction false} SortLength(es: seq<Entry>)
    ensures |EncodeEntries(SortEntries(es))| == |EncodeEntries(es)|
  {
    hide Encode;
    if es == [] {
    } else {
      SortLength(es[1..]);
      PlaceLength(es[0], SortEntries(es[1..]));
    }
  }

  predicate Sound(v: Value, size: int) {
    PythonValue(v) && Fits(v) && |Encode(v)| <= size
  }

  /** Whatever is decoded is a Python value within the numeric limits, and its encoding takes
      at most the bytes that were read for it. */
  lemma {:induction false} DecodedSound(data: Bytes, offset: nat)
    requires DecodeAt(data, offset).Ok?
    ensures Sound(DecodeAt(data, offset).value.value, DecodeAt(data, offset).value.end - offset)
    decreases |data| - offset, 0
  {
    hide ReadHead, DecodeItems, DecodeEntries, Utf8.Decode, Head;
    HeadShortest(data, offset);
    var h := ReadHead(data, offset).value;
    if h.major == 3 {
      Utf8.DecodeUnique(data[h.next..h.next + h.arg]);
    } else if h.major == 4 {
      ItemsSound(data, h.next, h.arg);
    } else if h.major == 5 {
      EntriesSound(data, h.next, h.arg, []);
      var es := DecodeEntries(data, h.next, h.arg, []).value.value;
      DictSound(es, h.arg, DecodeEntries(data, h.next, h.arg, []).value.end - h.next);
    }
  }

  lemma DictSound(es: seq<Entry>, n: nat, size: int)
    requires DistinctKeys(es) && |es| <= n < TWO64
    requires forall e :: e in es ==> Read(e)
    requires |EncodeEntries(es)| <= size
    ensures Sound(Dict(es), |Head(5, n)| + size)
  {
    assert |Head(5, |es|)| <= |Head(5, n)|;
    hide Head, EncodeEntries, SortEntries;
    SortLength(es);
    assert forall i :: 0 <= i < |es| ==> es[i] in es;
  }

  lemma {:induction false} ItemsSound(data: Bytes, offset: nat, count: nat)
    requires offset <= |data| && DecodeItems(data, offset, count).Ok?
    ensures var r := DecodeItems(data, offset, count).value;
      && |r.value| == count
      && (forall i :: 0 <= i < count ==> PythonValue(r.value[i]) && Fits(r.value[i]))
      && |EncodeItems(r.value)| <= r.end - offset
    decreases |data| - offset, 1
  {
    hide DecodeAt, Encode, PythonValue, Fits;
    if count > 0 {
      var v := DecodeAt(data, offset).value;
      DecodedSound(data, offset);
      ItemsSound(data, v.end, count - 1);
      var vs := DecodeItems(data, v.end, count - 1).value.value;
      assert ([v.value] + vs)[1..] == vs;
    }
  }

  lemma {:induction false} EntriesSound(data: Bytes, offset: nat, count: nat, sofar: seq<Entry>)
    requires offset <= |data| && DecodeEntries(data, offset, count, sofar).Ok?
    requires DistinctKeys(sofar) && forall e :: e in sofar ==> Read(e)
    ensures var r := DecodeEntries(data, offset, count, sofar).value;
      && DistinctKeys(r.value)
      && |r.value| <= |sofar| + count
      && (forall e :: e in r.value ==> Read(e))
      && |EncodeEntries(r.value)| <= |EncodeEntries(sofar)| + r.end - offset
    decreases |data| - offset, 1
  {
    hide DecodeAt, Encode, PythonValue, Fits, DistinctKeys, EncodeEntries, DictSet;
    if count > 0 {
      var k := DecodeAt(data, offset).value;
      var v := DecodeAt(data, k.end).value;
      DecodedSound(data, offset);
      DecodedSound(data, k.end);
      SetKeeps(sofar, k.value, v.value);
      SetReads(sofar, k.value, v.value);
      SetLength(sofar, k.value, v.value);
      EntriesSound(data, v.end, count - 1, DictSet(sofar, k.value, v.value));
    }
  }

  // ---------- The normal form ----------

  /** Every accepted message has a normal form: never longer, equal in value, and fixed. The
      one thing that can stand in the way is a dict whose keys cannot be sorted. */
  lemma NormalForm(data: Bytes)
    requires Decode(data).Ok?
    ensures var v := Decode(data).value;
      && PythonValue(v) && |Encode(v)| <= |data|
      && (Encodable(v) <==> Sortable(v))
      && (Sortable(v) ==>
            && Decode(Encode(v)) == Ok(Canon(v))
            && Same(v, Canon(v))
            && Encode(Canon(v)) == Encode(v))
  {
    hide Canon, Encode, Same, DecodeAt, PythonValue, Sortable, Fits;
    DecodedSound(data, 0);
    var v := Decode(data).value;
    if Sortable(v) {
      RoundTrip(v);
      CanonKeeps(v);
      EncodeSame(v, Canon(v));
    }
  }

  const MIXED: Bytes := [0xA2, 0x00, 0x00, 0x60, 0x00]
  const ZERO := Int(0)
  const NO_TEXT := Text("")

  lemma MixedItems()
    ensures DecodeAt(MIXED, 1) == Ok(Found(ZERO, 2)) && DecodeAt(MIXED, 2) == Ok(Found(ZERO, 3))
    ensures DecodeAt(MIXED, 3) == Ok(Found(NO_TEXT, 4)) && DecodeAt(MIXED, 4) == Ok(Found(ZERO, 5))
  {
    assert ReadHead(MIXED, 1) == Ok(Initial(0, 0, 2)) && ReadHead(MIXED, 2) == Ok(Initial(0, 0, 3));
    assert ReadHead(MIXED, 3) == Ok(Initial(3, 0, 4)) && MIXED[4..4] == [];
    assert ReadHead(MIXED, 4) == Ok(Initial(0, 0, 5));
  }

  lemma MixedEntries()
    ensures DecodeEntries(MIXED, 1, 2, []) == Ok(Found([Entry(ZERO, ZERO), Entry(NO_TEXT, ZERO)], 5))
  {
    hide DecodeAt, ReadHead, MIXED;
    MixedItems();
    var one, es := [Entry(ZERO, ZERO)], [Entry(ZERO, ZERO), Entry(NO_TEXT, ZERO)];
    NoEntries(MIXED, 5, es);
    SetNew(one, NO_TEXT, ZERO);
    assert one + [Entry(NO_TEXT, ZERO)] == es;
    EntryStep(MIXED, 3, 0, one, NO_TEXT, 4, ZERO, 5);
    SetNew([], ZERO, ZERO);
    assert [] + one == one;
    EntryStep(MIXED, 1, 1, [], ZERO, 2, ZERO, 3);
  }

  /** A message that is accepted and yet has no encoding: a dict with one number key and one
      text key. */
  lemma UnsortableAccepted()
    ensures exists data: Bytes :: Decode(data).Ok? && !Sortable(Decode(data).value)
  {
    MixedEntries();
    hide DecodeEntries;
    var es := [Entry(ZERO, ZERO), Entry(NO_TEXT, ZERO)];
    assert ReadHead(MIXED, 0) == Ok(Initial(5, 2, 1));
    assert DecodeAt(MIXED, 0) == Ok(Found(Dict(es), 5));
    assert !Comparable(es[0].key, es[1].key) && !OneKeyKind(es);
    assert Decode(MIXED) == Ok(Dict(es));
  }
}
