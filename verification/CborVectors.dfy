/** Known encodings: examples of appendix A of RFC 8949, and a message with a repeated key. */
module CborVectors {
  import opened Orders
  import opened Sorting
  import opened Wrappers
  import opened Cbor
  import opened CborRoundTrip

  lemma Scalars()
    ensures Encode(Int(0)) == [0x00] && Encode(Int(23)) == [0x17] && Encode(Int(24)) == [0x18, 0x18]
    ensures Encode(Int(1000)) == [0x19, 0x03, 0xE8] && Encode(Int(1000000)) == [0x1A, 0x00, 0x0F, 0x42, 0x40]
    ensures Encode(Int(-1)) == [0x20] && Encode(Int(-100)) == [0x38, 0x63] && Encode(Int(-1000)) == [0x39, 0x03, 0xE7]
    ensures Encode(Bool(false)) == [0xF4] && Encode(Bool(true)) == [0xF5]
    ensures Encode(Text("")) == [0x60] && Encode(Text("a")) == [0x61, 0x61]
  {
    assert BigEndian(1000, 2) == [0x03, 0xE8] && BigEndian(999, 2) == [0x03, 0xE7];
    assert BigEndian(15, 2) == [0x00, 0x0F] && BigEndian(3906, 3) == [0x00, 0x0F, 0x42];
    assert BigEndian(1000000, 4) == [0x00, 0x0F, 0x42, 0x40];
    assert "a"[1..] == "";
  }

  lemma Lists()
    ensures Encode(List([])) == [0x80] && Encode(Dict([])) == [0xA0]
    ensures Encode(List([Int(1), List([Int(2), Int(3)])])) == [0x82, 0x01, 0x82, 0x02, 0x03]
  {
    var inner := [Int(2), Int(3)];
    assert inner[1..] == [Int(3)] && inner[1..][1..] == [];
    assert Encode(List(inner)) == [0x82, 0x02, 0x03];
    var outer := [Int(1), List(inner)];
    assert outer[1..] == [List(inner)] && outer[1..][1..] == [];
  }

  lemma SortTwo(e: Entry, f: Entry)
    requires KeyLess(e.key, f.key)
    ensures SortEntries([f, e]) == [e, f]
  {
    assert [f, e][1..] == [e] && [e][1..] == [];
    assert Sort([e], ByKey) == [e];
    assert Place(f, [e], ByKey) == [e] + Place(f, [], ByKey);
  }

  /** A dict of two entries: a head, then the entry of the smaller key, each key before its value. */
  lemma DictOfTwo(e: Entry, f: Entry)
    requires KeyLess(e.key, f.key)
    ensures Encode(Dict([f, e])) == [0xA2] + (Encode(e.key) + Encode(e.value) + (Encode(f.key) + Encode(f.value)))
  {
    SortTwo(e, f);
    assert Encode(Dict([f, e])) == Head(5, 2) + EncodeEntries([e, f]);
    assert Head(5, 2) == [0xA2];
    hide Encode, SortEntries, Head;
    assert [e, f][1..] == [f] && [f][1..] == [];
    EntriesCons([e, f]);
    EntriesCons([f]);
    assert EncodeEntries([]) == [];
    assert Encode(f.key) + Encode(f.value) + [] == Encode(f.key) + Encode(f.value);
  }

  /** The same for entries that stand in order already. */
  lemma DictInOrder(e: Entry, f: Entry)
    requires KeyLess(e.key, f.key) && !KeyLess(f.key, e.key)
    ensures Encode(Dict([e, f])) == [0xA2] + (Encode(e.key) + Encode(e.value) + (Encode(f.key) + Encode(f.value)))
  {
    DictOfTwo(e, f);
    SortTwo(e, f);
    assert [e, f][1..] == [f] && [f][1..] == [];
    assert Sort([f], ByKey) == [f];
    assert SortEntries([e, f]) == [e, f];
    hide SortEntries, EncodeEntries;
    assert Encode(Dict([e, f])) == Encode(Dict([f, e]));
  }

  lemma OneByteEach()
    ensures Encode(Int(1)) == [0x01] && Encode(Int(2)) == [0x02] && Encode(Int(3)) == [0x03] && Encode(Int(4)) == [0x04]
    ensures Encode(Text("a")) == [0x61, 0x61] && Encode(Text("b")) == [0x61, 0x62]
    ensures Encode(Bool(true)) == [0xF5] && KeyLess(Text("a"), Text("b"))
  {
    assert Codes("a") == [97] && Codes("b") == [98];
    assert "a"[1..] == "" && "b"[1..] == "";
  }

  /** Insertion order does not show: {"b": 2, "a": true} is written with "a" first. */
  lemma Dicts()
    ensures Encode(Dict([Entry(Int(3), Int(4)), Entry(Int(1), Int(2))])) == [0xA2, 0x01, 0x02, 0x03, 0x04]
    ensures Encode(Dict([Entry(Text("b"), Int(2)), Entry(Text("a"), Bool(true))]))
         == [0xA2, 0x61, 0x61, 0xF5, 0x61, 0x62, 0x02]
  {
    OneByteEach();
    DictOfTwo(Entry(Int(1), Int(2)), Entry(Int(3), Int(4)));
    DictOfTwo(Entry(Text("a"), Bool(true)), Entry(Text("b"), Int(2)));
    hide Encode;
  }

  lemma KeySetTwice()
    ensures DictSet([], Bool(true), Int(2)) == [Entry(Bool(true), Int(2))]
    ensures DictSet([Entry(Bool(true), Int(2))], Int(5), Int(0)) == [Entry(Bool(true), Int(2)), Entry(Int(5), Int(0))]
    ensures DictSet([Entry(Bool(true), Int(2)), Entry(Int(5), Int(0))], Int(1), Int(3))
         == [Entry(Bool(true), Int(3)), Entry(Int(5), Int(0))]
  {
    assert [Entry(Bool(true), Int(2))][1..] == [];
  }

  /** {true: 2, 5: 0, 1: 3}: the number 1 is the key true again, which keeps its place and its
      spelling and takes the later value. */
  lemma RepeatedKey()
    ensures Decode([0xA3, 0xF5, 0x02, 0x05, 0x00, 0x01, 0x03])
         == Ok(Dict([Entry(Bool(true), Int(3)), Entry(Int(5), Int(0))]))
  {
    var data := [0xA3, 0xF5, 0x02, 0x05, 0x00, 0x01, 0x03];
    KeySetTwice();
    hide DictSet, DecodeEntries, DecodeItems, DecodeText, FromBigEndian;
    var two := [Entry(Bool(true), Int(2)), Entry(Int(5), Int(0))];
    EntryStep(data, 5, 0, two, Int(1), 6, Int(3), 7);
    EntryStep(data, 3, 1, [Entry(Bool(true), Int(2))], Int(5), 4, Int(0), 5);
    EntryStep(data, 1, 2, [], Bool(true), 2, Int(2), 3);
    NoEntries(data, 7, [Entry(Bool(true), Int(3)), Entry(Int(5), Int(0))]);
  }

  /** True and numbers sort together, as 1 does; texts do not sort with them. */
  lemma NumbersSort()
    ensures Encodable(Dict([Entry(Bool(true), Int(1)), Entry(Int(0), Int(2))]))
    ensures Encode(Dict([Entry(Bool(true), Int(1)), Entry(Int(0), Int(2))])) == [0xA2, 0x00, 0x02, 0xF5, 0x01]
    ensures !Encodable(Dict([Entry(Bool(true), Int(1)), Entry(Text("a"), Int(2))]))
  {
    OneByteEach();
    assert Encode(Int(0)) == [0x00];
    DictOfTwo(Entry(Int(0), Int(2)), Entry(Bool(true), Int(1)));
    hide Encode;
    var mixed := [Entry(Bool(true), Int(1)), Entry(Text("a"), Int(2))];
    assert !Comparable(mixed[0].key, mixed[1].key);
  }
}
