/** What stands on the wire, byte for byte, in the terms of section 3 of RFC 8949: the major type in
    the high three bits of the initial byte, the argument in the low five or in the bytes after it. */
module CborBytes {
  import opened Wrappers
  import opened Cbor
  import opened CborRoundTrip
  import Utf8

  /** Two, four and eight bytes as a number, the most significant byte first. */
  function Half(data: Bytes, at: nat): int
    requires at + 2 <= |data|
  {
    data[at] as int * 0x100 + data[at + 1] as int
  }

  function Word(data: Bytes, at: nat): int
    requires at + 4 <= |data|
  {
    Half(data, at) * 0x1_0000 + Half(data, at + 2)
  }

  function Double(data: Bytes, at: nat): int
    requires at + 8 <= |data|
  {
    Word(data, at) * 0x1_0000_0000 + Word(data, at + 4)
  }

  /** The low five bits and the bytes from `at` on give the argument n, and `next` is after them. */
  predicate Argument(data: Bytes, at: nat, low: int, n: int, next: int) {
    if low < 24 then n == low && next == at
    else if low == 24 then at + 1 <= |data| && n == data[at] && next == at + 1
    else if low == 25 then at + 2 <= |data| && n == Half(data, at) && next == at + 2
    else if low == 26 then at + 4 <= |data| && n == Word(data, at) && next == at + 4
    else low == 27 && at + 8 <= |data| && n == Double(data, at) && next == at + 8
  }

  /** An item of the major type with the argument n starts at `offset`, and its head ends at `next`. */
  predicate Announces(data: Bytes, offset: nat, major: int, n: int, next: int) {
    offset < |data| && data[offset] / 32 == major && Argument(data, offset + 1, data[offset] % 32, n, next)
  }

  /** The least size of a head. */
  function HeadSize(n: nat): nat {
    if n < 24 then 1 else if n < 0x100 then 2 else if n < 0x1_0000 then 3 else if n < 0x1_0000_0000 then 5 else 9
  }

  // ---------- The head ----------

  lemma {:induction false} BigEndianParts(a: Bytes, b: Bytes)
    ensures FromBigEndian(a + b) == FromBigEndian(a) * Pow256(|b|) + FromBigEndian(b)
    decreases |b|
  {
    if b == [] {
      assert a + b == a;
    } else {
      var front := b[..|b| - 1];
      assert (a + b)[..|a + b| - 1] == a + front;
      BigEndianParts(a, front);
      assert FromBigEndian(a) * (256 * Pow256(|front|)) == 256 * (FromBigEndian(a) * Pow256(|front|));
    }
  }

  lemma FromHalf(b: Bytes)
    requires |b| == 2
    ensures FromBigEndian(b) == Half(b, 0)
  {
    assert b[..1] == [b[0]] && b[..1][..0] == [];
    assert FromBigEndian([b[0]]) == b[0];
  }

  lemma FromWord(b: Bytes)
    requires |b| == 4
    ensures FromBigEndian(b) == Word(b, 0)
  {
    assert b == b[..2] + b[2..];
    BigEndianParts(b[..2], b[2..]);
    Powers();
    FromHalf(b[..2]);
    FromHalf(b[2..]);
  }

  lemma FromDouble(b: Bytes)
    requires |b| == 8
    ensures FromBigEndian(b) == Double(b, 0)
  {
    assert b == b[..4] + b[4..];
    BigEndianParts(b[..4], b[4..]);
    Powers();
    FromWord(b[..4]);
    FromWord(b[4..]);
  }

  lemma FromBytes(data: Bytes, at: nat)
    ensures at + 1 <= |data| ==> FromBigEndian(data[at..at + 1]) == data[at]
    ensures at + 2 <= |data| ==> FromBigEndian(data[at..at + 2]) == Half(data, at)
    ensures at + 4 <= |data| ==> FromBigEndian(data[at..at + 4]) == Word(data, at)
    ensures at + 8 <= |data| ==> FromBigEndian(data[at..at + 8]) == Double(data, at)
  {
    if at + 1 <= |data| {
      assert data[at..at + 1] == [data[at]] && [data[at]][..0] == [];
    }
    hide FromBigEndian;
    if at + 2 <= |data| {
      FromHalf(data[at..at + 2]);
    }
    if at + 4 <= |data| {
      FromWord(data[at..at + 4]);
    }
    if at + 8 <= |data| {
      FromDouble(data[at..at + 8]);
    }
  }

  /** The decoder reads the argument that the bytes give, and fails exactly if they give none. */
  lemma ArgumentRead(data: Bytes, at: nat, low: nat, n: int, next: int)
    requires at <= |data| && low < 32
    ensures Argument(data, at, low, n, next) <==>
      n >= 0 && next >= 0 && ReadArg(data, at, low) == Ok(Found(n, next))
    ensures ReadArg(data, at, low).Err? ==>
      ReadArg(data, at, low).error == if low >= 28 then ReservedLength else TruncatedArg
  {
    FromBytes(data, at);
    hide FromBigEndian, Half, Word, Double;
  }

  predicate Counted(major: int) {
    0 <= major <= 1 || 3 <= major <= 5
  }

  lemma HeadAnnounces(data: Bytes, offset: nat, major: int, n: int, next: int)
    requires Counted(major)
    ensures Announces(data, offset, major, n, next) <==>
      n >= 0 && next >= 0 && ReadHead(data, offset) == Ok(Initial(major, n, next))
  {
    if offset < |data| {
      ArgumentRead(data, offset + 1, data[offset] % 32, n, next);
    }
    hide Argument, ReadArg;
  }

  // ---------- What a decoder's answer means ----------

  /** The number of argument bytes that the low five bits ask for. */
  function ArgSize(low: int): nat {
    if low < 24 then 0 else if low == 24 then 1 else if low == 25 then 2 else if low == 26 then 4 else 8
  }

  /** The bytes that a decoded value was read from. */
  ghost predicate ReadFrom(data: Bytes, offset: nat, v: Value, end: int) {
    match v
    case Bool(b) => offset < |data| && data[offset] == (if b then 0xF5 else 0xF4) && end == offset + 1
    case Int(n) => Announces(data, offset, if n >= 0 then 0 else 1, if n >= 0 then n else -1 - n, end)
    case Text(s) =>
      && Announces(data, offset, 3, |Utf8.Encode(s)|, end - |Utf8.Encode(s)|)
      && 0 <= end - |Utf8.Encode(s)| && end <= |data| && data[end - |Utf8.Encode(s)|..end] == Utf8.Encode(s)
    case List(items) => exists next :: Announces(data, offset, 4, |items|, next)
    case Dict(es) => exists n, next :: Announces(data, offset, 5, n, next) && |es| <= n
  }

  /** What the initial byte and the bytes after it make of the answer. */
  ghost predicate HeadDecides(data: Bytes, offset: nat, r: Result<Found<Value>, DecodeError>) {
    if offset >= |data| then r == Err(Empty)
    else
      var major, low := data[offset] / 32, data[offset] % 32;
      if data[offset] == 0xF4 then r == Ok(Found(Bool(false), offset + 1))
      else if data[offset] == 0xF5 then r == Ok(Found(Bool(true), offset + 1))
      else if major == 2 || major == 6 || major == 7 then r == Err(UnsupportedMajor)
      else if low >= 28 then r == Err(ReservedLength)
      else if offset + 1 + ArgSize(low) > |data| then r == Err(TruncatedArg)
      else
        && (forall n, next: nat :: Announces(data, offset, 0, n, next) ==> r == Ok(Found(Int(n), next)))
        && (forall n, next: nat :: Announces(data, offset, 1, n, next) ==> r == Ok(Found(Int(-1 - n), next)))
        && (forall n, next: nat :: Announces(data, offset, 3, n, next) && next + n > |data| ==> r == Err(TruncatedText))
  }

  lemma TextBody(data: Bytes, next: nat, n: nat)
    requires next <= |data|
    ensures match DecodeText(data, next, n)
      case Ok(found) =>
        && found.value.Text? && found.end == next + n <= |data|
        && Utf8.Encode(found.value.s) == data[next..next + n] && |Utf8.Encode(found.value.s)| == n
      case Err(e) => next + n > |data| ==> e == TruncatedText
  {
    hide Utf8.Decode, Utf8.Encode;
    if next + n <= |data| && Utf8.Decode(data[next..next + n]).Some? {
      Utf8.DecodeUnique(data[next..next + n]);
    }
  }

  /** What the decoder goes on with after the head. */
  lemma AfterHead(data: Bytes, offset: nat, major: nat, n: nat, next: nat)
    requires ReadHead(data, offset) == Ok(Initial(major, n, next)) && Counted(major)
    ensures offset < next <= |data|
    ensures major <= 1 ==> DecodeAt(data, offset) == Ok(Found(Int(if major == 0 then n else -1 - n), next))
    ensures major == 3 ==> DecodeAt(data, offset) == DecodeText(data, next, n)
    ensures major == 4 ==>
      match DecodeItems(data, next, n)
      case Ok(items) => DecodeAt(data, offset) == Ok(Found(List(items.value), items.end))
      case Err(e) => DecodeAt(data, offset) == Err(e)
    ensures major == 5 ==>
      match DecodeEntries(data, next, n, [])
      case Ok(es) => DecodeAt(data, offset) == Ok(Found(Dict(es.value), es.end))
      case Err(e) => DecodeAt(data, offset) == Err(e)
  {
    hide ReadHead, DecodeText, DecodeItems, DecodeEntries;
  }

  lemma {:induction false} ItemsCount(data: Bytes, offset: nat, count: nat)
    requires offset <= |data|
    ensures DecodeItems(data, offset, count).Ok? ==> |DecodeItems(data, offset, count).value.value| == count
    decreases count
  {
    hide DecodeAt;
    if count > 0 && DecodeAt(data, offset).Ok? {
      ItemsCount(data, DecodeAt(data, offset).value.end, count - 1);
    }
  }

  lemma {:induction false} EntriesCount(data: Bytes, offset: nat, count: nat, sofar: seq<Entry>)
    requires offset <= |data|
    ensures DecodeEntries(data, offset, count, sofar).Ok? ==>
      |DecodeEntries(data, offset, count, sofar).value.value| <= |sofar| + count
    decreases count
  {
    hide DecodeAt, DictSet, Hashable;
    if count > 0 && DecodeAt(data, offset).Ok? {
      var k := DecodeAt(data, offset).value;
      if DecodeAt(data, k.end).Ok? && Hashable(k.value) {
        var v := DecodeAt(data, k.end).value;
        EntriesCount(data, v.end, count - 1, DictSet(sofar, k.value, v.value));
      }
    }
  }

  /** The head of an item that is not a boolean, and what the decoder makes of it. */
  lemma HeadRules(data: Bytes, offset: nat)
    requires offset < |data| && data[offset] != 0xF4 && data[offset] != 0xF5
    ensures var major, low := data[offset] / 32, data[offset] % 32;
      match ReadHead(data, offset)
      case Ok(Initial(m, n, next)) => m == major && Counted(m) && low < 28 && offset + 1 + ArgSize(low) <= |data|
      case Err(e) =>
        if !Counted(major) then e == UnsupportedMajor
        else if low >= 28 then e == ReservedLength
        else e == TruncatedArg && offset + 1 + ArgSize(low) > |data|
  {
    var major, low := data[offset] / 32, data[offset] % 32;
    assert major == 7 ==> low != 20 && low != 21;
    hide FromBigEndian;
  }

  /** What the decoder answers says what stood there, and the head says what it must answer. */
  lemma DecodedFrom(data: Bytes, offset: nat)
    ensures HeadDecides(data, offset, DecodeAt(data, offset))
    ensures DecodeAt(data, offset).Ok? ==>
      ReadFrom(data, offset, DecodeAt(data, offset).value.value, DecodeAt(data, offset).value.end)
  {
    if offset >= |data| {
    } else if data[offset] == 0xF4 || data[offset] == 0xF5 {
      assert data[offset] / 32 == 7 && data[offset] % 32 == if data[offset] == 0xF5 then 21 else 20;
    } else {
      HeadRules(data, offset);
      if ReadHead(data, offset).Ok? {
        var head := ReadHead(data, offset).value;
        DecodedBody(data, offset);
        BodyRead(data, offset, head.major, head.arg, head.next);
      }
    }
  }

  /** There is one way to read a head. */
  lemma OneHead(data: Bytes, offset: nat, major: nat, n: nat, next: nat)
    requires ReadHead(data, offset) == Ok(Initial(major, n, next)) && Counted(major)
    ensures Announces(data, offset, major, n, next)
    ensures forall m, other, more: nat :: Counted(m) && Announces(data, offset, m, other, more) ==>
      m == major && other == n && more == next
  {
    HeadAnnounces(data, offset, major, n, next);
    forall m, other: int, more: nat | Counted(m) && Announces(data, offset, m, other, more)
      ensures m == major && other == n && more == next
    {
      HeadAnnounces(data, offset, m, other, more);
    }
  }

  lemma BodyRead(data: Bytes, offset: nat, major: nat, n: nat, next: nat)
    requires ReadHead(data, offset) == Ok(Initial(major, n, next)) && Counted(major)
    ensures DecodeAt(data, offset).Ok? ==>
      ReadFrom(data, offset, DecodeAt(data, offset).value.value, DecodeAt(data, offset).value.end)
  {
    OneHead(data, offset, major, n, next);
    AfterHead(data, offset, major, n, next);
    hide ReadHead, Announces, DecodeAt, DecodeText, DecodeItems, DecodeEntries, Utf8.Encode;
    if major == 3 {
      TextBody(data, next, n);
    } else if major == 4 {
      ItemsCount(data, next, n);
    } else if major == 5 {
      EntriesCount(data, next, n, []);
    }
  }

  lemma DecodedBody(data: Bytes, offset: nat)
    requires offset < |data| && data[offset] != 0xF4 && data[offset] != 0xF5
    requires ReadHead(data, offset).Ok? && Counted(ReadHead(data, offset).value.major)
    ensures HeadDecides(data, offset, DecodeAt(data, offset))
  {
    HeadRules(data, offset);
    var Initial(major, n, next) := ReadHead(data, offset).value;
    OneHead(data, offset, major, n, next);
    AfterHead(data, offset, major, n, next);
    hide ReadHead, Announces, DecodeAt, DecodeText, DecodeItems, DecodeEntries, Utf8.Encode, ArgSize;
    if major == 3 {
      TextBody(data, next, n);
    }
  }

  // ---------- What an encoder's answer means ----------

  /** The head has the least size and announces the major type and the argument. */
  predicate Headed(data: Bytes, major: int, n: nat) {
    HeadSize(n) <= |data| && Announces(data, 0, major, n, HeadSize(n))
  }

  /** The bytes that a value is written as: the shortest head, and for a text its UTF-8 bytes. */
  predicate WrittenAs(v: Value, data: Bytes) {
    match v
    case Bool(b) => data == [if b then 0xF5 else 0xF4]
    case Int(n) =>
      if n >= 0 then Headed(data, 0, n) && |data| == HeadSize(n)
      else Headed(data, 1, -1 - n) && |data| == HeadSize(-1 - n)
    case Text(s) => Headed(data, 3, |Utf8.Encode(s)|) && data[HeadSize(|Utf8.Encode(s)|)..] == Utf8.Encode(s)
    case List(items) => Headed(data, 4, |items|)
    case Dict(es) => Headed(data, 5, |es|)
  }

  lemma HeadWritten(major: nat, n: nat, rest: Bytes)
    requires Counted(major) && n < TWO64
    ensures |Head(major, n)| == HeadSize(n) && Headed(Head(major, n) + rest, major, n)
  {
    var data := Head(major, n) + rest;
    HeadRead(data, 0, major, n);
    HeadAnnounces(data, 0, major, n, |Head(major, n)|);
    hide ReadHead, Announces, BigEndian;
  }

  lemma Written(v: Value)
    requires Encodable(v)
    ensures WrittenAs(v, Encode(v))
  {
    hide Headed, Head, EncodeItems, EncodeEntries, SortEntries, Utf8.Encode;
    match v
    case Bool(_) =>
    case Int(n) =>
      HeadWritten(if n >= 0 then 0 else 1, if n >= 0 then n else -1 - n, []);
      assert Encode(v) + [] == Encode(v);
    case Text(s) => HeadWritten(3, |Utf8.Encode(s)|, Utf8.Encode(s));
    case List(items) => HeadWritten(4, |items|, EncodeItems(items));
    case Dict(es) => HeadWritten(5, |es|, EncodeEntries(SortEntries(es)));
  }
}
