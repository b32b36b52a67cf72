/** The values of the wire protocol and the functions that say what the CBOR encoder and
    decoder compute. The loops of the source are in module CborCodec. */
module Cbor {
  import opened Orders
  import opened Sorting
  import opened Wrappers
  import Utf8

  type Byte = Utf8.Byte
  type Bytes = seq<Byte>

  /** A value the encoder handles. A Python dict is its entries in insertion order. */
  datatype Value =
    | Bool(b: bool)
    | Int(n: int)
    | Text(s: string)
    | List(items: seq<Value>)
    | Dict(entries: seq<Entry>)

  datatype Entry = Entry(key: Value, value: Value)

  datatype DecodeError =
    | Empty | ReservedLength | TruncatedArg | TruncatedText | BadText
    | UnhashableKey | UnsupportedMajor | Trailing | RootNotMap

  /** A value read from the input, and the offset just after it. */
  datatype Found<+T> = Found(value: T, end: nat)

  /** An initial byte with its argument, and the offset of what follows. */
  datatype Initial = Initial(major: int, arg: nat, next: nat)

  const TWO64: int := 0x1_0000_0000_0000_0000

  // ---------- Dictionary keys ----------

  predicate IsNumber(k: Value) {
    k.Int? || k.Bool?
  }

  predicate Hashable(k: Value) {
    IsNumber(k) || k.Text?
  }

  /** True counts as 1 and False as 0, both in equality and in comparison. */
  function Number(k: Value): int
    requires IsNumber(k)
  {
    match k
    case Int(n) => n
    case Bool(b) => if b then 1 else 0
  }

  /** Two keys that one dict cannot hold side by side. */
  predicate KeyEq(a: Value, b: Value) {
    if IsNumber(a) && IsNumber(b) then Number(a) == Number(b) else a == b
  }

  /** Keys that `<` can compare; any other pair raises TypeError. */
  predicate Comparable(a: Value, b: Value) {
    (IsNumber(a) && IsNumber(b)) || (a.Text? && b.Text?)
  }

  predicate KeyLess(a: Value, b: Value) {
    if IsNumber(a) && IsNumber(b) then Number(a) < Number(b)
    else a.Text? && b.Text? && TextLess(a.s, b.s)
  }

  /** `d[k] = v`: an equal key keeps its place and its first spelling. */
  function DictSet(es: seq<Entry>, k: Value, v: Value): (r: seq<Entry>)
    ensures |es| <= |r| <= |es| + 1
  {
    if es == [] then [Entry(k, v)]
    else if KeyEq(es[0].key, k) then [Entry(es[0].key, v)] + es[1..]
    else [es[0]] + DictSet(es[1..], k, v)
  }

  // ---------- Sorting by key ----------

  predicate ByKey(a: Entry, b: Entry) {
    KeyLess(a.key, b.key)
  }

  function SortEntries(es: seq<Entry>): (r: seq<Entry>)
    ensures |r| == |es|
  {
    SortKeeps(es, ByKey);
    Sort(es, ByKey)
  }

  lemma SortedFrom(es: seq<Entry>, e: Entry)
    ensures e in SortEntries(es) <==> e in es
  {
    SortKeeps(es, ByKey);
  }

  /** A measure for recursion through dicts, which sorting does not change. */
  function Size(v: Value): nat
    decreases v
  {
    match v
    case List(items) => 1 + ItemsSize(items)
    case Dict(es) => 1 + EntriesSize(es)
    case _ => 0
  }

  function ItemsSize(items: seq<Value>): nat
    decreases items
  {
    if items == [] then 0 else 1 + Size(items[0]) + ItemsSize(items[1..])
  }

  function EntriesSize(es: seq<Entry>): nat
    decreases es
  {
    if es == [] then 0
    else
      assert es[0].key < es[0] && es[0].value < es[0];
      1 + Size(es[0].key) + Size(es[0].value) + EntriesSize(es[1..])
  }

  lemma ItemsSizeSplit(items: seq<Value>, i: nat)
    requires i < |items|
    ensures Size(items[i]) < ItemsSize(items)
  {
    if i > 0 {
      ItemsSizeSplit(items[1..], i - 1);
    }
  }

  lemma EntriesSizeSplit(es: seq<Entry>, i: nat)
    requires i < |es|
    ensures Size(es[i].key) + Size(es[i].value) < EntriesSize(es)
  {
    if i > 0 {
      EntriesSizeSplit(es[1..], i - 1);
    }
  }

  lemma {:induction false} PlaceSize(e: Entry, es: seq<Entry>)
    ensures EntriesSize(Place(e, es, ByKey)) == EntriesSize([e] + es)
  {
    assert ([e] + es)[1..] == es;
    if es == [] || !KeyLess(es[0].key, e.key) {
    } else {
      PlaceSize(e, es[1..]);
      assert ([e] + es[1..])[1..] == es[1..];
    }
  }

  lemma {:induction false} SortSize(es: seq<Entry>)
    ensures EntriesSize(SortEntries(es)) == EntriesSize(es)
  {
    if es == [] {
    } else {
      SortSize(es[1..]);
      var rest := SortEntries(es[1..]);
      PlaceSize(es[0], rest);
      assert ([es[0]] + rest)[1..] == rest;
    }
  }

  // ---------- Which values are meant ----------

  /** What Python guarantees of every dict: hashable keys, no two of them equal. */
  predicate DistinctKeys(es: seq<Entry>) {
    && (forall i :: 0 <= i < |es| ==> Hashable(es[i].key))
    && (forall i, j :: 0 <= i < j < |es| ==> !KeyEq(es[i].key, es[j].key))
  }

  predicate PythonValue(v: Value) {
    match v
    case List(items) => forall i :: 0 <= i < |items| ==> PythonValue(items[i])
    case Dict(es) => DistinctKeys(es) && forall i :: 0 <= i < |es| ==> PythonValue(es[i].value)
    case _ => true
  }

  /** Every number and every length fits the eight byte argument. */
  predicate Fits(v: Value) {
    match v
    case Bool(_) => true
    case Int(n) => -TWO64 <= n < TWO64
    case Text(s) => |Utf8.Encode(s)| < TWO64
    case List(items) => |items| < TWO64 && forall i :: 0 <= i < |items| ==> Fits(items[i])
    case Dict(es) => |es| < TWO64 && forall i :: 0 <= i < |es| ==> Fits(es[i].key) && Fits(es[i].value)
  }

  predicate OneKeyKind(es: seq<Entry>) {
    forall i, j :: 0 <= i < |es| && 0 <= j < |es| ==> Comparable(es[i].key, es[j].key)
  }

  /** The keys of each dict can be sorted: all numbers or all text. */
  predicate Sortable(v: Value) {
    match v
    case List(items) => forall i :: 0 <= i < |items| ==> Sortable(items[i])
    case Dict(es) => OneKeyKind(es) && forall i :: 0 <= i < |es| ==> Sortable(es[i].value)
    case _ => true
  }

  predicate Encodable(v: Value) {
    Fits(v) && Sortable(v)
  }

  // ---------- Encoding ----------

  function BigEndian(n: nat, width: nat): (r: Bytes)
    ensures |r| == width
  {
    if width == 0 then [] else BigEndian(n / 256, width - 1) + [n % 256]
  }

  /** The initial byte and the shortest argument for `n`. */
  function Head(major: nat, n: nat): (r: Bytes)
    requires major < 8
    ensures 1 <= |r| <= 9
  {
    if n < 24 then [32 * major + n]
    else if n <= 0xFF then [32 * major + 24, n]
    else if n <= 0xFFFF then [32 * major + 25] + BigEndian(n, 2)
    else if n <= 0xFFFF_FFFF then [32 * major + 26] + BigEndian(n, 4)
    else [32 * major + 27] + BigEndian(n, 8)
  }

  function Encode(v: Value): (r: Bytes)
    ensures |r| >= 1
    decreases Size(v)
  {
    match v
    case Bool(b) => if b then [0xF5] else [0xF4]
    case Int(n) => if n >= 0 then Head(0, n) else Head(1, -1 - n)
    case Text(s) => Head(3, |Utf8.Encode(s)|) + Utf8.Encode(s)
    case List(items) => Head(4, |items|) + EncodeItems(items)
    case Dict(es) =>
      SortSize(es);
      Head(5, |es|) + EncodeEntries(SortEntries(es))
  }

  /** The items one after another. */
  function EncodeItems(items: seq<Value>): (r: Bytes)
    decreases ItemsSize(items)
  {
    if items == [] then [] else Encode(items[0]) + EncodeItems(items[1..])
  }

  /** The pairs one after another. */
  function EncodeEntries(es: seq<Entry>): (r: Bytes)
    decreases EntriesSize(es)
  {
    if es == [] then []
    else Encode(es[0].key) + Encode(es[0].value) + EncodeEntries(es[1..])
  }

  // ---------- Decoding ----------

  function FromBigEndian(b: Bytes): (n: nat) {
    if b == [] then 0 else 256 * FromBigEndian(b[..|b| - 1]) + b[|b| - 1]
  }

  function ArgWidth(additional: int): Option<nat> {
    if additional < 24 then Some(0)
    else if additional == 24 then Some(1)
    else if additional == 25 then Some(2)
    else if additional == 26 then Some(4)
    else if additional == 27 then Some(8)
    else None
  }

  function ReadArg(data: Bytes, offset: nat, additional: nat): (r: Result<Found<nat>, DecodeError>)
    requires offset <= |data|
    ensures r.Ok? ==> offset <= r.value.end <= |data|
  {
    match ArgWidth(additional)
    case None => Err(ReservedLength)
    case Some(width) =>
      if width == 0 then Ok(Found(additional, offset))
      else if offset + width > |data| then Err(TruncatedArg)
      else Ok(Found(FromBigEndian(data[offset..offset + width]), offset + width))
  }

  /** The initial byte and the argument it announces. Booleans are major type 7 with the
      argument 20 or 21. */
  function ReadHead(data: Bytes, offset: nat): (r: Result<Initial, DecodeError>)
    ensures r.Ok? ==> offset < r.value.next <= |data|
  {
    if offset >= |data| then Err(Empty)
    else
      var major: int, additional: int := data[offset] / 32, data[offset] % 32;
      if major <= 1 || 3 <= major <= 5 then
        match ReadArg(data, offset + 1, additional)
        case Err(e) => Err(e)
        case Ok(arg) => Ok(Initial(major, arg.value, arg.end))
      else if major == 7 && (additional == 20 || additional == 21) then
        Ok(Initial(major, additional, offset + 1))
      else Err(UnsupportedMajor)
  }

  function DecodeAt(data: Bytes, offset: nat): (r: Result<Found<Value>, DecodeError>)
    ensures r.Ok? ==> offset < r.value.end <= |data|
    decreases |data| - offset, 0
  {
    match ReadHead(data, offset)
    case Err(e) => Err(e)
    case Ok(Initial(major, n, next)) =>
      if major == 0 then Ok(Found(Int(n), next))
      else if major == 1 then Ok(Found(Int(-1 - n), next))
      else if major == 3 then DecodeText(data, next, n)
      else if major == 4 then
        match DecodeItems(data, next, n)
        case Err(e) => Err(e)
        case Ok(items) => Ok(Found(List(items.value), items.end))
      else if major == 5 then
        match DecodeEntries(data, next, n, [])
        case Err(e) => Err(e)
        case Ok(es) => Ok(Found(Dict(es.value), es.end))
      else Ok(Found(Bool(n == 21), next))
  }

  function DecodeText(data: Bytes, offset: nat, n: nat): (r: Result<Found<Value>, DecodeError>)
    requires offset <= |data|
    ensures r.Ok? ==> offset <= r.value.end <= |data|
  {
    if offset + n > |data| then Err(TruncatedText)
    else match Utf8.Decode(data[offset..offset + n])
      case None => Err(BadText)
      case Some(s) => Ok(Found(Text(s), offset + n))
  }

  /** `count` values in a row. */
  function DecodeItems(data: Bytes, offset: nat, count: nat): (r: Result<Found<seq<Value>>, DecodeError>)
    requires offset <= |data|
    ensures r.Ok? ==> offset <= r.value.end <= |data|
    decreases |data| - offset, 1
  {
    if count == 0 then Ok(Found([], offset))
    else match DecodeAt(data, offset)
      case Err(e) => Err(e)
      case Ok(v) =>
        match DecodeItems(data, v.end, count - 1)
        case Err(e) => Err(e)
        case Ok(vs) => Ok(Found([v.value] + vs.value, vs.end))
  }

  /** `count` more key-value pairs, assigned into the dict read so far. */
  function DecodeEntries(data: Bytes, offset: nat, count: nat, sofar: seq<Entry>)
    : (r: Result<Found<seq<Entry>>, DecodeError>)
    requires offset <= |data|
    ensures r.Ok? ==> offset <= r.value.end <= |data|
    decreases |data| - offset, 1
  {
    if count == 0 then Ok(Found(sofar, offset))
    else match DecodeAt(data, offset)
      case Err(e) => Err(e)
      case Ok(k) =>
        match DecodeAt(data, k.end)
        case Err(e) => Err(e)
        case Ok(v) =>
          if !Hashable(k.value) then Err(UnhashableKey)
          else DecodeEntries(data, v.end, count - 1, DictSet(sofar, k.value, v.value))
  }

  /** The whole input must be one value. */
  function Decode(data: Bytes): (r: Result<Value, DecodeError>) {
    match DecodeAt(data, 0)
    case Err(e) => Err(e)
    case Ok(v) => if v.end != |data| then Err(Trailing) else Ok(v.value)
  }

  // ---------- Sameness up to insertion order ----------

  /** The value with every dict put in key order: what comes back from the wire. */
  function Canon(v: Value): (r: Value)
    decreases Size(v)
  {
    match v
    case List(items) => List(CanonItems(items))
    case Dict(es) =>
      SortSize(es);
      Dict(CanonEntries(SortEntries(es)))
    case _ => v
  }

  function CanonItems(items: seq<Value>): (r: seq<Value>)
    ensures |r| == |items|
    decreases ItemsSize(items)
  {
    if items == [] then [] else [Canon(items[0])] + CanonItems(items[1..])
  }

  function CanonEntries(es: seq<Entry>): (r: seq<Entry>)
    ensures |r| == |es|
    decreases EntriesSize(es)
  {
    if es == [] then [] else [Entry(es[0].key, Canon(es[0].value))] + CanonEntries(es[1..])
  }

  /** Python equality of values, where a dict is the set of its entries. */
  predicate Same(v: Value, w: Value)
    decreases v
  {
    match v
    case List(items) =>
      w.List? && |items| == |w.items| && forall i :: 0 <= i < |items| ==> Same(items[i], w.items[i])
    case Dict(es) =>
      w.Dict? && |es| == |w.entries| && forall i :: 0 <= i < |es| ==> HasEntry(es[i], w.entries)
    case _ => v == w
  }

  /** Some entry of `others` has the key and the value of `e`. */
  predicate HasEntry(e: Entry, others: seq<Entry>)
    decreases e
  {
    exists j :: 0 <= j < |others| && others[j].key == e.key && Same(e.value, others[j].value)
  }
}
