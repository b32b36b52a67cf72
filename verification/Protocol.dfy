/** The payload layer: logical field names on one side, integer keyed CBOR maps on the other. */
module Protocol {
  import opened Wrappers
  import opened Cbor
  import opened CborRoundTrip
  import opened CborSame
  import opened Registry
  import opened Routes

  // ---------- Renaming ----------

  /** A registered number key becomes its name; every other key stays. */
  function NameFor(key: Value): Value {
    if IsNumber(key) && NameOf(Number(key)).Some? then Text(NameOf(Number(key)).value) else key
  }

  predicate IsKindField(name: Value) {
    name == Text("message_kind")
  }

  /** What a decoded value becomes below the name it is stored under. */
  function LogicalItem(name: Value, item: Value): Value
    decreases item, 2
  {
    if IsKindField(name) && IsNumber(item) then
      if KindName(Number(item)).Some? then Text(KindName(Number(item)).value) else item
    else LogicalValue(item)
  }

  /** Dicts are renamed; so are the dicts that are direct elements of a list. */
  function LogicalValue(item: Value): Value
    decreases item, 1
  {
    match item
    case Dict(es) => Dict(ToLogical(es, []))
    case List(items) => List(LogicalElements(items))
    case _ => item
  }

  function LogicalElements(items: seq<Value>): (r: seq<Value>)
    ensures |r| == |items|
    decreases items
  {
    if items == [] then []
    else [LogicalElement(items[0])] + LogicalElements(items[1..])
  }

  function LogicalElement(item: Value): Value
    decreases item, 0
  {
    match item
    case Dict(es) => Dict(ToLogical(es, []))
    case _ => item
  }

  /** `cbor_map_to_logical`, assigning into the dict built so far. */
  function ToLogical(es: seq<Entry>, sofar: seq<Entry>): seq<Entry>
    decreases es
  {
    if es == [] then sofar
    else
      assert es[0].value < es[0];
      var name := NameFor(es[0].key);
      ToLogical(es[1..], DictSet(sofar, name, LogicalItem(name, es[0].value)))
  }

  /** `logical_to_cbor_map`: version and kind first, then the registered fields. */
  function ToCbor(payload: seq<Entry>, kind: string): seq<Entry>
    requires KindCode(kind).Some?
  {
    AddFields(payload, [Entry(Int(0), Int(2)), Entry(Int(1), Int(KindCode(kind).value))])
  }

  predicate Registered(key: Value) {
    key.Text? && KeyOf(key.s).Some?
  }

  function AddFields(payload: seq<Entry>, sofar: seq<Entry>): seq<Entry> {
    if payload == [] then sofar
    else if Registered(payload[0].key) then
      AddFields(payload[1..], DictSet(sofar, Int(KeyOf(payload[0].key.s).value), payload[0].value))
    else AddFields(payload[1..], sofar)
  }

  // ---------- The wire ----------

  /** How a received payload is read: as CBOR unless it starts like JSON text or is empty. */
  datatype Parsed = CborPayload(result: Result<seq<Entry>, DecodeError>) | JsonOrText(raw: Bytes)

  function DecodePayload(data: Bytes): Result<seq<Entry>, DecodeError> {
    match Decode(data)
    case Err(e) => Err(e)
    case Ok(Dict(es)) => Ok(ToLogical(es, []))
    case Ok(_) => Err(RootNotMap)
  }

  predicate LooksLikeJson(data: Bytes) {
    data == [] || data[0] == 0x7B || data[0] == 0x5B
  }

  function ParseWire(data: Bytes): Parsed {
    if LooksLikeJson(data) then JsonOrText(data) else CborPayload(DecodePayload(data))
  }

  function EncodePayload(payload: seq<Entry>, kind: string): Bytes
    requires KindCode(kind).Some?
  {
    Encode(Dict(ToCbor(payload, kind)))
  }

  /** The fields that make a callback configuration request. */
  predicate CallbackFields(payload: seq<Entry>) {
    exists e :: e in payload && e.key in [Text("callback_enabled"), Text("trigger_every"), Text("event_name")]
  }

  /** None is the error for an unsupported route. */
  function EncodeQueryPayload(keyexpr: string, payload: seq<Entry>): Option<Bytes> {
    match KindForRoute(keyexpr, CallbackFields(payload))
    case None => None
    case Some(kind) => if KindCode(kind).Some? then Some(EncodePayload(payload, kind)) else None
  }

  // ---------- Which values the renaming leaves alone ----------

  predicate StableEntry(e: Entry)
    decreases e
  {
    && NameFor(e.key) == e.key
    && (IsKindField(e.key) && IsNumber(e.value) ==> KindName(Number(e.value)).None?)
    && StableValue(e.value)
  }

  /** No dict the renaming reaches has a registered number key or a message kind code. */
  predicate StableValue(v: Value)
    decreases v
  {
    match v
    case Dict(es) => forall i :: 0 <= i < |es| ==> StableEntry(es[i])
    case List(items) => forall i :: 0 <= i < |items| ==> StableElement(items[i])
    case _ => true
  }

  predicate StableElement(v: Value)
    decreases v
  {
    match v
    case Dict(es) => forall i :: 0 <= i < |es| ==> StableEntry(es[i])
    case _ => true
  }

  // ---------- Renaming without collisions ----------

  /** One entry after the renaming. */
  function Rename(e: Entry): Entry {
    Entry(NameFor(e.key), LogicalItem(NameFor(e.key), e.value))
  }

  function Renamed(es: seq<Entry>): (r: seq<Entry>)
    ensures |r| == |es| && forall i :: 0 <= i < |es| ==> r[i] == Rename(es[i])
  {
    seq(|es|, i requires 0 <= i < |es| => Rename(es[i]))
  }

  lemma {:induction false} RenamedFrom(es: seq<Entry>, done: seq<Entry>)
    requires DistinctKeys(done + Renamed(es))
    ensures ToLogical(es, done) == done + Renamed(es)
    decreases es
  {
    hide KeyOf, NameOf, KindName, KeyEq, Rename, LogicalItem, NameFor;
    if es == [] {
      assert done + [] == done;
    } else {
      var r := Rename(es[0]);
      var all := done + Renamed(es);
      forall i | 0 <= i < |done|
        ensures !KeyEq(done[i].key, r.key)
      {
        assert all[i] == done[i] && all[|done|] == r;
      }
      StepRenamed(es[0]);
      SetNew(done, r.key, r.value);
      assert done + [r] + Renamed(es[1..]) == all;
      RenamedFrom(es[1..], done + [r]);
    }
  }

  lemma StepRenamed(e: Entry)
    ensures Entry(NameFor(e.key), LogicalItem(NameFor(e.key), e.value)) == Rename(e)
  {
  }

  /** Distinct names: the result is the entries renamed one by one. */
  lemma ToLogicalRenamed(es: seq<Entry>)
    requires DistinctKeys(Renamed(es))
    ensures ToLogical(es, []) == Renamed(es)
  {
    assert [] + Renamed(es) == Renamed(es);
    RenamedFrom(es, []);
  }

  // ---------- Stable values are exactly those that come back ----------

  lemma {:induction false} StableFixed(v: Value)
    requires PythonValue(v) && StableValue(v)
    ensures LogicalValue(v) == v
    decreases v, 1
  {
    hide KeyOf, NameOf, KindName, KeyEq;
    match v
    case Dict(es) =>
      StableEntries(es);
    case List(items) =>
      StableElements(items);
    case _ =>
  }

  lemma {:induction false} StableElements(items: seq<Value>)
    requires forall i :: 0 <= i < |items| ==> PythonValue(items[i]) && StableElement(items[i])
    ensures LogicalElements(items) == items
    decreases items
  {
    hide KeyOf, NameOf, KindName, StableEntry;
    if items != [] {
      match items[0] {
        case Dict(es) => StableEntries(es);
        case _ =>
      }
      StableElements(items[1..]);
    }
  }

  lemma {:induction false} StableEntries(es: seq<Entry>)
    requires DistinctKeys(es)
    requires forall i :: 0 <= i < |es| ==> PythonValue(es[i].value) && StableEntry(es[i])
    ensures ToLogical(es, []) == es
    decreases es
  {
    hide KeyOf, NameOf, KindName, KeyEq, PythonValue;
    forall i | 0 <= i < |es|
      ensures Rename(es[i]) == es[i]
    {
      assert es[i].value < es[i];
      StableFixed(es[i].value);
    }
    assert Renamed(es) == es;
    ToLogicalRenamed(es);
  }

  /** Renaming is done once: no key of the result is a registered number. */
  predicate RenamedKeys(es: seq<Entry>) {
    forall i :: 0 <= i < |es| ==> NameFor(es[i].key) == es[i].key
  }

  lemma {:induction false} SetRenamed(es: seq<Entry>, k: Value, v: Value)
    requires RenamedKeys(es)
    ensures RenamedKeys(DictSet(es, NameFor(k), v))
  {
    hide NameOf, KeyEq;
    if es == [] || KeyEq(es[0].key, NameFor(k)) {
    } else {
      SetRenamed(es[1..], k, v);
    }
  }

  lemma {:induction false} ToLogicalKeys(es: seq<Entry>, sofar: seq<Entry>)
    requires RenamedKeys(sofar)
    ensures RenamedKeys(ToLogical(es, sofar))
    decreases es
  {
    hide NameFor, LogicalItem;
    if es != [] {
      var name := NameFor(es[0].key);
      SetRenamed(sofar, es[0].key, LogicalItem(name, es[0].value));
      ToLogicalKeys(es[1..], DictSet(sofar, name, LogicalItem(name, es[0].value)));
    }
  }

  lemma {:induction false} FixedStable(v: Value)
    requires PythonValue(v) && Same(v, LogicalValue(v))
    ensures StableValue(v)
    decreases v, 1
  {
    hide KeyOf, NameOf, KindName, KeyEq;
    match v
    case Dict(es) =>
      FixedEntries(es);
    case List(items) =>
      forall i | 0 <= i < |items|
        ensures StableElement(items[i])
      {
        ElementAt(items, i);
        match items[i] {
          case Dict(es) => FixedEntries(es);
          case _ =>
        }
      }
    case _ =>
  }

  lemma {:induction false} ElementAt(items: seq<Value>, i: nat)
    requires i < |items|
    ensures LogicalElements(items)[i] == LogicalElement(items[i])
  {
    hide LogicalElement;
    if i > 0 {
      ElementAt(items[1..], i - 1);
    }
  }

  lemma {:induction false} FixedEntries(es: seq<Entry>)
    requires PythonValue(Dict(es)) && Same(Dict(es), Dict(ToLogical(es, [])))
    ensures forall i :: 0 <= i < |es| ==> StableEntry(es[i])
    decreases es
  {
    var r := ToLogical(es, []);
    KeysFixed(es);
    assert r == Renamed(es);
    forall i | 0 <= i < |es|
      ensures StableEntry(es[i])
    {
      hide KeyOf, NameOf, KindName, LogicalValue, Same;
      var j := Witness(es[i], r);
      assert i == j by { OnlyPlace(es, i, j); }
      FixedEntry(es[i]);
    }
  }

  lemma OnlyPlace(es: seq<Entry>, i: nat, j: nat)
    requires DistinctKeys(es) && i < |es| && j < |es| && es[i].key == es[j].key
    ensures i == j
  {
    assert KeyEq(es[i].key, es[j].key);
  }

  /** If the dict comes back, its keys were not renamed. */
  lemma KeysFixed(es: seq<Entry>)
    requires PythonValue(Dict(es)) && Same(Dict(es), Dict(ToLogical(es, [])))
    ensures RenamedKeys(es) && ToLogical(es, []) == Renamed(es)
  {
    hide KeyOf, NameOf, LogicalItem, NameFor, KeyEq;
    ToLogicalKeys(es, []);
    var r := ToLogical(es, []);
    forall i | 0 <= i < |es|
      ensures NameFor(es[i].key) == es[i].key
    {
      var j := Witness(es[i], r);
    }
    assert forall i :: 0 <= i < |es| ==> Renamed(es)[i].key == es[i].key;
    ToLogicalRenamed(es);
  }

  lemma {:induction false} FixedEntry(e: Entry)
    requires PythonValue(e.value) && NameFor(e.key) == e.key && Same(e.value, LogicalItem(e.key, e.value))
    ensures StableEntry(e)
    decreases e
  {
    hide KeyOf, NameOf, NameFor;
    assert e.value < e;
    if !(IsKindField(e.key) && IsNumber(e.value) && KindName(Number(e.value)).Some?) {
      if IsNumber(e.value) {
      } else {
        FixedStable(e.value);
      }
    }
  }

  // ---------- Stability and the canonical form ----------

  predicate AllStable(es: seq<Entry>) {
    forall i :: 0 <= i < |es| ==> StableEntry(es[i])
  }

  lemma StableDict(es: seq<Entry>)
    ensures StableValue(Dict(es)) <==> AllStable(es)
    ensures StableElement(Dict(es)) <==> AllStable(es)
  {
    hide NameFor, KindName;
  }

  lemma {:induction false} StableCanon(v: Value)
    ensures StableValue(Canon(v)) <==> StableValue(v)
    ensures StableElement(Canon(v)) <==> StableElement(v)
    decreases Size(v), 2
  {
    hide KeyOf, NameOf, KindName, StableEntry;
    match v
    case Dict(es) =>
      StableCanonEntries(es);
      StableDict(es);
      StableDict(CanonEntries(SortEntries(es)));
    case List(items) =>
      forall i | 0 <= i < |items|
        ensures StableElement(CanonItems(items)[i]) <==> StableElement(items[i])
      {
        CanonItemsAt(items, i);
        ItemsSizeSplit(items, i);
        StableCanon(items[i]);
      }
    case _ =>
  }

  lemma {:induction false} StableCanonEntries(es: seq<Entry>)
    ensures AllStable(CanonEntries(SortEntries(es))) <==> AllStable(es)
    decreases EntriesSize(es), 1
  {
    hide StableEntry, StableValue, Canon, SortEntries, CanonEntries;
    var s := SortEntries(es);
    var c := CanonEntries(s);
    forall i | 0 <= i < |s|
      ensures StableEntry(c[i]) <==> StableEntry(s[i])
      ensures s[i] in es
    {
      CanonEntriesAt(s, i);
      SortedSmaller(es, i);
      StableCanon(s[i].value);
      StableCanonEntry(s[i], c[i]);
    }
    if AllStable(c) {
      forall i | 0 <= i < |es|
        ensures StableEntry(es[i])
      {
        SortedFrom(es, es[i]);
        var q :| 0 <= q < |s| && s[q] == es[i];
        assert StableEntry(c[q]);
      }
    }
  }

  lemma StableCanonEntry(e: Entry, c: Entry)
    requires c == Entry(e.key, Canon(e.value)) && (StableValue(c.value) <==> StableValue(e.value))
    ensures StableEntry(c) <==> StableEntry(e)
  {
    hide NameFor, StableValue, KindName;
  }

  /** A value survives the wire exactly when it is stable. */
  lemma StableWire(v: Value)
    requires PythonValue(v) && Encodable(v)
    ensures Same(v, LogicalValue(Canon(v))) <==> StableValue(v)
  {
    hide Same, Canon, StableValue, LogicalValue, PythonValue, Encodable;
    var u := Canon(v);
    CanonKeeps(v);
    CanonIdempotent(v);
    StableCanon(v);
    CanonImpliesSame(v, u);
    CanonImpliesSame(u, v);
    if StableValue(v) {
      StableFixed(u);
    }
    if Same(v, LogicalValue(u)) {
      SameTransitive(u, v, LogicalValue(u));
      FixedStable(u);
    }
  }
}
