/** A payload sent over a route and read back: the fields, the version and the kind. */
module EndToEnd {
  import opened Wrappers
  import opened Cbor
  import opened CborRoundTrip
  import opened CborSame
  import opened CborOrder
  import opened Registry
  import opened Routes
  import opened Protocol
  import Utf8

  /** The fields that have a code; the others are not sent. */
  function Fields(payload: seq<Entry>): seq<Entry> {
    if payload == [] then []
    else if Registered(payload[0].key) then [payload[0]] + Fields(payload[1..])
    else Fields(payload[1..])
  }

  /** The payload as the receiver is meant to see it. */
  function Expected(payload: seq<Entry>, kind: string): seq<Entry> {
    [Entry(Text("schema_version"), Int(2)), Entry(Text("message_kind"), Text(kind))] + Fields(payload)
  }

  predicate Reserved(key: Value) {
    key == Text("schema_version") || key == Text("message_kind")
  }

  /** A Python dict whose sent fields can be encoded and leave the two header fields alone. */
  predicate Sendable(payload: seq<Entry>) {
    && DistinctKeys(payload) && |payload| < TWO64 - 2
    && forall i :: 0 <= i < |payload| && Registered(payload[i].key) ==>
      !Reserved(payload[i].key) && PythonValue(payload[i].value) && Encodable(payload[i].value)
  }

  // ---------- What is put on the wire ----------

  function CodeOf(key: Value): int
    requires Registered(key)
  {
    KeyOf(key.s).value
  }

  predicate AllRegistered(es: seq<Entry>) {
    forall i :: 0 <= i < |es| ==> Registered(es[i].key)
  }

  function Coded(es: seq<Entry>): (r: seq<Entry>)
    requires AllRegistered(es)
    ensures |r| == |es| && forall i :: 0 <= i < |es| ==> r[i] == Entry(Int(CodeOf(es[i].key)), es[i].value)
  {
    seq(|es|, i requires 0 <= i < |es| => Entry(Int(CodeOf(es[i].key)), es[i].value))
  }

  lemma CodeInjective(a: Value, b: Value)
    requires Registered(a) && Registered(b) && CodeOf(a) == CodeOf(b)
    ensures a == b
  {
    hide KeyOf, NameOf;
    KeyBijection(a.s, CodeOf(a));
    KeyBijection(b.s, CodeOf(b));
  }

  lemma {:induction false} FieldsFrom(payload: seq<Entry>)
    ensures AllRegistered(Fields(payload))
    ensures forall e :: e in Fields(payload) ==> e in payload
    ensures DistinctKeys(payload) ==> DistinctKeys(Fields(payload))
  {
    hide KeyOf, KeyEq;
    if payload == [] {
    } else {
      var rest := payload[1..];
      assert forall i :: 0 <= i < |rest| ==> rest[i] == payload[i + 1];
      FieldsFrom(rest);
      if Registered(payload[0].key) && DistinctKeys(payload) {
        var f := Fields(rest);
        forall j | 0 <= j < |f|
          ensures !KeyEq(payload[0].key, f[j].key)
        {
          assert f[j] in rest;
          var k :| 0 <= k < |rest| && rest[k] == f[j];
          assert payload[k + 1] == f[j];
        }
      }
    }
  }

  /** Codes not used so far, and all different. */
  predicate FreshCodes(sofar: seq<Entry>, es: seq<Entry>)
    requires AllRegistered(es)
  {
    && (forall i, j :: 0 <= i < |sofar| && 0 <= j < |es| ==> !KeyEq(sofar[i].key, Int(CodeOf(es[j].key))))
    && (forall i, j :: 0 <= i < j < |es| ==> CodeOf(es[i].key) != CodeOf(es[j].key))
  }

  lemma FreshStep(sofar: seq<Entry>, es: seq<Entry>, coded: Entry)
    requires es != [] && AllRegistered(es) && FreshCodes(sofar, es)
    requires coded == Entry(Int(CodeOf(es[0].key)), es[0].value)
    ensures DictSet(sofar, coded.key, coded.value) == sofar + [coded]
    ensures FreshCodes(sofar + [coded], es[1..])
  {
    hide KeyOf;
    SetNew(sofar, coded.key, coded.value);
    var rest := es[1..];
    assert forall j :: 0 <= j < |rest| ==> rest[j] == es[j + 1];
  }

  lemma CodedCons(e: Entry, f: seq<Entry>)
    requires Registered(e.key) && AllRegistered(f)
    ensures AllRegistered([e] + f)
    ensures Coded([e] + f) == [Entry(Int(CodeOf(e.key)), e.value)] + Coded(f)
  {
    hide KeyOf;
  }

  lemma AddFieldsStep(payload: seq<Entry>, sofar: seq<Entry>)
    requires payload != [] && Registered(payload[0].key)
    ensures AddFields(payload, sofar)
         == AddFields(payload[1..], DictSet(sofar, Int(CodeOf(payload[0].key)), payload[0].value))
  {
    hide KeyOf, DictSet;
  }

  lemma {:induction false} AddFieldsCoded(payload: seq<Entry>, sofar: seq<Entry>)
    requires AllRegistered(Fields(payload)) && FreshCodes(sofar, Fields(payload))
    ensures AddFields(payload, sofar) == sofar + Coded(Fields(payload))
  {
    hide KeyOf, FreshCodes, KeyEq, DictSet, CodeOf, Coded;
    if payload == [] {
      assert sofar + [] == sofar;
    } else if Registered(payload[0].key) {
      var e, f := payload[0], Fields(payload[1..]);
      var coded := Entry(Int(CodeOf(e.key)), e.value);
      assert Fields(payload) == [e] + f;
      FreshStep(sofar, Fields(payload), coded);
      FieldsFrom(payload[1..]);
      CodedCons(e, f);
      AddFieldsStep(payload, sofar);
      hide AddFields;
      AddFieldsCoded(payload[1..], sofar + [coded]);
      assert sofar + [coded] + Coded(f) == sofar + ([coded] + Coded(f));
    } else {
      AddFieldsCoded(payload[1..], sofar);
    }
  }

  // ---------- The root map ----------

  /** The dict that is encoded, and beside it the dict that is expected back. */
  predicate Root(payload: seq<Entry>, kind: string, root: seq<Entry>, want: seq<Entry>) {
    && |root| == |want| >= 2
    && root[0] == Entry(Int(0), Int(2)) && want[0] == Entry(Text("schema_version"), Int(2))
    && KindCode(kind).Some?
    && root[1] == Entry(Int(1), Int(KindCode(kind).value)) && want[1] == Entry(Text("message_kind"), Text(kind))
    && forall i :: 2 <= i < |root| ==>
      && Registered(want[i].key) && root[i].key == Int(CodeOf(want[i].key)) && !Reserved(want[i].key)
      && root[i].value == want[i].value && PythonValue(want[i].value) && Encodable(want[i].value)
  }

  lemma NotReserved(key: Value)
    requires Registered(key) && !Reserved(key)
    ensures CodeOf(key) != 0 && CodeOf(key) != 1
  {
    hide KeyOf, NameOf;
    Codes(key.s);
    if CodeOf(key) == 0 {
      CodeInjective(key, Text("schema_version"));
    } else if CodeOf(key) == 1 {
      CodeInjective(key, Text("message_kind"));
    }
  }

  lemma FieldsFresh(payload: seq<Entry>, header: seq<Entry>)
    requires Sendable(payload)
    requires |header| == 2 && header[0].key == Int(0) && header[1].key == Int(1)
    ensures AllRegistered(Fields(payload)) && FreshCodes(header, Fields(payload))
    ensures forall i :: 0 <= i < |Fields(payload)| ==>
      var e := Fields(payload)[i]; !Reserved(e.key) && PythonValue(e.value) && Encodable(e.value)
  {
    hide KeyOf, NameOf, PythonValue, Encodable, Fields;
    FieldsFrom(payload);
    var f := Fields(payload);
    forall i | 0 <= i < |f|
      ensures !Reserved(f[i].key) && PythonValue(f[i].value) && Encodable(f[i].value)
      ensures CodeOf(f[i].key) != 0 && CodeOf(f[i].key) != 1
    {
      assert f[i] in payload;
      var k :| 0 <= k < |payload| && payload[k] == f[i];
      NotReserved(f[i].key);
    }
    forall i, j | 0 <= i < j < |f|
      ensures CodeOf(f[i].key) != CodeOf(f[j].key)
    {
      assert !KeyEq(f[i].key, f[j].key);
      if CodeOf(f[i].key) == CodeOf(f[j].key) {
        CodeInjective(f[i].key, f[j].key);
        KeyEqLaws(f[i].key, f[i].key);
      }
    }
  }

  lemma RootShape(payload: seq<Entry>, kind: string)
    requires Sendable(payload) && KindCode(kind).Some?
    ensures Root(payload, kind, ToCbor(payload, kind), Expected(payload, kind))
    ensures |ToCbor(payload, kind)| < TWO64
  {
    hide KeyOf, NameOf, KindCode, PythonValue, Encodable, Fields, AddFields, KeyEq;
    var header := [Entry(Int(0), Int(2)), Entry(Int(1), Int(KindCode(kind).value))];
    var f := Fields(payload);
    FieldsFresh(payload, header);
    AddFieldsCoded(payload, header);
    var root, want := ToCbor(payload, kind), Expected(payload, kind);
    FieldsFewer(payload);
    assert root == header + Coded(f);
    forall i | 2 <= i < |root|
      ensures root[i] == Coded(f)[i - 2] && want[i] == f[i - 2]
    {
    }
  }

  lemma {:induction false} FieldsFewer(payload: seq<Entry>)
    ensures |Fields(payload)| <= |payload|
  {
    if payload != [] {
      FieldsFewer(payload[1..]);
    }
  }

  lemma RootLength(payload: seq<Entry>, kind: string, root: seq<Entry>, want: seq<Entry>)
    requires Root(payload, kind, root, want)
    ensures |root| == |want| >= 2
  {
  }

  lemma RootKeys(payload: seq<Entry>, kind: string, root: seq<Entry>, want: seq<Entry>, i: nat)
    requires Root(payload, kind, root, want) && i < |root|
    ensures root[i].key.Int? && 0 <= root[i].key.n < 100 && NameFor(root[i].key) == want[i].key
    ensures want[i].key.Text? && KeyOf(want[i].key.s) == Some(root[i].key.n)
  {
    hide KeyOf, NameOf, KindCode, PythonValue, Encodable;
    var name := want[i].key.s;
    KeyBijection(name, root[i].key.n);
    Codes(name);
  }

  lemma RootEntry(payload: seq<Entry>, kind: string, root: seq<Entry>, want: seq<Entry>, i: nat)
    requires Root(payload, kind, root, want) && i < |root|
    ensures Fits(root[i].key) && PythonValue(root[i].value) && Encodable(root[i].value)
  {
    hide KeyOf, NameOf, KindCode;
    RootKeys(payload, kind, root, want, i);
    SmallKinds(kind);
  }

  lemma RootDistinct(payload: seq<Entry>, kind: string, root: seq<Entry>, want: seq<Entry>)
    requires Root(payload, kind, root, want) && DistinctKeys(want)
    ensures DistinctKeys(root) && OneKeyKind(root)
  {
    hide KeyOf, NameOf, KindCode, PythonValue, Encodable, NameFor, Root;
    RootLength(payload, kind, root, want);
    forall i | 0 <= i < |root|
      ensures root[i].key.Int? && want[i].key.Text? && NameFor(root[i].key) == want[i].key
    {
      RootKeys(payload, kind, root, want, i);
    }
    forall i, j | 0 <= i < j < |root|
      ensures !KeyEq(root[i].key, root[j].key)
    {
      assert !KeyEq(want[i].key, want[j].key);
    }
  }

  lemma WantDistinct(payload: seq<Entry>, kind: string, root: seq<Entry>, want: seq<Entry>)
    requires Sendable(payload) && Root(payload, kind, root, want) && want == Expected(payload, kind)
    ensures DistinctKeys(want)
  {
    hide KeyOf, NameOf, KindCode, PythonValue, Encodable, Fields;
    FieldsFrom(payload);
    var f := Fields(payload);
    assert "schema_version" != "message_kind" by { assert |"schema_version"| != |"message_kind"|; }
    assert forall i :: 2 <= i < |want| ==> want[i] == f[i - 2];
    forall i, j | 0 <= i < j < |want|
      ensures !KeyEq(want[i].key, want[j].key)
    {
      if i >= 2 {
        assert !KeyEq(f[i - 2].key, f[j - 2].key);
      }
    }
  }

  lemma RootEncodable(payload: seq<Entry>, kind: string, root: seq<Entry>, want: seq<Entry>)
    requires Root(payload, kind, root, want) && DistinctKeys(want) && |root| < TWO64
    ensures DistinctKeys(root) && PythonValue(Dict(root)) && Encodable(Dict(root))
  {
    hide Root;
    RootDistinct(payload, kind, root, want);
    forall i | 0 <= i < |root|
      ensures Fits(root[i].key) && PythonValue(root[i].value) && Encodable(root[i].value)
    {
      RootEntry(payload, kind, root, want, i);
    }
    CanonDict(root);
  }

  /** What comes back under the name of the i-th expected entry. */
  function Back(kind: string, want: seq<Entry>, i: nat): Value
    requires i < |want|
  {
    if i == 0 then Int(2) else if i == 1 then Text(kind) else LogicalValue(Canon(want[i].value))
  }

  lemma BackItem(payload: seq<Entry>, kind: string, root: seq<Entry>, want: seq<Entry>, i: nat)
    requires Root(payload, kind, root, want) && i < |root|
    ensures Rename(Entry(root[i].key, Canon(root[i].value))) == Entry(want[i].key, Back(kind, want, i))
  {
    hide KeyOf, NameOf, NameFor, PythonValue, Encodable, KindCode, KindName;
    RootKeys(payload, kind, root, want, i);
    assert "schema_version" != "message_kind" by { assert |"schema_version"| != |"message_kind"|; }
    if i == 1 {
      KindBijection(kind, KindCode(kind).value);
    }
  }

  /** `e` is what comes back of the i-th expected entry. */
  predicate IsBack(kind: string, want: seq<Entry>, i: int, e: Entry) {
    0 <= i < |want| && e == Entry(want[i].key, Back(kind, want, i))
  }

  lemma SentAt(payload: seq<Entry>, kind: string, root: seq<Entry>, want: seq<Entry>, i: nat)
    requires Root(payload, kind, root, want) && i < |root|
    ensures exists q :: 0 <= q < |root| && IsBack(kind, want, i, Renamed(CanonEntries(SortEntries(root)))[q])
  {
    hide Root, Rename, Canon, Back, SortEntries, CanonEntries;
    var s := SortEntries(root);
    RootLength(payload, kind, root, want);
    SortedFrom(root, root[i]);
    var q :| 0 <= q < |s| && s[q] == root[i];
    CanonEntriesAt(s, q);
    BackItem(payload, kind, root, want, i);
    assert IsBack(kind, want, i, Renamed(CanonEntries(s))[q]);
  }

  /** The received dict, before the renaming assigns it into one. */
  function Got(root: seq<Entry>): (r: seq<Entry>)
    ensures |r| == |root|
  {
    Renamed(CanonEntries(SortEntries(root)))
  }

  lemma GotDistinct(payload: seq<Entry>, kind: string, root: seq<Entry>, want: seq<Entry>)
    requires Root(payload, kind, root, want) && DistinctKeys(root) && DistinctKeys(want)
    ensures DistinctKeys(Got(root))
  {
    hide Root, Rename, Canon, SortEntries, CanonEntries, NameFor, KeyEq;
    var s := SortEntries(root);
    SortDistinct(root);
    RootLength(payload, kind, root, want);
    forall q | 0 <= q < |s|
      ensures exists i :: 0 <= i < |root| && s[q] == root[i] && Got(root)[q].key == want[i].key && want[i].key.Text?
    {
      CanonEntriesAt(s, q);
      SortedFrom(root, s[q]);
      var i :| 0 <= i < |root| && root[i] == s[q];
      BackItem(payload, kind, root, want, i);
      RootKeys(payload, kind, root, want, i);
    }
    forall p, q | 0 <= p < q < |s|
      ensures !KeyEq(Got(root)[p].key, Got(root)[q].key)
    {
      var i :| 0 <= i < |root| && s[p] == root[i] && Got(root)[p].key == want[i].key;
      var j :| 0 <= j < |root| && s[q] == root[j] && Got(root)[q].key == want[j].key;
      assert !KeyEq(s[p].key, s[q].key);
      if i < j {
        assert !KeyEq(want[i].key, want[j].key);
      } else if j < i {
        assert !KeyEq(want[j].key, want[i].key);
        KeyEqLaws(want[i].key, want[j].key);
      } else {
        KeyEqLaws(s[p].key, s[p].key);
      }
    }
  }

  lemma KeyEqLaws(a: Value, b: Value)
    ensures KeyEq(a, a) && KeyEq(a, b) == KeyEq(b, a)
  {
  }

  // ---------- The main results ----------

  /** The first byte of a dict is never that of JSON text. */
  lemma DictNotJson(es: seq<Entry>)
    ensures !LooksLikeJson(Encode(Dict(es)))
  {
    hide SortEntries, EncodeEntries, ArgBytes;
    HeadParts(5, |es|);
  }

  /** A payload is read as JSON or text exactly if it is empty or starts with a brace or a bracket, and
      else as CBOR, whose root must be a dict. */
  lemma ParseMeans(data: Bytes)
    ensures ParseWire(data).JsonOrText? <==> data == [] || data[0] == '{' as int || data[0] == '[' as int
    ensures ParseWire(data).CborPayload? ==>
      (ParseWire(data).result.Ok? <==> Decode(data).Ok? && Decode(data).value.Dict?)
  {
  }

  /** Among encodable values, only a text of four gigabytes or more looks like JSON. */
  lemma LooksLikeJsonIff(v: Value)
    requires Encodable(v)
    ensures LooksLikeJson(Encode(v)) <==> v.Text? && |Utf8.Encode(v.s)| > 0xFFFF_FFFF
  {
    hide SortEntries, EncodeEntries, ArgBytes, EncodeItems, Utf8.Encode;
    match v
    case Bool(_) =>
    case Int(n) => HeadParts(if n >= 0 then 0 else 1, if n >= 0 then n else -1 - n);
    case Text(s) => HeadParts(3, |Utf8.Encode(s)|);
    case List(items) => HeadParts(4, |items|);
    case Dict(es) => HeadParts(5, |es|);
  }

  lemma WireResult(payload: seq<Entry>, kind: string)
    requires Sendable(payload) && KindCode(kind).Some?
    ensures ParseWire(EncodePayload(payload, kind)) == CborPayload(Ok(Got(ToCbor(payload, kind))))
    ensures DistinctKeys(Got(ToCbor(payload, kind)))
  {
    hide KindCode, Encode, SortEntries, CanonEntries, Sendable, Root, Renamed, DistinctKeys, PythonValue;
    hide Encodable, Decode;
    var root, want := ToCbor(payload, kind), Expected(payload, kind);
    RootShape(payload, kind);
    RootLength(payload, kind, root, want);
    WantDistinct(payload, kind, root, want);
    RootEncodable(payload, kind, root, want);
    RoundTrip(Dict(root));
    DictNotJson(root);
    GotDistinct(payload, kind, root, want);
    ToLogicalRenamed(CanonEntries(SortEntries(root)));
  }

  /** Two entries of one dict with the same key are the same entry. */
  lemma OnlyEntry(es: seq<Entry>, p: nat, q: nat)
    requires DistinctKeys(es) && p < |es| && q < |es| && es[p].key == es[q].key
    ensures p == q
  {
    KeyEqLaws(es[p].key, es[p].key);
  }

  /** The i-th expected field is in the received dict exactly when its value is stable. */
  lemma FieldBack(payload: seq<Entry>, kind: string, root: seq<Entry>, want: seq<Entry>, i: nat)
    requires Root(payload, kind, root, want) && DistinctKeys(Got(root)) && i < |want|
    ensures HasEntry(want[i], Got(root)) <==> i < 2 || StableValue(want[i].value)
  {
    assert Got(root) == Renamed(CanonEntries(SortEntries(root)));
    hide DistinctKeys, Got, Root, KindCode, KeyOf, NameOf, PythonValue, Encodable, LogicalValue, Canon, StableValue;
    RootLength(payload, kind, root, want);
    SentAt(payload, kind, root, want, i);
    var q :| 0 <= q < |root| && IsBack(kind, want, i, Got(root)[q]);
    if HasEntry(want[i], Got(root)) {
      OnlyEntry(Got(root), q, Witness(want[i], Got(root)));
    }
    FieldSame(payload, kind, root, want, i);
    assert HasEntry(want[i], Got(root)) <==> Same(want[i].value, Back(kind, want, i));
  }

  lemma FieldSame(payload: seq<Entry>, kind: string, root: seq<Entry>, want: seq<Entry>, i: nat)
    requires Root(payload, kind, root, want) && i < |want|
    ensures Same(want[i].value, Back(kind, want, i)) <==> i < 2 || StableValue(want[i].value)
  {
    hide KindCode, KeyOf, NameOf, PythonValue, Encodable, LogicalValue, Canon, StableValue;
    if i >= 2 {
      StableWire(want[i].value);
    }
  }

  /** The receiver takes the CBOR branch and gets the sent fields, schema version 2 and the kind,
      in a dict equal to the expected one, exactly when every sent value is stable: no dict the
      renaming reaches has a registered number as key, or a kind code under "message_kind". */
  lemma PayloadRoundTrip(payload: seq<Entry>, kind: string)
    requires Sendable(payload) && KindCode(kind).Some?
    ensures var parsed := ParseWire(EncodePayload(payload, kind));
      && parsed.CborPayload? && parsed.result.Ok?
      && (Same(Dict(Expected(payload, kind)), Dict(parsed.result.value)) <==>
          forall e :: e in Fields(payload) ==> StableValue(e.value))
  {
    hide KindCode, EncodePayload, ParseWire, Sendable, Root, Got, DistinctKeys, StableValue, HasEntry, ToCbor, Fields;
    var root, want := ToCbor(payload, kind), Expected(payload, kind);
    var got := Got(root);
    WireResult(payload, kind);
    RootShape(payload, kind);
    RootLength(payload, kind, root, want);
    forall i | 0 <= i < |want|
      ensures HasEntry(want[i], got) <==> i < 2 || StableValue(want[i].value)
    {
      FieldBack(payload, kind, root, want, i);
    }
    assert |got| == |want|;
    assert Same(Dict(want), Dict(got)) <==> forall i :: 0 <= i < |want| ==> HasEntry(want[i], got);
    assert forall i :: 2 <= i < |want| ==> want[i] == Fields(payload)[i - 2];
    if forall i :: 0 <= i < |want| ==> HasEntry(want[i], got) {
      forall e | e in Fields(payload)
        ensures StableValue(e.value)
      {
        var k :| 0 <= k < |Fields(payload)| && Fields(payload)[k] == e;
        assert want[k + 2] == e && HasEntry(want[k + 2], got);
      }
    }
  }

  /** At the root of a message the keys are written in the bytewise order of their encodings, as
      section 4.2.1 of RFC 8949 asks of a deterministic encoding. */
  lemma RootDeterministic(payload: seq<Entry>, kind: string)
    requires Sendable(payload) && KindCode(kind).Some?
    ensures Deterministic(SortEntries(ToCbor(payload, kind)))
  {
    hide KindCode, Sendable, Root, Deterministic, SortEntries, KeyOf, NameOf, DistinctKeys, PythonValue;
    hide ToCbor, Expected;
    var root, want := ToCbor(payload, kind), Expected(payload, kind);
    RootShape(payload, kind);
    WantDistinct(payload, kind, root, want);
    RootEncodable(payload, kind, root, want);
    forall i | 0 <= i < |root|
      ensures root[i].key.Int? && root[i].key.n >= 0
    {
      RootKeys(payload, kind, root, want, i);
    }
    IntegerDictOrder(root);
  }

  // ---------- Over a route ----------

  /** A route as one of the four builders makes it. */
  datatype Route =
    | QueryTo(node: string, kind: string)
    | LeaseTo(node: string, action: string)
    | AppCommandTo(node: string, appId: string, command: string)
    | UpdateTo(node: string, appId: string, stage: string)

  function KeyExpr(r: Route): string {
    match r
    case QueryTo(node, kind) => QueryRoute(node, kind)
    case LeaseTo(node, action) => LeaseRoute(node, action)
    case AppCommandTo(node, appId, command) => AppCommandRoute(node, appId, command)
    case UpdateTo(node, appId, stage) => UpdateRoute(node, appId, stage)
  }

  /** The tokens given to the builder have no slash in them. */
  predicate SlashFreeTokens(r: Route) {
    match r
    case QueryTo(node, kind) => SlashFree(node) && SlashFree(kind)
    case LeaseTo(node, action) => SlashFree(node) && SlashFree(action)
    case AppCommandTo(node, appId, command) => SlashFree(node) && SlashFree(appId) && SlashFree(command)
    case UpdateTo(node, appId, stage) => SlashFree(node) && SlashFree(appId) && SlashFree(stage)
  }

  /** The message kind each builder stands for, if it has one. */
  function RequestKind(r: Route, payload: seq<Entry>): Option<string> {
    match r
    case QueryTo(_, _) => Some("query_request")
    case LeaseTo(_, "acquire") => Some("lease_acquire_request")
    case LeaseTo(_, "release") => Some("lease_release_request")
    case LeaseTo(_, _) => None
    case AppCommandTo(_, _, "invoke") =>
      if CallbackFields(payload) then Some("callback_config_request") else Some("app_command_request")
    case AppCommandTo(_, _, _) => Some("app_command_request")
    case UpdateTo(_, _, stage) => StageKind(stage)
  }

  lemma RouteHasKind(r: Route, payload: seq<Entry>)
    requires SlashFreeTokens(r)
    ensures KindForRoute(KeyExpr(r), CallbackFields(payload)) == RequestKind(r, payload)
  {
    hide CallbackFields, KindForRoute, StageKind, QueryRoute, LeaseRoute, AppCommandRoute, UpdateRoute, SlashFree;
    var c := CallbackFields(payload);
    match r
    case QueryTo(node, kind) => QueryRouteKind(node, kind, c);
    case LeaseTo(node, action) => LeaseRouteKind(node, action, c);
    case AppCommandTo(node, appId, command) => AppCommandRouteKind(node, appId, command, c);
    case UpdateTo(node, appId, stage) => UpdateRouteKind(node, appId, stage, c);
  }

  lemma RequestKindsRegistered(r: Route, payload: seq<Entry>)
    requires RequestKind(r, payload).Some?
    ensures KindCode(RequestKind(r, payload).value).Some?
  {
  }

  /** The same over the route of a builder: the payload is encoded exactly if the route has a
      request kind, and the kind read back is that one. */
  lemma QueryRoundTrip(r: Route, payload: seq<Entry>)
    requires SlashFreeTokens(r) && Sendable(payload)
    ensures EncodeQueryPayload(KeyExpr(r), payload).Some? <==> RequestKind(r, payload).Some?
    ensures RequestKind(r, payload).Some? ==>
      var parsed := ParseWire(EncodeQueryPayload(KeyExpr(r), payload).value);
      && parsed.CborPayload? && parsed.result.Ok?
      && (Same(Dict(Expected(payload, RequestKind(r, payload).value)), Dict(parsed.result.value)) <==>
          forall e :: e in Fields(payload) ==> StableValue(e.value))
  {
    hide KindCode, EncodePayload, ParseWire, Sendable, StableValue, Fields, Same, CallbackFields, Expected;
    hide KindForRoute;
    hide KeyExpr, RequestKind, SlashFreeTokens;
    RouteHasKind(r, payload);
    if RequestKind(r, payload).Some? {
      RequestKindsRegistered(r, payload);
      PayloadRoundTrip(payload, RequestKind(r, payload).value);
    }
  }

  // ---------- A payload that does not come back ----------

  /** A nested dict with the number 0 as key, the code of "schema_version". */
  const NUMBERED := Dict([Entry(Int(0), Int(7))])
  const NUMBERED_PAYLOAD := [Entry(Text("args"), NUMBERED)]

  /** The nested number is read back as a name, so the payload is not the one that was sent. */
  lemma NumberedPayloadChanges()
    ensures Sendable(NUMBERED_PAYLOAD)
    ensures var parsed := ParseWire(EncodePayload(NUMBERED_PAYLOAD, "query_request"));
      && parsed.CborPayload? && parsed.result.Ok?
      && !Same(Dict(Expected(NUMBERED_PAYLOAD, "query_request")), Dict(parsed.result.value))
  {
    hide ParseWire, EncodePayload, Same, Expected;
    NumberedSendable();
    PayloadRoundTrip(NUMBERED_PAYLOAD, "query_request");
    var e := NUMBERED_PAYLOAD[0];
    assert NUMBERED_PAYLOAD[1..] == [];
    assert Fields(NUMBERED_PAYLOAD) == [e];
    assert !StableEntry(NUMBERED.entries[0]);
    assert e in Fields(NUMBERED_PAYLOAD) && !StableValue(e.value);
  }

  lemma NumberedSendable()
    ensures Sendable(NUMBERED_PAYLOAD)
  {
    var es := NUMBERED.entries;
    assert DistinctKeys(es) && OneKeyKind(es);
    assert Fits(NUMBERED) && PythonValue(NUMBERED);
  }
}
