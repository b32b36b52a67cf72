/** The numbers by which the device knows the fields and message kinds, as its header enumerates
    them, and what a device finds in the messages the client sends. */
module DeviceProtocol {
  import opened Wrappers
  import opened Cbor
  import opened CborRoundTrip
  import opened CborSame
  import opened CborVectors
  import opened Registry
  import opened Routes
  import opened Protocol
  import opened EndToEnd

  // ---------- The enumerations of the device ----------

  datatype DeviceKey =
    | SchemaVersion | MessageKind | Status | RequestId | NodeId | SourceCore | SourceAgent | TargetNode | TimeoutMs
    | Priority | IdempotencyKey | LeaseId | Forwarded | StatusCode | Message | Resource | ExpiresAtMs | TtlMs
    | Board | ZenohMode | SessionReady | NetworkState | Ipv4 | AppId | Command | Args | StartArgs | Reason | Path
    | Transport | ArtifactKey | Size | ChunkSize | AppCount | RunningCount | SuspendedCount | Apps | RuntimeState
    | ManifestPresent | UpdateState | ArtifactState | StableRef | LastError | RollbackReason | Leases
    | CallbackEnabled | TriggerEvery | EventName | InvokeCount | StartCount | ConfigChanged | PublishRet | Echo
    | Stage | Detail | StateVersion | Action

  datatype DeviceKind =
    | QueryRequest | LeaseAcquireRequest | LeaseReleaseRequest | AppCommandRequest | CallbackConfigRequest
    | UpdatePrepareRequest | UpdateVerifyRequest | UpdateActivateRequest | UpdateRollbackRequest
    | UpdateDeleteRequest | ErrorReply | LeaseReply | QueryDeviceReply | QueryAppsReply | QueryLeasesReply
    | UpdatePrepareReply | UpdateVerifyReply | UpdateActivateReply | UpdateRollbackReply | AppCommandReply
    | CallbackEvent | UpdateEvent | StateEvent | LeaseEvent

  function KeyNumber(k: DeviceKey): int {
    match k
    case SchemaVersion => 0
    case MessageKind => 1
    case Status => 2
    case RequestId => 3
    case NodeId => 4
    case SourceCore => 5
    case SourceAgent => 6
    case TargetNode => 7
    case TimeoutMs => 8
    case Priority => 9
    case IdempotencyKey => 10
    case LeaseId => 11
    case Forwarded => 12
    case StatusCode => 20
    case Message => 21
    case Resource => 30
    case ExpiresAtMs => 31
    case TtlMs => 32
    case Board => 40
    case ZenohMode => 41
    case SessionReady => 42
    case NetworkState => 43
    case Ipv4 => 44
    case AppId => 50
    case Command => 51
    case Args => 52
    case StartArgs => 53
    case Reason => 54
    case Path => 55
    case Transport => 56
    case ArtifactKey => 57
    case Size => 58
    case ChunkSize => 59
    case AppCount => 60
    case RunningCount => 61
    case SuspendedCount => 62
    case Apps => 63
    case RuntimeState => 64
    case ManifestPresent => 65
    case UpdateState => 66
    case ArtifactState => 67
    case StableRef => 68
    case LastError => 69
    case RollbackReason => 70
    case Leases => 71
    case CallbackEnabled => 80
    case TriggerEvery => 81
    case EventName => 82
    case InvokeCount => 83
    case StartCount => 84
    case ConfigChanged => 85
    case PublishRet => 86
    case Echo => 87
    case Stage => 90
    case Detail => 91
    case StateVersion => 92
    case Action => 93
  }

  /** The enumerator in lower case, which is how the field is spelled in a payload. */
  function FieldName(k: DeviceKey): string {
    match k
    case SchemaVersion => "schema_version"
    case MessageKind => "message_kind"
    case Status => "status"
    case RequestId => "request_id"
    case NodeId => "node_id"
    case SourceCore => "source_core"
    case SourceAgent => "source_agent"
    case TargetNode => "target_node"
    case TimeoutMs => "timeout_ms"
    case Priority => "priority"
    case IdempotencyKey => "idempotency_key"
    case LeaseId => "lease_id"
    case Forwarded => "forwarded"
    case StatusCode => "status_code"
    case Message => "message"
    case Resource => "resource"
    case ExpiresAtMs => "expires_at_ms"
    case TtlMs => "ttl_ms"
    case Board => "board"
    case ZenohMode => "zenoh_mode"
    case SessionReady => "session_ready"
    case NetworkState => "network_state"
    case Ipv4 => "ipv4"
    case AppId => "app_id"
    case Command => "command"
    case Args => "args"
    case StartArgs => "start_args"
    case Reason => "reason"
    case Path => "path"
    case Transport => "transport"
    case ArtifactKey => "artifact_key"
    case Size => "size"
    case ChunkSize => "chunk_size"
    case AppCount => "app_count"
    case RunningCount => "running_count"
    case SuspendedCount => "suspended_count"
    case Apps => "apps"
    case RuntimeState => "runtime_state"
    case ManifestPresent => "manifest_present"
    case UpdateState => "update_state"
    case ArtifactState => "artifact_state"
    case StableRef => "stable_ref"
    case LastError => "last_error"
    case RollbackReason => "rollback_reason"
    case Leases => "leases"
    case CallbackEnabled => "callback_enabled"
    case TriggerEvery => "trigger_every"
    case EventName => "event_name"
    case InvokeCount => "invoke_count"
    case StartCount => "start_count"
    case ConfigChanged => "config_changed"
    case PublishRet => "publish_ret"
    case Echo => "echo"
    case Stage => "stage"
    case Detail => "detail"
    case StateVersion => "state_version"
    case Action => "action"
  }

  function KindNumber(k: DeviceKind): int {
    match k
    case QueryRequest => 1
    case LeaseAcquireRequest => 2
    case LeaseReleaseRequest => 3
    case AppCommandRequest => 4
    case CallbackConfigRequest => 5
    case UpdatePrepareRequest => 6
    case UpdateVerifyRequest => 7
    case UpdateActivateRequest => 8
    case UpdateRollbackRequest => 9
    case UpdateDeleteRequest => 10
    case ErrorReply => 20
    case LeaseReply => 21
    case QueryDeviceReply => 22
    case QueryAppsReply => 23
    case QueryLeasesReply => 24
    case UpdatePrepareReply => 25
    case UpdateVerifyReply => 26
    case UpdateActivateReply => 27
    case UpdateRollbackReply => 28
    case AppCommandReply => 29
    case CallbackEvent => 40
    case UpdateEvent => 41
    case StateEvent => 42
    case LeaseEvent => 43
  }

  function MessageName(k: DeviceKind): string {
    match k
    case QueryRequest => "query_request"
    case LeaseAcquireRequest => "lease_acquire_request"
    case LeaseReleaseRequest => "lease_release_request"
    case AppCommandRequest => "app_command_request"
    case CallbackConfigRequest => "callback_config_request"
    case UpdatePrepareRequest => "update_prepare_request"
    case UpdateVerifyRequest => "update_verify_request"
    case UpdateActivateRequest => "update_activate_request"
    case UpdateRollbackRequest => "update_rollback_request"
    case UpdateDeleteRequest => "update_delete_request"
    case ErrorReply => "error_reply"
    case LeaseReply => "lease_reply"
    case QueryDeviceReply => "query_device_reply"
    case QueryAppsReply => "query_apps_reply"
    case QueryLeasesReply => "query_leases_reply"
    case UpdatePrepareReply => "update_prepare_reply"
    case UpdateVerifyReply => "update_verify_reply"
    case UpdateActivateReply => "update_activate_reply"
    case UpdateRollbackReply => "update_rollback_reply"
    case AppCommandReply => "app_command_reply"
    case CallbackEvent => "callback_event"
    case UpdateEvent => "update_event"
    case StateEvent => "state_event"
    case LeaseEvent => "lease_event"
  }

  // ---------- Client and device agree ----------

  lemma FirstNamesAgree(k: DeviceKey)
    requires KeyNumber(k) < 7
    ensures NameOf(KeyNumber(k)) == Some(FieldName(k))
  {
  }

  lemma SecondNamesAgree(k: DeviceKey)
    requires 7 <= KeyNumber(k) < 13
    ensures NameOf(KeyNumber(k)) == Some(FieldName(k))
  {
  }

  lemma ThirdNamesAgree(k: DeviceKey)
    requires 13 <= KeyNumber(k) < 31
    ensures NameOf(KeyNumber(k)) == Some(FieldName(k))
  {
  }

  lemma FourthNamesAgree(k: DeviceKey)
    requires 31 <= KeyNumber(k) < 50
    ensures NameOf(KeyNumber(k)) == Some(FieldName(k))
  {
  }

  lemma FifthNamesAgree(k: DeviceKey)
    requires 50 <= KeyNumber(k) < 57
    ensures NameOf(KeyNumber(k)) == Some(FieldName(k))
  {
  }

  lemma SixthNamesAgree(k: DeviceKey)
    requires 57 <= KeyNumber(k) < 65
    ensures NameOf(KeyNumber(k)) == Some(FieldName(k))
  {
  }

  lemma SeventhNamesAgree(k: DeviceKey)
    requires 65 <= KeyNumber(k) < 72
    ensures NameOf(KeyNumber(k)) == Some(FieldName(k))
  {
  }

  lemma EighthNamesAgree(k: DeviceKey)
    requires 72 <= KeyNumber(k) < 85
    ensures NameOf(KeyNumber(k)) == Some(FieldName(k))
  {
  }

  lemma NinthNamesAgree(k: DeviceKey)
    requires 85 <= KeyNumber(k)
    ensures NameOf(KeyNumber(k)) == Some(FieldName(k))
  {
  }

  lemma KeyAgrees(k: DeviceKey)
    ensures KeyOf(FieldName(k)) == Some(KeyNumber(k))
  {
    hide KeyOf, NameOf, FieldName, KeyNumber;
    if KeyNumber(k) < 7 {
      FirstNamesAgree(k);
    } else if KeyNumber(k) < 13 {
      SecondNamesAgree(k);
    } else if KeyNumber(k) < 31 {
      ThirdNamesAgree(k);
    } else if KeyNumber(k) < 50 {
      FourthNamesAgree(k);
    } else if KeyNumber(k) < 57 {
      FifthNamesAgree(k);
    } else if KeyNumber(k) < 65 {
      SixthNamesAgree(k);
    } else if KeyNumber(k) < 72 {
      SeventhNamesAgree(k);
    } else if KeyNumber(k) < 85 {
      EighthNamesAgree(k);
    } else {
      NinthNamesAgree(k);
    }
    KeyBijection(FieldName(k), KeyNumber(k));
  }

  function KeyNumbered(code: int): Option<DeviceKey> {
    match code
    case 0 => Some(SchemaVersion)
    case 1 => Some(MessageKind)
    case 2 => Some(Status)
    case 3 => Some(RequestId)
    case 4 => Some(NodeId)
    case 5 => Some(SourceCore)
    case 6 => Some(SourceAgent)
    case 7 => Some(TargetNode)
    case 8 => Some(TimeoutMs)
    case 9 => Some(Priority)
    case 10 => Some(IdempotencyKey)
    case 11 => Some(LeaseId)
    case 12 => Some(Forwarded)
    case 20 => Some(StatusCode)
    case 21 => Some(Message)
    case 30 => Some(Resource)
    case 31 => Some(ExpiresAtMs)
    case 32 => Some(TtlMs)
    case 40 => Some(Board)
    case 41 => Some(ZenohMode)
    case 42 => Some(SessionReady)
    case 43 => Some(NetworkState)
    case 44 => Some(Ipv4)
    case 50 => Some(AppId)
    case 51 => Some(Command)
    case 52 => Some(Args)
    case 53 => Some(StartArgs)
    case 54 => Some(Reason)
    case 55 => Some(Path)
    case 56 => Some(Transport)
    case 57 => Some(ArtifactKey)
    case 58 => Some(Size)
    case 59 => Some(ChunkSize)
    case 60 => Some(AppCount)
    case 61 => Some(RunningCount)
    case 62 => Some(SuspendedCount)
    case 63 => Some(Apps)
    case 64 => Some(RuntimeState)
    case 65 => Some(ManifestPresent)
    case 66 => Some(UpdateState)
    case 67 => Some(ArtifactState)
    case 68 => Some(StableRef)
    case 69 => Some(LastError)
    case 70 => Some(RollbackReason)
    case 71 => Some(Leases)
    case 80 => Some(CallbackEnabled)
    case 81 => Some(TriggerEvery)
    case 82 => Some(EventName)
    case 83 => Some(InvokeCount)
    case 84 => Some(StartCount)
    case 85 => Some(ConfigChanged)
    case 86 => Some(PublishRet)
    case 87 => Some(Echo)
    case 90 => Some(Stage)
    case 91 => Some(Detail)
    case 92 => Some(StateVersion)
    case 93 => Some(Action)
    case _ => None
  }

  lemma LowKeyExists(code: int)
    requires code < 57 && NameOf(code).Some?
    ensures KeyNumbered(code).Some?
  {
  }

  lemma HighKeyExists(code: int)
    requires 57 <= code && NameOf(code).Some?
    ensures KeyNumbered(code).Some?
  {
  }

  lemma KeyNumberedRight(code: int)
    ensures KeyNumbered(code).Some? ==> KeyNumber(KeyNumbered(code).value) == code
  {
  }

  /** The client numbers a field by a code exactly if the device does. */
  lemma FieldsAgree(name: string, code: int)
    ensures KeyOf(name) == Some(code) <==> exists k :: FieldName(k) == name && KeyNumber(k) == code
  {
    hide KeyOf, NameOf, FieldName, KeyNumber, KeyNumbered;
    if KeyOf(name) == Some(code) {
      KeyBijection(name, code);
      if code < 57 {
        LowKeyExists(code);
      } else {
        HighKeyExists(code);
      }
      KeyNumberedRight(code);
      var k := KeyNumbered(code).value;
      KeyAgrees(k);
      KeyBijection(FieldName(k), code);
    }
    if k :| FieldName(k) == name && KeyNumber(k) == code {
      KeyAgrees(k);
    }
  }

  lemma RequestNamesAgree(k: DeviceKind)
    requires KindNumber(k) < 20
    ensures KindName(KindNumber(k)) == Some(MessageName(k))
  {
  }

  lemma OtherNamesAgree(k: DeviceKind)
    requires 20 <= KindNumber(k)
    ensures KindName(KindNumber(k)) == Some(MessageName(k))
  {
  }

  lemma KindAgrees(k: DeviceKind)
    ensures KindCode(MessageName(k)) == Some(KindNumber(k))
  {
    hide KindCode, KindName, MessageName, KindNumber;
    if KindNumber(k) < 20 {
      RequestNamesAgree(k);
    } else {
      OtherNamesAgree(k);
    }
    KindBijection(MessageName(k), KindNumber(k));
  }

  function KindNumbered(code: int): Option<DeviceKind> {
    match code
    case 1 => Some(QueryRequest)
    case 2 => Some(LeaseAcquireRequest)
    case 3 => Some(LeaseReleaseRequest)
    case 4 => Some(AppCommandRequest)
    case 5 => Some(CallbackConfigRequest)
    case 6 => Some(UpdatePrepareRequest)
    case 7 => Some(UpdateVerifyRequest)
    case 8 => Some(UpdateActivateRequest)
    case 9 => Some(UpdateRollbackRequest)
    case 10 => Some(UpdateDeleteRequest)
    case 20 => Some(ErrorReply)
    case 21 => Some(LeaseReply)
    case 22 => Some(QueryDeviceReply)
    case 23 => Some(QueryAppsReply)
    case 24 => Some(QueryLeasesReply)
    case 25 => Some(UpdatePrepareReply)
    case 26 => Some(UpdateVerifyReply)
    case 27 => Some(UpdateActivateReply)
    case 28 => Some(UpdateRollbackReply)
    case 29 => Some(AppCommandReply)
    case 40 => Some(CallbackEvent)
    case 41 => Some(UpdateEvent)
    case 42 => Some(StateEvent)
    case 43 => Some(LeaseEvent)
    case _ => None
  }

  lemma KindExists(name: string)
    requires KindCode(name).Some?
    ensures KindNumbered(KindCode(name).value).Some?
  {
  }

  lemma KindNumberedRight(code: int)
    ensures KindNumbered(code).Some? ==> KindNumber(KindNumbered(code).value) == code
  {
  }

  /** And a message kind. */
  lemma KindsAgree(name: string, code: int)
    ensures KindCode(name) == Some(code) <==> exists k :: MessageName(k) == name && KindNumber(k) == code
  {
    hide KindCode, KindName, MessageName, KindNumber, KindNumbered;
    if KindCode(name) == Some(code) {
      KindExists(name);
      KindNumberedRight(code);
      var k := KindNumbered(code).value;
      KindAgrees(k);
      KindBijection(name, code);
      KindBijection(MessageName(k), code);
    }
    if k :| MessageName(k) == name && KindNumber(k) == code {
      KindAgrees(k);
    }
  }

  // ---------- What the device finds in a message ----------

  /** The message is a dict that holds the given number under the given number. */
  predicate Carries(data: Bytes, key: int, value: Value) {
    Decode(data).Ok? && Decode(data).value.Dict? && Entry(Int(key), value) in Decode(data).value.entries
  }

  /** A message opens with schema version 2 and the number of its kind. */
  predicate Opens(data: Bytes, kind: int) {
    Carries(data, 0, Int(2)) && Carries(data, 1, Int(kind))
  }

  /** The entries of the root dict are all in the message, each with its value in canonical form. */
  lemma RootCarried(payload: seq<Entry>, kind: string, i: nat)
    requires Sendable(payload) && KindCode(kind).Some? && i < |ToCbor(payload, kind)|
    ensures var e := ToCbor(payload, kind)[i];
      e.key.Int? && Carries(EncodePayload(payload, kind), e.key.n, Canon(e.value))
  {
    hide KindCode, Encode, SortEntries, CanonEntries, Sendable, Root, DistinctKeys, PythonValue, Encodable, Decode;
    hide ToCbor, Expected;
    var root, want := ToCbor(payload, kind), Expected(payload, kind);
    RootShape(payload, kind);
    RootLength(payload, kind, root, want);
    WantDistinct(payload, kind, root, want);
    RootEncodable(payload, kind, root, want);
    RootKeys(payload, kind, root, want, i);
    RoundTrip(Dict(root));
    SortedFrom(root, root[i]);
    var s := SortEntries(root);
    var q :| 0 <= q < |s| && s[q] == root[i];
    CanonEntriesAt(s, q);
    assert CanonEntries(s)[q] == Entry(Int(root[i].key.n), Canon(root[i].value));
  }

  /** The version and the kind. */
  lemma HeaderCarried(payload: seq<Entry>, kind: string)
    requires Sendable(payload) && KindCode(kind).Some?
    ensures Opens(EncodePayload(payload, kind), KindCode(kind).value)
  {
    var root, want := ToCbor(payload, kind), Expected(payload, kind);
    hide KindCode, Sendable, ToCbor, Expected, EncodePayload, Carries;
    RootShape(payload, kind);
    RootLength(payload, kind, root, want);
    RootCarried(payload, kind, 0);
    RootCarried(payload, kind, 1);
  }

  /** A field that the device knows stands under the device's number for it. */
  lemma FieldCarried(payload: seq<Entry>, kind: string, e: Entry, k: DeviceKey)
    requires Sendable(payload) && KindCode(kind).Some? && e in payload && e.key == Text(FieldName(k))
    ensures Carries(EncodePayload(payload, kind), KeyNumber(k), Canon(e.value))
  {
    hide KindCode, Sendable, Carries, KeyOf, FieldName, KeyNumber, Root, ToCbor, Expected;
    KeyAgrees(k);
    FieldSent(payload, e);
    var f := Fields(payload);
    var j :| 0 <= j < |f| && f[j] == e;
    RootShape(payload, kind);
    FieldCode(payload, kind, j);
    RootCarried(payload, kind, j + 2);
  }

  lemma {:induction false} FieldSent(payload: seq<Entry>, e: Entry)
    requires e in payload && Registered(e.key)
    ensures e in Fields(payload)
  {
    hide KeyOf, Registered;
    if e != payload[0] {
      assert payload == [payload[0]] + payload[1..];
      FieldSent(payload[1..], e);
    }
  }

  lemma FieldCode(payload: seq<Entry>, kind: string, j: nat)
    requires j < |Fields(payload)| && KindCode(kind).Some?
    requires Root(payload, kind, ToCbor(payload, kind), Expected(payload, kind))
    ensures var e, root := Fields(payload)[j], ToCbor(payload, kind);
      |root| > j + 2 && e.key.Text? && KeyOf(e.key.s).Some?
      && root[j + 2] == Entry(Int(KeyOf(e.key.s).value), e.value)
  {
    hide KeyOf, KindCode, PythonValue, Encodable, ToCbor, Fields;
    assert Expected(payload, kind)[j + 2] == Fields(payload)[j];
  }

  // ---------- Each of the four requests ----------

  /** A query is message 1. */
  lemma QueryOnWire(node: string, kind: string, payload: seq<Entry>)
    requires SlashFree(node) && SlashFree(kind) && Sendable(payload)
    ensures var sent := EncodeQueryPayload("neuro/" + node + "/query/" + kind, payload);
      sent.Some? && Opens(sent.value, 1)
  {
    hide Sendable, EncodePayload, KindForRoute, CallbackFields, Opens;
    QueryRouteKind(node, kind, CallbackFields(payload));
    KindAgrees(QueryRequest);
    HeaderCarried(payload, "query_request");
  }

  /** Acquiring a lease is message 2 and releasing one is message 3; nothing else can be done. */
  lemma LeaseOnWire(node: string, action: string, payload: seq<Entry>)
    requires SlashFree(node) && SlashFree(action) && Sendable(payload)
    ensures var sent := EncodeQueryPayload("neuro/" + node + "/cmd/lease/" + action, payload);
      && (sent.Some? <==> action == "acquire" || action == "release")
      && (action == "acquire" ==> Opens(sent.value, 2))
      && (action == "release" ==> Opens(sent.value, 3))
  {
    hide Sendable, EncodePayload, KindForRoute, CallbackFields, Opens;
    LeaseRouteKind(node, action, CallbackFields(payload));
    KindAgrees(LeaseAcquireRequest);
    KindAgrees(LeaseReleaseRequest);
    if action == "acquire" {
      HeaderCarried(payload, "lease_acquire_request");
    } else if action == "release" {
      HeaderCarried(payload, "lease_release_request");
    }
  }

  /** An app command is message 4; the callback configuration, which is the command "invoke" with a
      callback field, is message 5. */
  lemma AppCommandOnWire(node: string, appId: string, command: string, payload: seq<Entry>)
    requires SlashFree(node) && SlashFree(appId) && SlashFree(command) && Sendable(payload)
    ensures var sent := EncodeQueryPayload("neuro/" + node + "/cmd/app/" + appId + "/" + command, payload);
      var callback := exists e ::
        e in payload && e.key in {Text("callback_enabled"), Text("trigger_every"), Text("event_name")};
      sent.Some? && Opens(sent.value, if command == "invoke" && callback then 5 else 4)
  {
    assert CallbackFields(payload) <==> exists e ::
        e in payload && e.key in {Text("callback_enabled"), Text("trigger_every"), Text("event_name")};
    hide Sendable, EncodePayload, KindForRoute, CallbackFields, Opens;
    AppCommandRouteKind(node, appId, command, CallbackFields(payload));
    KindAgrees(AppCommandRequest);
    KindAgrees(CallbackConfigRequest);
    if command == "invoke" && CallbackFields(payload) {
      HeaderCarried(payload, "callback_config_request");
    } else {
      HeaderCarried(payload, "app_command_request");
    }
  }

  /** The five stages of an update are messages 6 to 10; there are no others. */
  lemma UpdateOnWire(node: string, appId: string, stage: string, payload: seq<Entry>)
    requires SlashFree(node) && SlashFree(appId) && SlashFree(stage) && Sendable(payload)
    ensures var sent := EncodeQueryPayload("neuro/" + node + "/update/app/" + appId + "/" + stage, payload);
      && (sent.Some? <==> stage in {"prepare", "verify", "activate", "rollback", "delete"})
      && (stage == "prepare" ==> Opens(sent.value, 6))
      && (stage == "verify" ==> Opens(sent.value, 7))
      && (stage == "activate" ==> Opens(sent.value, 8))
      && (stage == "rollback" ==> Opens(sent.value, 9))
      && (stage == "delete" ==> Opens(sent.value, 10))
  {
    hide Sendable, EncodePayload, KindForRoute, CallbackFields, Opens;
    UpdateRouteKind(node, appId, stage, CallbackFields(payload));
    if StageKind(stage).Some? {
      StageCodes(stage);
      HeaderCarried(payload, StageKind(stage).value);
    }
  }

  lemma StageCodes(stage: string)
    requires StageKind(stage).Some?
    ensures KindCode(StageKind(stage).value)
         == Some(if stage == "prepare" then 6 else if stage == "verify" then 7 else if stage == "activate" then 8
                 else if stage == "rollback" then 9 else 10)
  {
    KindAgrees(UpdatePrepareRequest);
    KindAgrees(UpdateVerifyRequest);
    KindAgrees(UpdateActivateRequest);
    KindAgrees(UpdateRollbackRequest);
    KindAgrees(UpdateDeleteRequest);
  }

  lemma EmptyPayload()
    ensures KindCode("query_request") == Some(1)
    ensures EncodePayload([], "query_request") == [0xA2, 0x00, 0x02, 0x01, 0x01]
  {
    KindAgrees(QueryRequest);
    var a, b := Entry(Int(0), Int(2)), Entry(Int(1), Int(1));
    assert ToCbor([], "query_request") == [a, b];
    assert Encode(Int(0)) == [0x00];
    OneByteEach();
    DictInOrder(a, b);
    hide Encode, ToCbor, KindCode;
  }

  /** The shortest message, byte for byte: a query without fields. */
  lemma EmptyQuery(node: string, kind: string)
    requires SlashFree(node) && SlashFree(kind)
    ensures EncodeQueryPayload("neuro/" + node + "/query/" + kind, []) == Some([0xA2, 0x00, 0x02, 0x01, 0x01])
  {
    hide KindForRoute, CallbackFields, KindCode, EncodePayload;
    QueryRouteKind(node, kind, CallbackFields([]));
    EmptyPayload();
  }
}
