/** The registered field names and message kinds with their codes. */
module Registry {
  import opened Wrappers

  function KeyOf(name: string): Option<int> {
    match name
    case "schema_version" => Some(0)
    case "message_kind" => Some(1)
    case "status" => Some(2)
    case "request_id" => Some(3)
    case "node_id" => Some(4)
    case "source_core" => Some(5)
    case "source_agent" => Some(6)
    case "target_node" => Some(7)
    case "timeout_ms" => Some(8)
    case "priority" => Some(9)
    case "idempotency_key" => Some(10)
    case "lease_id" => Some(11)
    case "forwarded" => Some(12)
    case "status_code" => Some(20)
    case "message" => Some(21)
    case "resource" => Some(30)
    case "expires_at_ms" => Some(31)
    case "ttl_ms" => Some(32)
    case "board" => Some(40)
    case "zenoh_mode" => Some(41)
    case "session_ready" => Some(42)
    case "network_state" => Some(43)
    case "ipv4" => Some(44)
    case "app_id" => Some(50)
    case "command" => Some(51)
    case "args" => Some(52)
    case "start_args" => Some(53)
    case "reason" => Some(54)
    case "path" => Some(55)
    case "transport" => Some(56)
    case "artifact_key" => Some(57)
    case "size" => Some(58)
    case "chunk_size" => Some(59)
    case "app_count" => Some(60)
    case "running_count" => Some(61)
    case "suspended_count" => Some(62)
    case "apps" => Some(63)
    case "runtime_state" => Some(64)
    case "manifest_present" => Some(65)
    case "update_state" => Some(66)
    case "artifact_state" => Some(67)
    case "stable_ref" => Some(68)
    case "last_error" => Some(69)
    case "rollback_reason" => Some(70)
    case "leases" => Some(71)
    case "callback_enabled" => Some(80)
    case "trigger_every" => Some(81)
    case "event_name" => Some(82)
    case "invoke_count" => Some(83)
    case "start_count" => Some(84)
    case "config_changed" => Some(85)
    case "publish_ret" => Some(86)
    case "echo" => Some(87)
    case "stage" => Some(90)
    case "detail" => Some(91)
    case "state_version" => Some(92)
    case "action" => Some(93)
    case _ => None
  }

  function NameOf(code: int): Option<string> {
    match code
    case 0 => Some("schema_version")
    case 1 => Some("message_kind")
    case 2 => Some("status")
    case 3 => Some("request_id")
    case 4 => Some("node_id")
    case 5 => Some("source_core")
    case 6 => Some("source_agent")
    case 7 => Some("target_node")
    case 8 => Some("timeout_ms")
    case 9 => Some("priority")
    case 10 => Some("idempotency_key")
    case 11 => Some("lease_id")
    case 12 => Some("forwarded")
    case 20 => Some("status_code")
    case 21 => Some("message")
    case 30 => Some("resource")
    case 31 => Some("expires_at_ms")
    case 32 => Some("ttl_ms")
    case 40 => Some("board")
    case 41 => Some("zenoh_mode")
    case 42 => Some("session_ready")
    case 43 => Some("network_state")
    case 44 => Some("ipv4")
    case 50 => Some("app_id")
    case 51 => Some("command")
    case 52 => Some("args")
    case 53 => Some("start_args")
    case 54 => Some("reason")
    case 55 => Some("path")
    case 56 => Some("transport")
    case 57 => Some("artifact_key")
    case 58 => Some("size")
    case 59 => Some("chunk_size")
    case 60 => Some("app_count")
    case 61 => Some("running_count")
    case 62 => Some("suspended_count")
    case 63 => Some("apps")
    case 64 => Some("runtime_state")
    case 65 => Some("manifest_present")
    case 66 => Some("update_state")
    case 67 => Some("artifact_state")
    case 68 => Some("stable_ref")
    case 69 => Some("last_error")
    case 70 => Some("rollback_reason")
    case 71 => Some("leases")
    case 80 => Some("callback_enabled")
    case 81 => Some("trigger_every")
    case 82 => Some("event_name")
    case 83 => Some("invoke_count")
    case 84 => Some("start_count")
    case 85 => Some("config_changed")
    case 86 => Some("publish_ret")
    case 87 => Some("echo")
    case 90 => Some("stage")
    case 91 => Some("detail")
    case 92 => Some("state_version")
    case 93 => Some("action")
    case _ => None
  }

  function KindCode(name: string): Option<int> {
    match name
    case "query_request" => Some(1)
    case "lease_acquire_request" => Some(2)
    case "lease_release_request" => Some(3)
    case "app_command_request" => Some(4)
    case "callback_config_request" => Some(5)
    case "update_prepare_request" => Some(6)
    case "update_verify_request" => Some(7)
    case "update_activate_request" => Some(8)
    case "update_rollback_request" => Some(9)
    case "update_delete_request" => Some(10)
    case "error_reply" => Some(20)
    case "lease_reply" => Some(21)
    case "query_device_reply" => Some(22)
    case "query_apps_reply" => Some(23)
    case "query_leases_reply" => Some(24)
    case "update_prepare_reply" => Some(25)
    case "update_verify_reply" => Some(26)
    case "update_activate_reply" => Some(27)
    case "update_rollback_reply" => Some(28)
    case "app_command_reply" => Some(29)
    case "callback_event" => Some(40)
    case "update_event" => Some(41)
    case "state_event" => Some(42)
    case "lease_event" => Some(43)
    case _ => None
  }

  function KindName(code: int): Option<string> {
    match code
    case 1 => Some("query_request")
    case 2 => Some("lease_acquire_request")
    case 3 => Some("lease_release_request")
    case 4 => Some("app_command_request")
    case 5 => Some("callback_config_request")
    case 6 => Some("update_prepare_request")
    case 7 => Some("update_verify_request")
    case 8 => Some("update_activate_request")
    case 9 => Some("update_rollback_request")
    case 10 => Some("update_delete_request")
    case 20 => Some("error_reply")
    case 21 => Some("lease_reply")
    case 22 => Some("query_device_reply")
    case 23 => Some("query_apps_reply")
    case 24 => Some("query_leases_reply")
    case 25 => Some("update_prepare_reply")
    case 26 => Some("update_verify_reply")
    case 27 => Some("update_activate_reply")
    case 28 => Some("update_rollback_reply")
    case 29 => Some("app_command_reply")
    case 40 => Some("callback_event")
    case 41 => Some("update_event")
    case 42 => Some("state_event")
    case 43 => Some("lease_event")
    case _ => None
  }

  /** Codes and names determine each other, so renaming loses nothing. */
  lemma KeyBijection(name: string, code: int)
    ensures KeyOf(name) == Some(code) <==> NameOf(code) == Some(name)
  {
    if KeyOf(name) == Some(code) {
      if code < 30 {
        LowKeyToName(name);
      } else if code < 60 {
        MiddleKeyToName(name);
      } else if code < 80 {
        HighKeyToName(name);
      } else {
        TopKeyToName(name);
      }
    }
    if NameOf(code) == Some(name) {
      if code < 30 {
        LowNameToKey(code);
      } else if code < 57 {
        MiddleNameToKey(code);
      } else if code < 68 {
        UpperNameToKey(code);
      } else if code < 84 {
        HighNameToKey(code);
      } else if code < 90 {
        HigherNameToKey(code);
      } else {
        TopNameToKey(code);
      }
    }
  }

  lemma LowKeyToName(name: string)
    requires KeyOf(name).Some? && KeyOf(name).value < 30
    ensures NameOf(KeyOf(name).value) == Some(name)
  {
  }

  lemma MiddleKeyToName(name: string)
    requires KeyOf(name).Some? && 30 <= KeyOf(name).value < 60
    ensures NameOf(KeyOf(name).value) == Some(name)
  {
  }

  lemma HighKeyToName(name: string)
    requires KeyOf(name).Some? && 60 <= KeyOf(name).value < 80
    ensures NameOf(KeyOf(name).value) == Some(name)
  {
  }

  lemma TopKeyToName(name: string)
    requires KeyOf(name).Some? && 80 <= KeyOf(name).value
    ensures NameOf(KeyOf(name).value) == Some(name)
  {
    assert KeyOf(name).value < 94;
  }

  lemma LowNameToKey(code: int)
    requires code < 30 && NameOf(code).Some?
    ensures KeyOf(NameOf(code).value) == Some(code)
  {
  }

  lemma MiddleNameToKey(code: int)
    requires 30 <= code < 57 && NameOf(code).Some?
    ensures KeyOf(NameOf(code).value) == Some(code)
  {
  }

  lemma UpperNameToKey(code: int)
    requires 57 <= code < 68 && NameOf(code).Some?
    ensures KeyOf(NameOf(code).value) == Some(code)
  {
  }

  lemma HighNameToKey(code: int)
    requires 68 <= code < 84 && NameOf(code).Some?
    ensures KeyOf(NameOf(code).value) == Some(code)
  {
  }

  lemma HigherNameToKey(code: int)
    requires 84 <= code < 90 && NameOf(code).Some?
    ensures KeyOf(NameOf(code).value) == Some(code)
  {
  }

  lemma TopNameToKey(code: int)
    requires 90 <= code && NameOf(code).Some?
    ensures KeyOf(NameOf(code).value) == Some(code)
  {
    assert code < 94;
  }

  lemma KindBijection(name: string, code: int)
    ensures KindCode(name) == Some(code) <==> KindName(code) == Some(name)
  {
  }

  lemma Codes(name: string)
    ensures KeyOf("schema_version") == Some(0) && KeyOf("message_kind") == Some(1)
    ensures KeyOf(name).Some? ==> 0 <= KeyOf(name).value < 100
  {
  }

  lemma SmallKinds(name: string)
    requires KindCode(name).Some?
    ensures 0 <= KindCode(name).value < 100
  {
  }
}
