/** Route builders and the classifier that finds the message kind of a route. */
module Routes {
  import opened Wrappers

  /** Python's `s.split("/")`. */
  function Split(s: string): (r: seq<string>)
    ensures |r| >= 1
  {
    if s == "" then [""]
    else
      var rest := Split(s[1..]);
      if s[0] == '/' then [""] + rest else [[s[0]] + rest[0]] + rest[1..]
  }

  predicate SlashFree(s: string) {
    '/' !in s
  }

  lemma {:induction false} SplitToken(token: string)
    requires SlashFree(token)
    ensures Split(token) == [token]
  {
    if token == "" {
    } else {
      SplitToken(token[1..]);
      assert [token[0]] + token[1..] == token;
    }
  }

  lemma {:induction false} SplitStep(token: string, rest: string)
    requires SlashFree(token)
    ensures Split(token + "/" + rest) == [token] + Split(rest)
  {
    var s := token + "/" + rest;
    if token == "" {
      assert s[1..] == rest;
    } else {
      assert s[1..] == token[1..] + "/" + rest;
      SplitStep(token[1..], rest);
      assert [token[0]] + token[1..] == token;
    }
  }

  /** Splitting undoes joining of slash-free tokens. */
  function Join(tokens: seq<string>): string
    requires tokens != []
  {
    if |tokens| == 1 then tokens[0] else tokens[0] + "/" + Join(tokens[1..])
  }

  lemma {:induction false} SplitJoin(tokens: seq<string>)
    requires tokens != [] && forall t :: t in tokens ==> SlashFree(t)
    ensures Split(Join(tokens)) == tokens
  {
    if |tokens| == 1 {
      SplitToken(tokens[0]);
    } else {
      SplitStep(tokens[0], Join(tokens[1..]));
      SplitJoin(tokens[1..]);
    }
  }

  function QueryRoute(node: string, kind: string): string {
    "neuro/" + node + "/query/" + kind
  }

  function LeaseRoute(node: string, action: string): string {
    "neuro/" + node + "/cmd/lease/" + action
  }

  function AppCommandRoute(node: string, appId: string, command: string): string {
    "neuro/" + node + "/cmd/app/" + appId + "/" + command
  }

  function UpdateRoute(node: string, appId: string, stage: string): string {
    "neuro/" + node + "/update/app/" + appId + "/" + stage
  }

  /** The update stage names and their kinds. */
  function StageKind(stage: string): Option<string> {
    match stage
    case "prepare" => Some("update_prepare_request")
    case "verify" => Some("update_verify_request")
    case "activate" => Some("update_activate_request")
    case "rollback" => Some("update_rollback_request")
    case "delete" => Some("update_delete_request")
    case _ => None
  }

  /** The kind of the parts of a route; None is the ValueError for an unsupported route. The flag
      says whether the payload has one of the callback configuration fields. */
  function KindOfParts(parts: seq<string>, callbackFields: bool): Option<string> {
    if |parts| >= 4 && parts[2] == "query" then Some("query_request")
    else if |parts| >= 5 && parts[2..4] == ["cmd", "lease"] && parts[4] == "acquire" then Some("lease_acquire_request")
    else if |parts| >= 5 && parts[2..4] == ["cmd", "lease"] && parts[4] == "release" then Some("lease_release_request")
    else if |parts| >= 5 && parts[2..4] == ["cmd", "app"] then
      if parts[|parts| - 1] == "invoke" && callbackFields then Some("callback_config_request")
      else Some("app_command_request")
    else if |parts| >= 6 && parts[2..4] == ["update", "app"] then StageKind(parts[5])
    else None
  }

  function KindForRoute(keyexpr: string, callbackFields: bool): Option<string> {
    KindOfParts(Split(keyexpr), callbackFields)
  }

  lemma QueryRouteKind(node: string, kind: string, callbackFields: bool)
    requires SlashFree(node) && SlashFree(kind)
    ensures KindForRoute(QueryRoute(node, kind), callbackFields) == Some("query_request")
  {
    var tokens := ["neuro", node, "query", kind];
    JoinFew(tokens);
    assert QueryRoute(node, kind) == "neuro" + "/" + (node + "/" + ("query" + "/" + kind));
    SplitJoin(tokens);
  }

  /** A lease route has a kind for acquire and release only. */
  lemma LeaseRouteKind(node: string, action: string, callbackFields: bool)
    requires SlashFree(node) && SlashFree(action)
    ensures KindForRoute(LeaseRoute(node, action), callbackFields)
         == if action == "acquire" then Some("lease_acquire_request")
            else if action == "release" then Some("lease_release_request")
            else None
  {
    var tokens := ["neuro", node, "cmd", "lease", action];
    JoinFew(tokens);
    assert LeaseRoute(node, action) == "neuro" + "/" + (node + "/" + ("cmd" + "/" + ("lease" + "/" + action)));
    SplitJoin(tokens);
    assert Split(LeaseRoute(node, action))[2..4] == ["cmd", "lease"];
    assert "lease" != "app" by { assert |"lease"| != |"app"|; }
    assert ["cmd", "lease"][1] != ["cmd", "app"][1] && ["cmd", "lease"][0] != ["update", "app"][0];
  }

  lemma AppCommandRouteKind(node: string, appId: string, command: string, callbackFields: bool)
    requires SlashFree(node) && SlashFree(appId) && SlashFree(command)
    ensures KindForRoute(AppCommandRoute(node, appId, command), callbackFields)
         == if command == "invoke" && callbackFields then Some("callback_config_request")
            else Some("app_command_request")
  {
    var tokens := ["neuro", node, "cmd", "app", appId, command];
    JoinFew(tokens);
    assert AppCommandRoute(node, appId, command)
        == "neuro" + "/" + (node + "/" + ("cmd" + "/" + ("app" + "/" + (appId + "/" + command))));
    SplitJoin(tokens);
    assert tokens[2..4] == ["cmd", "app"];
    assert ["cmd", "lease"][1] != tokens[2..4][1];
  }

  /** An update route has the kind of its stage, if the stage has one. */
  lemma UpdateRouteKind(node: string, appId: string, stage: string, callbackFields: bool)
    requires SlashFree(node) && SlashFree(appId) && SlashFree(stage)
    ensures KindForRoute(UpdateRoute(node, appId, stage), callbackFields) == StageKind(stage)
  {
    hide StageKind;
    var tokens := ["neuro", node, "update", "app", appId, stage];
    JoinFew(tokens);
    assert UpdateRoute(node, appId, stage)
        == "neuro" + "/" + (node + "/" + ("update" + "/" + ("app" + "/" + (appId + "/" + stage))));
    SplitJoin(tokens);
    assert tokens[2..4] == ["update", "app"];
    assert tokens[2..4][0] != "cmd";
    assert ["cmd", "lease"][0] == "cmd" && ["cmd", "app"][0] == "cmd";
  }

  lemma JoinFew(t: seq<string>)
    requires 4 <= |t| <= 6
    ensures |t| == 4 ==> Join(t) == t[0] + "/" + (t[1] + "/" + (t[2] + "/" + t[3]))
    ensures |t| == 5 ==> Join(t) == t[0] + "/" + (t[1] + "/" + (t[2] + "/" + (t[3] + "/" + t[4])))
    ensures |t| == 6 ==> Join(t) == t[0] + "/" + (t[1] + "/" + (t[2] + "/" + (t[3] + "/" + (t[4] + "/" + t[5]))))
  {
    if |t| > 4 {
      JoinFew(t[1..]);
    } else {
      var u := t[1..];
      assert Join(u) == u[0] + "/" + Join(u[1..]) && Join(u[1..]) == u[1..][0] + "/" + Join(u[1..][1..]);
    }
  }
}
