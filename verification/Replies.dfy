/** The parts of command and tool replies that the workflows look at, and how a failure status
    is read out of them. An empty status means no failure. */
module Replies {
  import opened Wrappers
  import opened Basics

  /** A lease row: the names a resource may stand under, and the lease id. Absent is "". */
  datatype Lease = Lease(resource: string, resourceName: string, leaseName: string, name: string, leaseId: string)

  /** An app row; the state is in lower case, "unknown" when absent. */
  datatype App = App(id: string, state: string)

  /** The dict under "payload" of a command reply or of one of its replies. */
  datatype Body = Body(status: string, apps: Option<seq<App>>, leases: Option<seq<Lease>>)

  /** A JSON object printed by a command; `okFalse` says that "ok" is present and false. */
  datatype Payload = Payload(okFalse: bool, status: string, nested: Option<Body>, replies: Option<seq<Option<Body>>>)

  /** What a command printed: nothing that parses, JSON that is no object, or an object. */
  datatype CommandReply = NotJson(exitCode: int) | NotObject | Json(payload: Payload)

  /** What a tool returned. The classification is that of the health observation, "" if absent. */
  datatype ToolResult = ToolResult(status: string, failureStatus: string, classification: string,
                                     result: Option<Payload>)

  /** The first body whose status is set and not "ok". */
  function RepliesFailure(replies: seq<Option<Body>>): string {
    if replies == [] then ""
    else if replies[0].Some? && replies[0].value.status != "" && replies[0].value.status != "ok" then
      replies[0].value.status
    else RepliesFailure(replies[1..])
  }

  function PayloadFailure(p: Payload): string {
    if p.okFalse && p.status != "" then p.status
    else if p.nested.Some? && p.nested.value.status != "" && p.nested.value.status != "ok" then p.nested.value.status
    else if p.replies.Some? then RepliesFailure(p.replies.value)
    else ""
  }

  /** No failure is found exactly when no status that counts is a bad one. */
  lemma {:induction false} RepliesFailureIff(replies: seq<Option<Body>>)
    ensures RepliesFailure(replies) == "" <==>
      forall i :: 0 <= i < |replies| && replies[i].Some? ==> replies[i].value.status in ["", "ok"]
  {
    if replies != [] {
      RepliesFailureIff(replies[1..]);
      assert forall i :: 0 < i < |replies| ==> replies[i] == replies[1..][i - 1];
    }
  }

  function ToolFailure(t: ToolResult): string {
    if t.status != "ok" then OrElse(t.failureStatus, OrElse(t.status, "tool_execution_failed"))
    else if t.result.Some? then PayloadFailure(t.result.value)
    else ""
  }

  function IntText(n: int): string {
    if n < 0 then "-" + Decimal(-n) else Decimal(n)
  }

  /** The step fails with the parse error, with a bad status in the payload, or with a status
      other than the expected one; a status in `allowed` is no failure. */
  function StepFailure(reply: CommandReply, expected: Option<string>, allowed: seq<string>): string {
    match reply
    case NotJson(code) => if code != 0 then "command_exit_" + IntText(code) else "parse_failed"
    case NotObject => "parse_failed"
    case Json(p) =>
      var failure :=
        if expected.Some? && p.status != expected.value then OrElse(p.status, "unexpected_status")
        else PayloadFailure(p);
      if failure in allowed then "" else failure
  }

  // ---------- Observations ----------

  function FirstApps(replies: seq<Option<Body>>): seq<App> {
    if replies == [] then []
    else if replies[0].Some? && replies[0].value.apps.Some? then replies[0].value.apps.value
    else FirstApps(replies[1..])
  }

  function FirstLeases(replies: seq<Option<Body>>): seq<Lease> {
    if replies == [] then []
    else if replies[0].Some? && replies[0].value.leases.Some? then replies[0].value.leases.value
    else FirstLeases(replies[1..])
  }

  function ObservedApps(p: Payload): seq<App> {
    if p.nested.Some? && p.nested.value.apps.Some? then p.nested.value.apps.value
    else if p.replies.Some? then FirstApps(p.replies.value)
    else []
  }

  function ObservedLeases(p: Payload): seq<Lease> {
    if p.replies.Some? then FirstLeases(p.replies.value) else []
  }

  predicate RunningState(state: string) {
    state in ["running", "active", "started", "running_active"]
  }

  /** The first row of the app decides. */
  predicate AppRunning(apps: seq<App>, appId: string) {
    apps != [] && if apps[0].id == appId then RunningState(apps[0].state) else AppRunning(apps[1..], appId)
  }

  // Rows of a tool observation: only the first reply of an "ok" result is read.

  function LeaseRows(t: ToolResult): seq<Lease> {
    if t.status == "ok" && t.result.Some? && t.result.value.replies.Some? && t.result.value.replies.value != []
       && t.result.value.replies.value[0].Some? && t.result.value.replies.value[0].value.leases.Some?
    then t.result.value.replies.value[0].value.leases.value
    else []
  }

  function AppRows(t: ToolResult): seq<App> {
    if t.status == "ok" && t.result.Some? && t.result.value.replies.Some? && t.result.value.replies.value != []
       && t.result.value.replies.value[0].Some? && t.result.value.replies.value[0].value.apps.Some?
    then t.result.value.replies.value[0].value.apps.value
    else []
  }
}
