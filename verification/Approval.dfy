/** The approval gate: which planned tool runs at once, which waits for an operator, and what an
    operator's decision does to a waiting request. */
module Approval {
  import opened Wrappers
  import opened Basics
  import opened Replies

  // ---------- Policy ----------

  datatype SideEffect = ObserveOnly | ReadOnly | SuggestOnly | LowRiskExecute | ApprovalLevel | Destructive

  datatype Contract = Contract(sideEffect: SideEffect, approvalRequired: bool, requiredResources: seq<string>)

  datatype Verdict = Allow | NeedApproval | Block

  function Evaluate(contract: Contract): Verdict {
    if contract.approvalRequired then NeedApproval
    else if contract.sideEffect in {ObserveOnly, ReadOnly, SuggestOnly} then Allow
    else Block
  }

  type Manifest = map<string, Contract>

  predicate Allowed(manifest: Manifest, tool: string) {
    tool in manifest && Evaluate(manifest[tool]) == Allow
  }

  // ---------- State ----------

  datatype Status = Pending | Approved | Denied | Expired

  /** The arguments that matter for resuming; None is an absent key. */
  datatype Args = Args(appId: Option<string>, app: Option<string>, leaseId: Option<string>)

  datatype Request = Request(tool: string, args: Args, targetAppId: string, required: seq<string>, status: Status)

  datatype Decision = Approve | Deny | Expire

  /** A row of the decision table: an attempt stopped at the resource gate, or a final one. */
  datatype Attempt = Blocked | Final(decision: Decision)

  datatype DecisionRow = DecisionRow(id: string, attempt: Attempt)

  /** What an operator's decision finds on the device. */
  datatype Observation = Observation(leases: seq<Lease>, apps: seq<App>)

  /** Why a tool ran; a resumed one with what was observed for it. */
  datatype Origin = Planned | Recovery | Inspection | Resumed(id: string, seen: Observation)

  datatype Execution = Execution(tool: string, args: Args, origin: Origin)

  datatype State = State(requests: map<string, Request>, decisions: seq<DecisionRow>, executions: seq<Execution>)

  const NO_ARGS: Args := Args(None, None, None)

  const INSPECTIONS: seq<Execution> :=
    [Execution("system_query_leases", NO_ARGS, Inspection),
     Execution("system_query_apps", NO_ARGS, Inspection),
     Execution("system_state_sync", NO_ARGS, Inspection)]

  // ---------- The resource gate ----------

  /** A row's resource: the first of its names that is set. */
  function ResourceName(lease: Lease): string {
    OrElse(lease.resource, OrElse(lease.resourceName, OrElse(lease.leaseName, lease.name)))
  }

  predicate Observed(leases: seq<Lease>, resource: string) {
    resource != "" && exists i :: 0 <= i < |leases| && ResourceName(leases[i]) == resource
  }

  function TargetApp(request: Request, apps: seq<App>): string {
    OrElse(if request.args.appId.Some? then request.args.appId.value else "",
    OrElse(if request.args.app.Some? then request.args.app.value else "",
    OrElse(request.targetAppId, if |apps| == 1 then apps[0].id else "")))
  }

  /** The lease behind a required resource; None when it depends on an app that is not known. */
  function Resolve(resource: string, target: string): Option<string> {
    if resource == "app_control_lease" then
      if target != "" then Some("app/" + target + "/control") else None
    else if resource == "update_rollback_lease" then
      if target != "" then Some("update/app/" + target + "/rollback") else None
    else Some(resource)
  }

  predicate Satisfied(resource: string, target: string, leases: seq<Lease>) {
    Resolve(resource, target).Some? && Observed(leases, Resolve(resource, target).value)
  }

  /** Every required resource resolves to a lease that is observed. */
  predicate GateOpen(request: Request, leases: seq<Lease>, target: string) {
    forall i :: 0 <= i < |request.required| ==> Satisfied(request.required[i], target, leases)
  }

  /** The resources that keep the gate shut, in order, by the names they resolve to if they do. */
  function Missing(required: seq<string>, target: string, leases: seq<Lease>): seq<string> {
    if required == [] then []
    else
      var last := required[|required| - 1];
      Missing(required[..|required| - 1], target, leases)
      + if Satisfied(last, target, leases) then [] else [Resolve(last, target).GetOr(last)]
  }

  function Resolved(required: seq<string>, target: string): seq<string> {
    if required == [] then []
    else match Resolve(required[0], target)
      case Some(r) => [r] + Resolved(required[1..], target)
      case None => Resolved(required[1..], target)
  }

  /** The ids of the observed leases that stand under a resolved resource. */
  function MatchingIds(leases: seq<Lease>, resolved: seq<string>): seq<string> {
    if leases == [] then []
    else if leases[0].resource in resolved && leases[0].leaseId != "" then
      [leases[0].leaseId] + MatchingIds(leases[1..], resolved)
    else MatchingIds(leases[1..], resolved)
  }

  function Default(arg: Option<string>, value: string): Option<string> {
    if arg.None? && value != "" then Some(value) else arg
  }

  function ResumeArgs(request: Request, leases: seq<Lease>, target: string): Args {
    var ids := MatchingIds(leases, Resolved(request.required, target));
    Args(Default(request.args.appId, target), Default(request.args.app, target),
         Default(request.args.leaseId, if ids == [] then "" else ids[0]))
  }

  // ---------- Transitions ----------

  /** What a workflow run meets: a plan, whether its arguments are complete, what the planned tool
      returns, and the ids drawn for a request. */
  datatype Run = Run(tool: string, args: Args, complete: bool, result: ToolResult, healthApp: string, freshId: string)

  predicate NeedsRecovery(run: Run) {
    run.tool == "system_activation_health_guard" && run.result.status == "ok"
    && run.result.classification == "rollback_required"
  }

  function AskFor(s: State, id: string, request: Request): State {
    s.(requests := s.requests[id := request])
  }

  /** The gate of a workflow run. */
  function AfterRun(manifest: Manifest, s: State, run: Run): State {
    if run.tool !in manifest || !run.complete then s
    else match Evaluate(manifest[run.tool])
      case Block => s
      case NeedApproval =>
        AskFor(s, run.freshId, Request(run.tool, run.args, "", manifest[run.tool].requiredResources, Pending))
      case Allow =>
        var s1 := s.(executions := s.executions + [Execution(run.tool, run.args, Planned)]);
        if NeedsRecovery(run) then AfterRecovery(manifest, s1, run) else s1
  }

  /** After a health observation that asks for a rollback. */
  function AfterRecovery(manifest: Manifest, s: State, run: Run): State {
    if !Allowed(manifest, "system_query_leases") then s
    else
      var s1 := s.(executions := s.executions + [Execution("system_query_leases", NO_ARGS, Recovery)]);
      if "system_rollback_app" in manifest && Evaluate(manifest["system_rollback_app"]) == NeedApproval then
        AskFor(s1, run.freshId,
          Request("system_rollback_app", Args(Some(run.healthApp), Some(run.healthApp), None), run.healthApp,
                  manifest["system_rollback_app"].requiredResources, Pending))
      else s1
  }

  datatype DecisionError = NotFound | NotPending(status: Status)

  datatype DecisionResult = Refused(error: DecisionError) | GateBlocked | Updated(status: Status)

  function FinalStatus(decision: Decision): Status {
    match decision
    case Approve => Approved
    case Deny => Denied
    case Expire => Expired
  }

  function AfterDecision(s: State, id: string, decision: Decision, seen: Observation): (State, DecisionResult) {
    if id !in s.requests then (s, Refused(NotFound))
    else
      var request := s.requests[id];
      if request.status != Pending then (s, Refused(NotPending(request.status)))
      else
        var target := TargetApp(request, seen.apps);
        var inspected := s.executions + INSPECTIONS;
        if decision == Approve && !GateOpen(request, seen.leases, target) then
          (s.(executions := inspected, decisions := s.decisions + [DecisionRow(id, Blocked)]), GateBlocked)
        else
          var resumed := Execution(request.tool, ResumeArgs(request, seen.leases, target), Resumed(id, seen));
          (State(s.requests[id := request.(status := FinalStatus(decision))],
                 s.decisions + [DecisionRow(id, Final(decision))],
                 if decision == Approve then inspected + [resumed] else inspected),
           Updated(FinalStatus(decision)))
  }
}
