/** What the guarded deployments do: prepare and verify, activate, and rollback, each as a sequence
    of commands on a device that answers as it likes. */
module Deploy {
  import opened Wrappers
  import opened Basics
  import opened Replies

  datatype Step =
    | Preflight | Acquire | Prepare | Verify | Activate | Health | LeaseObservation | QueryApps
    | Release(lenient: bool) | QueryLeases
    | Rollback | ObserveApps | ObserveLeases

  type Trace = seq<Step>

  /** The device and the tools: every answer may depend on all commands issued so far. */
  datatype Env = Env(appId: string, command: Trace -> CommandReply, tool: Trace -> ToolResult)

  datatype Decision = Approved | Denied | Expired | Pending

  /** What a run reports. Raised stands for an exception that leaves the function. */
  datatype Outcome = NotApproved(decision: Decision) | Failed(step: Step, status: string) | Succeeded | Raised

  function Last(trace: Trace): Step
    requires trace != []
  {
    trace[|trace| - 1]
  }

  // ---------- When a step has failed ----------

  function HealthFailure(t: ToolResult): string {
    if t.status != "ok" then OrElse(t.failureStatus, OrElse(t.status, "activation_health_failed"))
    else if t.classification == "healthy" then ""
    else if t.classification == "" || t.classification == "unknown" then "activation_health_not_healthy"
    else t.classification
  }

  function QueryAppsFailure(reply: CommandReply, appId: string): string {
    var failure := StepFailure(reply, None, []);
    if reply.Json? && failure == "" && !AppRunning(ObservedApps(reply.payload), appId)
    then "app_not_running_after_activate" else failure
  }

  function QueryLeasesFailure(reply: CommandReply): string {
    var failure := StepFailure(reply, None, []);
    if reply.Json? && failure == "" && ObservedLeases(reply.payload) != []
    then "cleanup_leases_not_empty" else failure
  }

  function RollbackResource(appId: string): string {
    "update/app/" + appId + "/rollback"
  }

  function MatchingLeases(leases: seq<Lease>, resource: string): seq<string> {
    if leases == [] then []
    else if leases[0].resource == resource && leases[0].leaseId != "" then
      [leases[0].leaseId] + MatchingLeases(leases[1..], resource)
    else MatchingLeases(leases[1..], resource)
  }

  function ObserveAppsFailure(t: ToolResult, appId: string): string {
    if ToolFailure(t) == "" && AppRunning(AppRows(t), appId) then "app_still_running_after_rollback" else ToolFailure(t)
  }

  function ObserveLeasesFailure(t: ToolResult, appId: string): string {
    if ToolFailure(t) == "" && MatchingLeases(LeaseRows(t), RollbackResource(appId)) != []
    then "rollback_lease_still_held_after_rollback" else ToolFailure(t)
  }

  /** The failure status of the step issued last, "" when it passed. */
  function FailureOf(env: Env, issued: Trace): string
    requires issued != []
  {
    match Last(issued)
    case Preflight => StepFailure(env.command(issued), Some("ready"), [])
    case Acquire | Prepare | Verify | Activate => StepFailure(env.command(issued), None, [])
    case Health => HealthFailure(env.tool(issued))
    case LeaseObservation => ""
    case QueryApps => QueryAppsFailure(env.command(issued), env.appId)
    case Release(lenient) => StepFailure(env.command(issued), None, if lenient then ["lease_not_found"] else [])
    case QueryLeases => QueryLeasesFailure(env.command(issued))
    case Rollback => ToolFailure(env.tool(issued))
    case ObserveApps => ObserveAppsFailure(env.tool(issued), env.appId)
    case ObserveLeases => ObserveLeasesFailure(env.tool(issued), env.appId)
  }

  predicate Passes(env: Env, issued: Trace)
    requires issued != []
  {
    FailureOf(env, issued) == ""
  }

  // ---------- The specification ----------

  /** How many of `steps` are issued when the first failure stops the sequence. */
  function Progress(env: Env, issued: Trace, steps: Trace): (k: nat)
    ensures k <= |steps|
    decreases |steps|
  {
    if steps == [] then 0
    else if Passes(env, issued + [steps[0]]) then 1 + Progress(env, issued + [steps[0]], steps[1..])
    else 1
  }

  /** The earliest failing step of a trace and its status. */
  function FirstFailure(env: Env, issued: Trace, trace: Trace): Option<(Step, string)>
    decreases |trace|
  {
    if trace == [] then None
    else if Passes(env, issued + [trace[0]]) then FirstFailure(env, issued + [trace[0]], trace[1..])
    else Some((trace[0], FailureOf(env, issued + [trace[0]])))
  }

  const PREPARE_VERIFY_STEPS: Trace := [Preflight, Acquire, Prepare, Verify]
  const ACTIVATE_STEPS: Trace := [Preflight, Acquire, Prepare, Verify, Activate, Health, QueryApps]

  /** The health tool itself did not answer "ok": the code then reads a variable it never set. */
  predicate HealthToolFailed(env: Env, issued: Trace) {
    env.tool(issued).status != "ok"
  }

  /** The steps up to the first failure, with the lease observation after a failed health check. */
  function MainTrace(env: Env, issued: Trace, steps: Trace): Trace {
    var main := steps[..Progress(env, issued, steps)];
    if main != [] && Last(main) == Health then main + [LeaseObservation] else main
  }

  /** The exception leaves before the cleanup. */
  predicate Raises(env: Env, issued: Trace, steps: Trace) {
    var main := steps[..Progress(env, issued, steps)];
    main != [] && Last(main) == Health && HealthToolFailed(env, issued + main)
  }

  /** The lease was acquired: the sequence went past the second step. */
  predicate Acquired(env: Env, issued: Trace, steps: Trace) {
    Progress(env, issued, steps) > 2
  }

  function Cleanup(lenient: bool): Trace {
    [Release(lenient), QueryLeases]
  }

  function DeployTrace(env: Env, issued: Trace, steps: Trace, lenient: bool): Trace {
    MainTrace(env, issued, steps)
    + if Acquired(env, issued, steps) && !Raises(env, issued, steps) then Cleanup(lenient) else []
  }

  function OutcomeOf(failed: Option<(Step, string)>): Outcome {
    match failed
    case None => Succeeded
    case Some((step, status)) => Failed(step, status)
  }

  function DeployOutcome(env: Env, issued: Trace, steps: Trace, lenient: bool): Outcome {
    if Raises(env, issued, steps) then Raised
    else OutcomeOf(FirstFailure(env, issued, DeployTrace(env, issued, steps, lenient)))
  }

  // ---------- Reading the specification off a run ----------

  /** Step `j` of `trace`, issued after the steps before it, passed. */
  predicate StepPasses(env: Env, issued: Trace, trace: Trace, j: nat)
    requires j < |trace|
  {
    Passes(env, issued + trace[..j + 1])
  }

  /** The first `k` steps of `trace` passed. */
  predicate AllPass(env: Env, issued: Trace, trace: Trace, k: nat)
    requires k <= |trace|
  {
    forall j :: 0 <= j < k ==> StepPasses(env, issued, trace, j)
  }

  lemma TailPass(env: Env, issued: Trace, trace: Trace, k: nat)
    requires 0 < k <= |trace| && AllPass(env, issued, trace, k)
    ensures Passes(env, issued + [trace[0]])
    ensures AllPass(env, issued + [trace[0]], trace[1..], k - 1)
  {
    hide FailureOf;
    assert StepPasses(env, issued, trace, 0);
    assert issued + trace[..1] == issued + [trace[0]];
    forall j | 0 <= j < k - 1
      ensures StepPasses(env, issued + [trace[0]], trace[1..], j)
    {
      assert StepPasses(env, issued, trace, j + 1);
      assert issued + [trace[0]] + trace[1..][..j + 1] == issued + trace[..j + 2];
    }
  }

  lemma {:induction false} ProgressIs(env: Env, issued: Trace, steps: Trace, k: nat)
    requires k <= |steps| && AllPass(env, issued, steps, k)
    requires k < |steps| ==> !Passes(env, issued + steps[..k + 1])
    ensures Progress(env, issued, steps) == if k < |steps| then k + 1 else k
    decreases k
  {
    hide FailureOf;
    if k == 0 {
      if steps != [] {
        assert issued + steps[..1] == issued + [steps[0]];
      }
    } else {
      TailPass(env, issued, steps, k);
      if k < |steps| {
        assert issued + [steps[0]] + steps[1..][..k] == issued + steps[..k + 1];
      }
      ProgressIs(env, issued + [steps[0]], steps[1..], k - 1);
    }
  }

  lemma {:induction false} FirstFailureIs(env: Env, issued: Trace, trace: Trace, k: nat)
    requires k <= |trace| && AllPass(env, issued, trace, k)
    requires k < |trace| ==> !Passes(env, issued + trace[..k + 1])
    ensures FirstFailure(env, issued, trace)
         == if k < |trace| then Some((trace[k], FailureOf(env, issued + trace[..k + 1]))) else None
    decreases k
  {
    hide FailureOf;
    if k == 0 {
      if trace != [] {
        assert issued + trace[..1] == issued + [trace[0]];
      }
    } else {
      TailPass(env, issued, trace, k);
      if k < |trace| {
        assert issued + [trace[0]] + trace[1..][..k] == issued + trace[..k + 1];
      }
      FirstFailureIs(env, issued + [trace[0]], trace[1..], k - 1);
    }
  }

  /** Conversely, the specification always has such a `k`. */
  lemma {:induction false} ProgressHas(env: Env, issued: Trace, steps: Trace)
    returns (k: nat)
    ensures k <= |steps| && AllPass(env, issued, steps, k)
    ensures k < |steps| ==> !Passes(env, issued + steps[..k + 1])
    ensures Progress(env, issued, steps) == if k < |steps| then k + 1 else k
  {
    hide FailureOf, Progress, Passes;
    k := 0;
    while k < |steps| && Passes(env, issued + steps[..k + 1])
      invariant k <= |steps| && AllPass(env, issued, steps, k)
    {
      k := k + 1;
    }
    ProgressIs(env, issued, steps, k);
  }

  lemma FirstFailureAppend(env: Env, issued: Trace, a: Trace, b: Trace)
    requires AllPass(env, issued, a, |a|)
    ensures FirstFailure(env, issued, a + b) == FirstFailure(env, issued + a, b)
    decreases |a|
  {
    hide FailureOf;
    if a == [] {
      assert a + b == b && issued + a == issued;
    } else {
      TailPass(env, issued, a, |a|);
      FirstFailureAppend(env, issued + [a[0]], a[1..], b);
      assert (a + b)[1..] == a[1..] + b;
      assert issued + [a[0]] + a[1..] == issued + a;
    }
  }

  /** A sequence of steps in the given order, health neither first nor last. */
  predicate WellOrdered(steps: Trace) {
    |steps| > 2 && steps[0] != Health && steps[1] != Health && Last(steps) != Health
  }

  /** The first `k` steps were issued and passed. */
  predicate At(env: Env, start: Trace, steps: Trace, k: nat, issued: Trace) {
    k <= |steps| && AllPass(env, start, steps, k) && issued == start + steps[..k]
  }

  /** Step `k` was issued after `k` steps that passed, and failed with the given status. */
  predicate Stopped(env: Env, start: Trace, steps: Trace, k: nat, issued: Trace, status: string) {
    && k < |steps| && AllPass(env, start, steps, k) && issued == start + steps[..k + 1]
    && status == FailureOf(env, issued) && status != ""
  }

  lemma Advance(env: Env, start: Trace, steps: Trace, k: nat, before: Trace, issued: Trace, status: string)
    requires At(env, start, steps, k, before) && k < |steps|
    requires issued == before + [steps[k]] && status == FailureOf(env, issued)
    ensures status == "" ==> At(env, start, steps, k + 1, issued)
    ensures status != "" ==> Stopped(env, start, steps, k, issued, status)
  {
    hide FailureOf;
    assert steps[..k + 1] == steps[..k] + [steps[k]];
    assert issued == start + steps[..k + 1];
    if status == "" {
      assert StepPasses(env, start, steps, k);
    }
  }

  /** What the specification says once the number `k` of steps that passed is known. */
  lemma Finish(env: Env, issued: Trace, steps: Trace, lenient: bool, k: nat)
    requires WellOrdered(steps) && k <= |steps| && AllPass(env, issued, steps, k)
    requires k < |steps| ==> !Passes(env, issued + steps[..k + 1])
    ensures MainTrace(env, issued, steps)
         == if k == |steps| then steps
            else if steps[k] == Health then steps[..k + 1] + [LeaseObservation]
            else steps[..k + 1]
    ensures Acquired(env, issued, steps) <==> k >= 2
    ensures Raises(env, issued, steps) <==>
      k < |steps| && steps[k] == Health && HealthToolFailed(env, issued + steps[..k + 1])
    ensures k < 2 || Raises(env, issued, steps) ==>
      DeployTrace(env, issued, steps, lenient) == MainTrace(env, issued, steps)
    ensures k >= 2 && !Raises(env, issued, steps) ==>
      DeployTrace(env, issued, steps, lenient) == MainTrace(env, issued, steps) + Cleanup(lenient)
    ensures Raises(env, issued, steps) ==> DeployOutcome(env, issued, steps, lenient) == Raised
    ensures k < |steps| && !Raises(env, issued, steps) ==>
      DeployOutcome(env, issued, steps, lenient) == Failed(steps[k], FailureOf(env, issued + steps[..k + 1]))
    ensures k == |steps| ==>
      DeployOutcome(env, issued, steps, lenient)
      == OutcomeOf(FirstFailure(env, issued + steps, Cleanup(lenient)))
  {
    hide FailureOf;
    ProgressIs(env, issued, steps, k);
    var main := steps[..Progress(env, issued, steps)];
    assert Last(main) == if k < |steps| then steps[k] else Last(steps);
    var trace := DeployTrace(env, issued, steps, lenient);
    if k < |steps| {
      forall j | 0 <= j < k
        ensures StepPasses(env, issued, trace, j)
      {
        assert StepPasses(env, issued, steps, j);
        assert trace[..j + 1] == steps[..j + 1];
      }
      assert trace[..k + 1] == steps[..k + 1];
      FirstFailureIs(env, issued, trace, k);
    } else {
      assert main == steps;
      FirstFailureAppend(env, issued, steps, Cleanup(lenient));
    }
  }

  /** A rollback that took effect is always observed twice. */
  function RollbackTrace(env: Env, issued: Trace): Trace {
    if Passes(env, issued + [Rollback]) then [Rollback, ObserveApps, ObserveLeases] else [Rollback]
  }

  /** Where a run has come to, with the failure that stopped it. */
  predicate Reached(env: Env, start: Trace, steps: Trace, k: nat, issued: Trace, failed: Option<(Step, string)>) {
    if k < |steps| then
      failed.Some? && failed.value.0 == steps[k] && Stopped(env, start, steps, k, issued, failed.value.1)
    else failed.None? && At(env, start, steps, k, issued)
  }

  lemma NotAllPass(env: Env, start: Trace, steps: Trace, k: nat)
    requires k < |steps| ==> !Passes(env, start + steps[..k + 1])
    ensures k < |steps| ==> !AllPass(env, start, steps, |steps|)
  {
    hide Passes;
    if k < |steps| {
      assert !StepPasses(env, start, steps, k);
    }
  }

  lemma StartsAt(env: Env, start: Trace, steps: Trace)
    ensures At(env, start, steps, 0, start)
  {
    assert start + steps[..0] == start;
  }

  /** The same, read off the state of a run that has finished its main part. */
  lemma Conclude(env: Env, start: Trace, steps: Trace, lenient: bool, k: nat, issued: Trace, status: string)
    requires WellOrdered(steps)
    requires if k < |steps| then Stopped(env, start, steps, k, issued, status) else At(env, start, steps, k, issued)
    ensures k == |steps| <==> AllPass(env, start, steps, |steps|)
    ensures Acquired(env, start, steps) <==> k >= 2
    ensures Raises(env, start, steps) <==> k < |steps| && steps[k] == Health && HealthToolFailed(env, issued)
    ensures var main := if k < |steps| && steps[k] == Health then issued + [LeaseObservation] else issued;
      start + DeployTrace(env, start, steps, lenient)
      == if k < 2 || Raises(env, start, steps) then main else main + Cleanup(lenient)
    ensures Raises(env, start, steps) ==> DeployOutcome(env, start, steps, lenient) == Raised
    ensures !Raises(env, start, steps) ==>
      DeployOutcome(env, start, steps, lenient)
      == OutcomeOf(if k < |steps| then Some((steps[k], status)) else FirstFailure(env, issued, Cleanup(lenient)))
  {
    hide FailureOf, FirstFailure, MainTrace, DeployTrace, Raises, Acquired;
    Finish(env, start, steps, lenient, k);
    assert steps[..|steps|] == steps;
    NotAllPass(env, start, steps, k);
  }
}
