/** When a deployment succeeds and what it reports, in terms of the replies of the device. */
module DeployAnswers {
  import opened Wrappers
  import opened Replies
  import opened ReplyMeaning
  import opened Deploy
  import opened DeploySafety

  // ---------- One step ----------

  /** The release of an activation may find that the lease is gone. */
  predicate Released(r: CommandReply, lenient: bool) {
    CleanReply(r) || (lenient && r.Json? && FailsWith(r.payload, "lease_not_found"))
  }

  /** The step did what it should, by the reply of the command or the result of the tool. */
  ghost predicate WorksAs(step: Step, reply: CommandReply, result: ToolResult, appId: string) {
    match step
    case Preflight => CleanReply(reply) && reply.payload.status == "ready"
    case Acquire | Prepare | Verify | Activate => CleanReply(reply)
    case Health => result.status == "ok" && result.classification == "healthy"
    case LeaseObservation => true
    case QueryApps => CleanReply(reply) && SaysRunning(reply.payload, appId)
    case Release(lenient) => Released(reply, lenient)
    case QueryLeases => CleanReply(reply) && SaysNoLeases(reply.payload)
    case Rollback => CleanTool(result)
    case ObserveApps => CleanTool(result) && !SeenRunning(result, appId)
    case ObserveLeases => CleanTool(result) && !RollbackHeld(result, appId)
  }

  /** The step issued last did what it should. */
  ghost predicate Works(env: Env, issued: Trace)
    requires issued != []
  {
    WorksAs(Last(issued), env.command(issued), env.tool(issued), env.appId)
  }

  /** The first reply of the tool lists apps, and the first row of this one says that it runs. */
  predicate SeenRunning(t: ToolResult, id: string) {
    HasApps(FirstBody(t)) && FirstRuns(FirstBody(t).value.apps.value, id)
  }

  /** The first reply of the tool lists a lease with an id under the resource of the app's rollback. */
  predicate RollbackHeld(t: ToolResult, id: string) {
    HasLeases(FirstBody(t)) &&
    var leases := FirstBody(t).value.leases.value;
    exists i :: 0 <= i < |leases| && leases[i].resource == "update/app/" + id + "/rollback" && leases[i].leaseId != ""
  }

  lemma {:induction false} MatchingLeasesMeans(leases: seq<Lease>, resource: string)
    ensures MatchingLeases(leases, resource) != [] <==>
      exists i :: 0 <= i < |leases| && leases[i].resource == resource && leases[i].leaseId != ""
  {
    if leases != [] {
      MatchingLeasesMeans(leases[1..], resource);
      assert forall j :: 0 < j < |leases| ==> leases[j] == leases[1..][j - 1];
    }
  }

  lemma SeenRunningIff(t: ToolResult, id: string)
    ensures SeenRunning(t, id) <==> AppRunning(AppRows(t), id)
  {
    AppRunningMeans(AppRows(t), id);
  }

  lemma RollbackHeldIff(t: ToolResult, id: string)
    ensures RollbackHeld(t, id) <==> MatchingLeases(LeaseRows(t), RollbackResource(id)) != []
  {
    MatchingLeasesMeans(LeaseRows(t), RollbackResource(id));
  }

  lemma CommandWorks(r: CommandReply, expected: Option<string>)
    ensures StepFailure(r, expected, []) == "" <==>
      CleanReply(r) && (expected.Some? ==> r.payload.status == expected.value)
  {
    StepFailureMeans(r, expected, []);
  }

  lemma ReleaseWorks(r: CommandReply, lenient: bool)
    ensures StepFailure(r, None, if lenient then ["lease_not_found"] else []) == "" <==> Released(r, lenient)
  {
    StepFailureMeans(r, None, if lenient then ["lease_not_found"] else []);
    assert "lease_not_found" in ["lease_not_found"];
    if r.Json? {
      PayloadFailureMeans(r.payload);
    }
  }

  /** A step passes exactly when it did what it should. */
  lemma PassesIff(env: Env, issued: Trace)
    requires issued != []
    ensures Passes(env, issued) <==> Works(env, issued)
  {
    var reply, result := env.command(issued), env.tool(issued);
    hide StepFailure, Clean, SaysRunning, SaysNoLeases, Released, ToolFailure, CleanTool, SeenRunning, RollbackHeld;
    CommandWorks(reply, None);
    ToolFailureMeans(result);
    match Last(issued)
    case Preflight => CommandWorks(reply, Some("ready"));
    case Release(lenient) => ReleaseWorks(reply, lenient);
    case QueryApps =>
      if reply.Json? {
        SaysRunningIff(reply.payload, env.appId);
      }
    case QueryLeases =>
      if reply.Json? {
        SaysNoLeasesIff(reply.payload);
      }
    case ObserveApps => SeenRunningIff(result, env.appId);
    case ObserveLeases => RollbackHeldIff(result, env.appId);
    case _ =>
  }

  function FirstGiven(a: string, b: string, otherwise: string): string {
    if a != "" then a else if b != "" then b else otherwise
  }

  /** The status of a tool that failed. */
  predicate ToolReports(t: ToolResult, otherwise: string, status: string) {
    if t.status != "ok" then status == FirstGiven(t.failureStatus, t.status, otherwise)
    else t.result.Some? && !Clean(t.result.value) && FailsWith(t.result.value, status)
  }

  /** The status a step that did not do what it should is reported with. */
  predicate Reports(env: Env, issued: Trace, status: string)
    requires issued != []
  {
    var reply, t := env.command(issued), env.tool(issued);
    match Last(issued)
    case Preflight => CommandFails(reply, Some("ready"), status)
    case Acquire | Prepare | Verify | Activate | Release(_) => CommandFails(reply, None, status)
    case Health =>
      status == if t.status != "ok" then FirstGiven(t.failureStatus, t.status, "activation_health_failed")
                else if t.classification == "" || t.classification == "unknown" then "activation_health_not_healthy"
                else t.classification
    case LeaseObservation => false
    case QueryApps =>
      if CleanReply(reply) then status == "app_not_running_after_activate" else CommandFails(reply, None, status)
    case QueryLeases =>
      if CleanReply(reply) then status == "cleanup_leases_not_empty" else CommandFails(reply, None, status)
    case Rollback => ToolReports(t, "tool_execution_failed", status)
    case ObserveApps =>
      if CleanTool(t) then status == "app_still_running_after_rollback"
      else ToolReports(t, "tool_execution_failed", status)
    case ObserveLeases =>
      if CleanTool(t) then status == "rollback_lease_still_held_after_rollback"
      else ToolReports(t, "tool_execution_failed", status)
  }

  lemma ToolReported(t: ToolResult)
    requires ToolFailure(t) != ""
    ensures !CleanTool(t) && ToolReports(t, "tool_execution_failed", ToolFailure(t))
  {
    if t.result.Some? {
      PayloadFailureMeans(t.result.value);
    }
  }

  lemma FailureReported(env: Env, issued: Trace)
    requires issued != [] && !Passes(env, issued)
    ensures Reports(env, issued, FailureOf(env, issued))
  {
    var reply, t := env.command(issued), env.tool(issued);
    hide Clean, CommandFails, ToolReports, StepFailure, ToolFailure, CleanTool, AppRunning, ObservedApps;
    hide ObservedLeases;
    var expected := if Last(issued) == Preflight then Some("ready") else None;
    CommandWorks(reply, expected);
    StepFailureMeans(reply, expected, []);
    ToolFailureMeans(t);
    if ToolFailure(t) != "" {
      ToolReported(t);
    }
    if Last(issued).Release? {
      StepFailureMeans(reply, None, if Last(issued).lenient then ["lease_not_found"] else []);
    }
  }

  // ---------- Whole runs ----------

  /** Step j of the trace, issued after those before it, did what it should. */
  ghost predicate StepWorks(env: Env, issued: Trace, trace: Trace, j: nat)
    requires j < |trace|
  {
    Works(env, issued + trace[..j + 1])
  }

  /** The first step that did not work, with what it is reported as. */
  ghost predicate StoppedBy(env: Env, issued: Trace, trace: Trace, i: nat, step: Step, status: string) {
    && i < |trace| && trace[i] == step
    && !Works(env, issued + trace[..i + 1]) && Reports(env, issued + trace[..i + 1], status)
    && forall j :: 0 <= j < i ==> StepWorks(env, issued, trace, j)
  }

  /** A run that fails names the first step of its trace that did not work, and reports it as such. */
  lemma FailureMeans(env: Env, issued: Trace, steps: Trace, lenient: bool)
    requires DeployOutcome(env, issued, steps, lenient).Failed?
    ensures var Failed(step, status) := DeployOutcome(env, issued, steps, lenient);
      var trace := DeployTrace(env, issued, steps, lenient);
      exists i :: 0 <= i < |trace| && StoppedBy(env, issued, trace, i, step, status)
  {
    EarliestFailure(env, issued, steps, lenient);
    hide FailureOf, Works, Reports, DeployTrace, DeployOutcome;
    var Failed(step, status) := DeployOutcome(env, issued, steps, lenient);
    var trace := DeployTrace(env, issued, steps, lenient);
    var i :| 0 <= i < |trace| && FailsAt(env, issued, trace, i, step, status);
    FailureReported(env, issued + trace[..i + 1]);
    PassesIff(env, issued + trace[..i + 1]);
    forall j | 0 <= j < i
      ensures StepWorks(env, issued, trace, j)
    {
      assert StepPasses(env, issued, trace, j);
      PassesIff(env, issued + trace[..j + 1]);
    }
    assert StoppedBy(env, issued, trace, i, step, status);
  }

  lemma AllWork(env: Env, issued: Trace, trace: Trace)
    ensures AllPass(env, issued, trace, |trace|) <==> forall j :: 0 <= j < |trace| ==> StepWorks(env, issued, trace, j)
  {
    hide FailureOf, Works;
    forall j | 0 <= j < |trace|
      ensures StepPasses(env, issued, trace, j) <==> StepWorks(env, issued, trace, j)
    {
      PassesIff(env, issued + trace[..j + 1]);
    }
  }

  /** What step k of a trace found, issued after those before it. */
  function ReplyTo(env: Env, issued: Trace, trace: Trace, k: nat): CommandReply
    requires k < |trace|
  {
    env.command(issued + trace[..k + 1])
  }

  function ResultOf(env: Env, issued: Trace, trace: Trace, k: nat): ToolResult
    requires k < |trace|
  {
    env.tool(issued + trace[..k + 1])
  }

  lemma WorkMeans(env: Env, issued: Trace, trace: Trace)
    ensures AllPass(env, issued, trace, |trace|) <==> AllWorked(env, issued, trace)
  {
    hide WorksAs, AllPass;
    AllWork(env, issued, trace);
    forall k | 0 <= k < |trace|
      ensures StepWorks(env, issued, trace, k) <==>
        WorksAs(trace[k], ReplyTo(env, issued, trace, k), ResultOf(env, issued, trace, k), env.appId)
    {
      assert Last(issued + trace[..k + 1]) == trace[k];
    }
  }

  /** Every step of a trace worked. */
  ghost predicate AllWorked(env: Env, issued: Trace, trace: Trace) {
    forall k :: 0 <= k < |trace| ==>
      WorksAs(trace[k], ReplyTo(env, issued, trace, k), ResultOf(env, issued, trace, k), env.appId)
  }

  /** The device answers a whole activation as it should: the preflight is clean and says "ready"; every
      command up to the activation is clean; the health tool answers "ok" with "healthy"; the apps are
      listed, and the first row of this app is in a running state; the release is clean or finds the
      lease gone; and the last query lists no lease. */
  ghost predicate ActivationWorks(env: Env, issued: Trace) {
    var t := [Preflight, Acquire, Prepare, Verify, Activate, Health, QueryApps, Release(true), QueryLeases];
    && CleanReply(ReplyTo(env, issued, t, 0)) && ReplyTo(env, issued, t, 0).payload.status == "ready"
    && CleanReply(ReplyTo(env, issued, t, 1))
    && CleanReply(ReplyTo(env, issued, t, 2))
    && CleanReply(ReplyTo(env, issued, t, 3))
    && CleanReply(ReplyTo(env, issued, t, 4))
    && ResultOf(env, issued, t, 5).status == "ok" && ResultOf(env, issued, t, 5).classification == "healthy"
    && CleanReply(ReplyTo(env, issued, t, 6)) && SaysRunning(ReplyTo(env, issued, t, 6).payload, env.appId)
    && Released(ReplyTo(env, issued, t, 7), true)
    && CleanReply(ReplyTo(env, issued, t, 8)) && SaysNoLeases(ReplyTo(env, issued, t, 8).payload)
  }

  /** And a whole prepare and verify. */
  ghost predicate PrepareVerifyWorks(env: Env, issued: Trace) {
    var t := [Preflight, Acquire, Prepare, Verify, Release(false), QueryLeases];
    && CleanReply(ReplyTo(env, issued, t, 0)) && ReplyTo(env, issued, t, 0).payload.status == "ready"
    && CleanReply(ReplyTo(env, issued, t, 1))
    && CleanReply(ReplyTo(env, issued, t, 2))
    && CleanReply(ReplyTo(env, issued, t, 3))
    && CleanReply(ReplyTo(env, issued, t, 4))
    && CleanReply(ReplyTo(env, issued, t, 5)) && SaysNoLeases(ReplyTo(env, issued, t, 5).payload)
  }

  lemma ActivationSteps(env: Env, issued: Trace, t: Trace)
    requires t == [Preflight, Acquire, Prepare, Verify, Activate, Health, QueryApps, Release(true), QueryLeases]
    ensures AllWorked(env, issued, t) <==> ActivationWorks(env, issued)
  {
    hide ReplyTo, ResultOf, CleanReply, Released, SaysRunning, SaysNoLeases, CleanTool, SeenRunning, RollbackHeld;
  }

  lemma PrepareVerifySteps(env: Env, issued: Trace, t: Trace)
    requires t == [Preflight, Acquire, Prepare, Verify, Release(false), QueryLeases]
    ensures AllWorked(env, issued, t) <==> PrepareVerifyWorks(env, issued)
  {
    assert Released(ReplyTo(env, issued, t, 4), false) <==> CleanReply(ReplyTo(env, issued, t, 4));
    hide ReplyTo, ResultOf, CleanReply, Released, SaysRunning, SaysNoLeases, CleanTool, SeenRunning, RollbackHeld;
  }

  /** An approved activation succeeds exactly when the device answers all of it as it should. */
  lemma ActivationSucceeds(env: Env, issued: Trace)
    ensures DeployOutcome(env, issued, ACTIVATE_STEPS, true) == Succeeded <==> ActivationWorks(env, issued)
  {
    hide DeployOutcome, DeployTrace, AllPass, AllWorked, ActivationWorks;
    var t := [Preflight, Acquire, Prepare, Verify, Activate, Health, QueryApps, Release(true), QueryLeases];
    SequencesAreOrdered();
    SucceedsIff(env, issued, ACTIVATE_STEPS, true);
    assert ACTIVATE_STEPS + Cleanup(true) == t;
    WorkMeans(env, issued, t);
    ActivationSteps(env, issued, t);
  }

  /** So does a prepare and verify. */
  lemma PrepareVerifySucceeds(env: Env, issued: Trace)
    ensures DeployOutcome(env, issued, PREPARE_VERIFY_STEPS, false) == Succeeded <==> PrepareVerifyWorks(env, issued)
  {
    hide DeployOutcome, DeployTrace, AllPass, AllWorked, PrepareVerifyWorks;
    var t := [Preflight, Acquire, Prepare, Verify, Release(false), QueryLeases];
    SequencesAreOrdered();
    SucceedsIff(env, issued, PREPARE_VERIFY_STEPS, false);
    assert PREPARE_VERIFY_STEPS + Cleanup(false) == t;
    WorkMeans(env, issued, t);
    PrepareVerifySteps(env, issued, t);
  }

  /** The rollback tool worked, and what is then observed neither shows the app running nor a lease
      of its rollback. */
  predicate RollbackWorks(env: Env, issued: Trace) {
    var t := [Rollback, ObserveApps, ObserveLeases];
    && CleanTool(ResultOf(env, issued, t, 0))
    && CleanTool(ResultOf(env, issued, t, 1)) && !SeenRunning(ResultOf(env, issued, t, 1), env.appId)
    && CleanTool(ResultOf(env, issued, t, 2)) && !RollbackHeld(ResultOf(env, issued, t, 2), env.appId)
  }

  /** An approved rollback succeeds exactly then. */
  lemma RollbackSucceeds(env: Env, issued: Trace)
    ensures OutcomeOf(FirstFailure(env, issued, RollbackTrace(env, issued))) == Succeeded
       <==> RollbackWorks(env, issued)
  {
    var t := [Rollback, ObserveApps, ObserveLeases];
    hide CleanTool, ToolFailure, SeenRunning, RollbackHeld, FirstFailure, MatchingLeases, AppRunning, LeaseRows;
    hide AppRows;
    RollbackSucceedsIff(env, issued);
    assert t[..1] == [Rollback] && t[..2] == [Rollback, ObserveApps] && t[..3] == t;
    forall k | 0 <= k < 3 {
      ToolFailureMeans(ResultOf(env, issued, t, k));
    }
    SeenRunningIff(ResultOf(env, issued, t, 1), env.appId);
    RollbackHeldIff(ResultOf(env, issued, t, 2), env.appId);
  }
}
