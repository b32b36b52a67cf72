/** The guarded deployments as the source runs them, over an adapter that issues commands and tools. */
module Deployment {
  import opened Wrappers
  import opened Basics
  import opened Replies
  import opened ReplyMeaning
  import opened Deploy
  import opened DeployAnswers

  datatype Report = Report(outcome: Outcome, cleanupAttempted: bool, completed: bool, rollbackProposed: bool)

  /** The adapter the workflows talk to; `issued` is everything it was asked so far. */
  class Adapter {
    const env: Env
    var issued: Trace

    constructor (env: Env)
      ensures this.env == env && issued == []
    {
      this.env := env;
      issued := [];
    }

    method Run(step: Step) returns (reply: CommandReply)
      modifies this`issued
      ensures issued == old(issued) + [step] && reply == env.command(issued)
    {
      issued := issued + [step];
      reply := env.command(issued);
    }

    method Execute(step: Step) returns (result: ToolResult)
      modifies this`issued
      ensures issued == old(issued) + [step] && result == env.tool(issued)
    {
      issued := issued + [step];
      result := env.tool(issued);
    }

    /** One command whose reply is only checked for failure. */
    method RunStep(step: Step, expected: Option<string>) returns (failure: string)
      requires step in [Preflight, Acquire, Prepare, Verify, Step.Activate]
      requires expected == if step == Preflight then Some("ready") else None
      modifies this`issued
      ensures issued == old(issued) + [step] && failure == FailureOf(env, issued)
    {
      var reply := Run(step);
      failure := StepFailure(reply, expected, []);
    }

    /** Releasing the lease and looking whether it is gone, keeping an earlier failure. */
    method CleanUp(lenient: bool, failed: Option<(Step, string)>) returns (r: Option<(Step, string)>)
      modifies this`issued
      ensures issued == old(issued) + Cleanup(lenient)
      ensures r == if failed.Some? then failed else FirstFailure(env, old(issued), Cleanup(lenient))
      ensures failed.None? && r.Some? ==> r.value.0 != Health
    {
      r := failed;
      var reply := Run(Release(lenient));
      var releaseFailure := StepFailure(reply, None, if lenient then ["lease_not_found"] else []);
      reply := Run(QueryLeases);
      var leasesFailure := StepFailure(reply, None, []);
      if releaseFailure != "" && r.None? {
        r := Some((Release(lenient), releaseFailure));
      }
      if reply.Json? && leasesFailure == "" && ObservedLeases(reply.payload) != [] {
        leasesFailure := "cleanup_leases_not_empty";
      }
      if leasesFailure != "" && r.None? {
        r := Some((QueryLeases, leasesFailure));
      }
      assert Cleanup(lenient)[1..] == [QueryLeases] && [QueryLeases][1..] == [];
    }

    method PrepareVerify() returns (report: Report)
      modifies this`issued
      ensures issued == old(issued) + DeployTrace(env, old(issued), PREPARE_VERIFY_STEPS, false)
      ensures report.outcome == DeployOutcome(env, old(issued), PREPARE_VERIFY_STEPS, false)
      ensures report.cleanupAttempted == Acquired(env, old(issued), PREPARE_VERIFY_STEPS)
      ensures report.completed <==> AllPass(env, old(issued), PREPARE_VERIFY_STEPS, 4)
      ensures report.outcome == Succeeded <==> PrepareVerifyWorks(env, old(issued))
    {
      PrepareVerifySucceeds(env, issued);
      hide PrepareVerifyWorks;
      hide Progress, FirstFailure, Raises, DeployOutcome, DeployTrace, MainTrace, Acquired, FailureOf, AllPass;
      ghost var start, steps, k := issued, PREPARE_VERIFY_STEPS, 0;
      StartsAt(env, start, steps);
      var failed: Option<(Step, string)> := None;
      var completed := false;
      var failure := RunStep(Preflight, Some("ready"));
      Advance(env, start, steps, 0, old(issued), issued, failure);
      if failure != "" {
        Conclude(env, start, steps, false, 0, issued, failure);
        return Report(Failed(Preflight, failure), false, false, false);
      }
      ghost var before := issued;
      var leaseFailure := RunStep(Acquire, None);
      Advance(env, start, steps, 1, before, issued, leaseFailure);
      k, before := 1, issued;
      if leaseFailure != "" {
        failed := Some((Acquire, leaseFailure));
      } else {
        failure := RunStep(Prepare, None);
        Advance(env, start, steps, 2, before, issued, failure);
        k, before := 2, issued;
        if failure != "" {
          failed := Some((Prepare, failure));
        } else {
          failure := RunStep(Verify, None);
          Advance(env, start, steps, 3, before, issued, failure);
          k := 3;
          if failure != "" {
            failed := Some((Verify, failure));
          } else {
            k := 4;
            completed := true;
          }
        }
      }
      Conclude(env, start, steps, false, k, issued, if failed.Some? then failed.value.1 else "");
      if leaseFailure == "" {
        failed := CleanUp(false, failed);
      }
      report := Report(OutcomeOf(failed), leaseFailure == "", completed, false);
    }

    /** The health guard, and after a bad health the lease observation. The flag says that the
        tool itself failed, in which case the source reads a variable it never assigned. */
    method CheckHealth() returns (failure: string, raised: bool)
      modifies this`issued
      ensures failure == FailureOf(env, old(issued) + [Health])
      ensures raised <==> HealthToolFailed(env, old(issued) + [Health])
      ensures raised ==> failure != ""
      ensures issued == old(issued) + [Health] + if failure != "" then [LeaseObservation] else []
    {
      var result := Execute(Health);
      failure := "";
      raised := false;
      if result.status != "ok" {
        failure := OrElse(result.failureStatus, OrElse(result.status, "activation_health_failed"));
        raised := true;
      } else {
        var classification := OrElse(result.classification, "unknown");
        if classification != "healthy" {
          failure := if classification != "unknown" then classification else "activation_health_not_healthy";
        }
      }
      if failure != "" {
        var _ := Execute(LeaseObservation);
      }
    }

    /** The app must be listed and running. */
    method CheckApps() returns (failure: string)
      modifies this`issued
      ensures issued == old(issued) + [QueryApps] && failure == FailureOf(env, issued)
      ensures var reply := env.command(issued);
        && (failure == "" <==> CleanReply(reply) && SaysRunning(reply.payload, env.appId))
        && (CleanReply(reply) && failure != "" ==> failure == "app_not_running_after_activate")
    {
      var reply := Run(QueryApps);
      StepFailureMeans(reply, None, []);
      if reply.Json? {
        SaysRunningIff(reply.payload, env.appId);
      }
      failure := StepFailure(reply, None, []);
      if reply.Json? {
        var running := AppRunning(ObservedApps(reply.payload), env.appId);
        if failure == "" && !running {
          failure := "app_not_running_after_activate";
        }
      }
    }

    /** What follows a passed activation command: the health guard and the running apps. */
    method CheckActivation(ghost start: Trace)
      returns (failed: Option<(Step, string)>, proposed: bool, raised: bool, ghost k: nat, ghost last: Trace)
      requires At(env, start, ACTIVATE_STEPS, 5, issued)
      modifies this`issued
      ensures 5 <= k && Reached(env, start, ACTIVATE_STEPS, k, last, failed)
      ensures issued == if k == 5 then last + [LeaseObservation] else last
      ensures raised <==> k == 5 && HealthToolFailed(env, last)
      ensures proposed <==> !raised && failed == Some((Health, "rollback_required"))
    {
      hide FailureOf, AllPass, HealthToolFailed;
      ghost var before := issued;
      var failure;
      failure, raised := CheckHealth();
      last := before + [Health];
      Advance(env, start, ACTIVATE_STEPS, 5, before, last, failure);
      if failure != "" {
        return Some((Health, failure)), failure == "rollback_required" && !raised, raised, 5, last;
      }
      failure := CheckApps();
      Advance(env, start, ACTIVATE_STEPS, 6, last, issued, failure);
      return if failure != "" then Some((QueryApps, failure)) else None, false, false,
             if failure != "" then 6 else 7, issued;
    }

    /** What an acquired lease is used for, up to the first failure. */
    method Install(ghost start: Trace)
      returns (failed: Option<(Step, string)>, proposed: bool, raised: bool, ghost k: nat, ghost last: Trace)
      requires At(env, start, ACTIVATE_STEPS, 2, issued)
      modifies this`issued
      ensures 2 <= k && Reached(env, start, ACTIVATE_STEPS, k, last, failed)
      ensures issued == if k == 5 then last + [LeaseObservation] else last
      ensures raised <==> k == 5 && HealthToolFailed(env, last)
      ensures proposed <==> !raised && failed == Some((Health, "rollback_required"))
    {
      hide FailureOf, AllPass, HealthToolFailed;
      ghost var before := issued;
      var failure := RunStep(Prepare, None);
      Advance(env, start, ACTIVATE_STEPS, 2, before, issued, failure);
      if failure != "" {
        return Some((Prepare, failure)), false, false, 2, issued;
      }
      before := issued;
      failure := RunStep(Verify, None);
      Advance(env, start, ACTIVATE_STEPS, 3, before, issued, failure);
      if failure != "" {
        return Some((Verify, failure)), false, false, 3, issued;
      }
      before := issued;
      failure := RunStep(Step.Activate, None);
      Advance(env, start, ACTIVATE_STEPS, 4, before, issued, failure);
      if failure != "" {
        return Some((Step.Activate, failure)), false, false, 4, issued;
      }
      failed, proposed, raised, k, last := CheckActivation(start);
    }

    method Activate(decision: Decision) returns (report: Report)
      modifies this`issued
      ensures !decision.Approved? ==> issued == old(issued) && report.outcome == NotApproved(decision)
      ensures report.rollbackProposed <==> report.outcome == Failed(Health, "rollback_required")
      ensures decision.Approved? ==>
        && issued == old(issued) + DeployTrace(env, old(issued), ACTIVATE_STEPS, true)
        && report.outcome == DeployOutcome(env, old(issued), ACTIVATE_STEPS, true)
        && (report.completed <==> AllPass(env, old(issued), ACTIVATE_STEPS, 7))
        && (report.cleanupAttempted <==>
            Acquired(env, old(issued), ACTIVATE_STEPS) && !Raises(env, old(issued), ACTIVATE_STEPS))
        && (report.outcome == Succeeded <==> ActivationWorks(env, old(issued)))
    {
      ActivationSucceeds(env, issued);
      hide Progress, FirstFailure, Raises, DeployOutcome, DeployTrace, MainTrace, Acquired, FailureOf, AllPass;
      hide HealthToolFailed, ActivationWorks;
      if !decision.Approved? {
        return Report(NotApproved(decision), false, false, false);
      }
      ghost var start := issued;
      StartsAt(env, start, ACTIVATE_STEPS);
      var failure := RunStep(Preflight, Some("ready"));
      Advance(env, start, ACTIVATE_STEPS, 0, start, issued, failure);
      if failure != "" {
        Conclude(env, start, ACTIVATE_STEPS, true, 0, issued, failure);
        return Report(Failed(Preflight, failure), false, false, false);
      }
      ghost var before := issued;
      failure := RunStep(Acquire, None);
      Advance(env, start, ACTIVATE_STEPS, 1, before, issued, failure);
      if failure != "" {
        Conclude(env, start, ACTIVATE_STEPS, true, 1, issued, failure);
        return Report(Failed(Acquire, failure), false, false, false);
      }
      var failed, proposed, raised;
      ghost var k: nat, last: Trace;
      failed, proposed, raised, k, last := Install(start);
      Conclude(env, start, ACTIVATE_STEPS, true, k, last, if failed.Some? then failed.value.1 else "");
      if raised {
        return Report(Raised, false, false, false);
      }
      var completed := failed.None?;
      failed := CleanUp(true, failed);
      report := Report(OutcomeOf(failed), true, completed, proposed);
    }

    /** Looking at the apps and the leases after a rollback. */
    method ObserveRollback() returns (failed: Option<(Step, string)>)
      modifies this`issued
      ensures issued == old(issued) + [ObserveApps, ObserveLeases]
      ensures failed == FirstFailure(env, old(issued), [ObserveApps, ObserveLeases])
    {
      hide StepFailure, HealthFailure, QueryAppsFailure, QueryLeasesFailure, ToolFailure, AppRows, LeaseRows;
      failed := None;
      var result := Execute(ObserveApps);
      var appsFailure := ToolFailure(result);
      if appsFailure == "" && AppRunning(AppRows(result), env.appId) {
        appsFailure := "app_still_running_after_rollback";
      }
      result := Execute(ObserveLeases);
      var leasesFailure := ToolFailure(result);
      if leasesFailure == "" && MatchingLeases(LeaseRows(result), RollbackResource(env.appId)) != [] {
        leasesFailure := "rollback_lease_still_held_after_rollback";
      }
      if appsFailure != "" {
        failed := Some((ObserveApps, appsFailure));
      } else if leasesFailure != "" {
        failed := Some((ObserveLeases, leasesFailure));
      }
      assert [ObserveApps, ObserveLeases][1..] == [ObserveLeases] && [ObserveLeases][1..] == [];
    }

    method RollBack(decision: Decision) returns (report: Report)
      modifies this`issued
      ensures !decision.Approved? ==> issued == old(issued) && report.outcome == NotApproved(decision)
      ensures decision.Approved? ==>
        && issued == old(issued) + RollbackTrace(env, old(issued))
        && report.outcome == OutcomeOf(FirstFailure(env, old(issued), RollbackTrace(env, old(issued))))
        && (report.completed <==> CleanTool(env.tool(old(issued) + [Rollback])))
        && (report.outcome == Succeeded <==> RollbackWorks(env, old(issued)))
    {
      RollbackSucceeds(env, issued);
      ToolFailureMeans(env.tool(issued + [Rollback]));
      hide RollbackWorks, CleanTool;
      if !decision.Approved? {
        return Report(NotApproved(decision), false, false, false);
      }
      var result := Execute(Rollback);
      var failure := ToolFailure(result);
      var failed := None;
      var completed := false;
      assert failure == FailureOf(env, old(issued) + [Rollback]);
      hide FailureOf;
      if failure != "" {
        failed := Some((Rollback, failure));
      } else {
        failed := ObserveRollback();
        completed := true;
      }
      assert RollbackTrace(env, old(issued))[1..] == if completed then [ObserveApps, ObserveLeases] else [];
      report := Report(OutcomeOf(failed), false, completed, false);
    }
  }
}
