/** The core as the source runs it: the request and decision tables, and the calls of tools. */
module ApprovalCore {
  import opened Wrappers
  import opened Replies
  import opened Approval
  import opened ApprovalMeaning

  /** The planned tool asks for a rollback. */
  predicate AsksForRollback(run: Run) {
    run.tool == "system_activation_health_guard" && run.result.status == "ok"
    && run.result.classification == "rollback_required"
  }

  /** And the policy lets the leases be queried first. */
  predicate Recovers(manifest: Manifest, run: Run) {
    AsksForRollback(run) && "system_query_leases" in manifest && Unguarded(manifest["system_query_leases"])
  }

  /** And a rollback needs approval. */
  predicate RequestsRollback(manifest: Manifest, run: Run) {
    Recovers(manifest, run) && "system_rollback_app" in manifest && manifest["system_rollback_app"].approvalRequired
  }

  /** The gate is open for the app that the request is about. */
  ghost predicate AllSeen(request: Request, seen: Observation) {
    exists target :: TargetIs(request, seen.apps, target)
      && forall i :: 0 <= i < |request.required| ==> SeenFor(request.required[i], target, seen.leases)
  }

  /** What a resource that was not seen is called: by the lease it stands for, or by its own name when
      it belongs to an app and none is known. */
  predicate CalledAs(resource: string, target: string, name: string) {
    if target == "" && (resource == "app_control_lease" || resource == "update_rollback_lease") then name == resource
    else StandsFor(resource, target, name)
  }

  /** The name is that of a required resource that was not seen. */
  ghost predicate IsMissing(required: seq<string>, target: string, leases: seq<Lease>, name: string) {
    exists i :: 0 <= i < |required| && !SeenFor(required[i], target, leases) && CalledAs(required[i], target, name)
  }

  lemma NameMeans(resource: string, target: string, name: string)
    ensures CalledAs(resource, target, name) <==> name == Resolve(resource, target).GetOr(resource)
  {
  }

  lemma {:induction false} MissingMeans(required: seq<string>, target: string, leases: seq<Lease>)
    ensures forall m :: m in Missing(required, target, leases) <==> IsMissing(required, target, leases, m)
    decreases |required|
  {
    hide Satisfied, SeenFor, Resolve, CalledAs;
    if required != [] {
      var front, last := required[..|required| - 1], required[|required| - 1];
      MissingMeans(front, target, leases);
      SatisfiedMeans(last, target, leases);
      assert required == front + [last];
      forall m
        ensures CalledAs(last, target, m) <==> m == Resolve(last, target).GetOr(last)
      {
        NameMeans(last, target, m);
      }
    }
  }

  lemma GateMeans(request: Request, seen: Observation)
    ensures GateOpen(request, seen.leases, TargetApp(request, seen.apps)) <==> AllSeen(request, seen)
  {
    var target := TargetApp(request, seen.apps);
    TargetMeans(request, seen.apps);
    assert forall other :: TargetIs(request, seen.apps, other) ==> other == target;
    hide TargetIs, Satisfied, SeenFor, TargetApp;
    forall i | 0 <= i < |request.required|
      ensures Satisfied(request.required[i], target, seen.leases) <==> SeenFor(request.required[i], target, seen.leases)
    {
      SatisfiedMeans(request.required[i], target, seen.leases);
    }
  }

  /** The core: the request and decision tables, and the tool adapter with its calls. */
  class Core {
    const manifest: Manifest
    var requests: map<string, Request>
    var decisions: seq<DecisionRow>
    var executions: seq<Execution>

    constructor (manifest: Manifest)
      ensures this.manifest == manifest && Contents() == State(map[], [], [])
    {
      this.manifest := manifest;
      requests, decisions, executions := map[], [], [];
    }

    function Contents(): State
      reads this
    {
      State(requests, decisions, executions)
    }

    method Execute(tool: string, args: Args, origin: Origin)
      modifies this`executions
      ensures executions == old(executions) + [Execution(tool, args, origin)]
    {
      executions := executions + [Execution(tool, args, origin)];
    }

    method RunPlan(run: Run)
      modifies this
      ensures Contents() == AfterRun(manifest, old(Contents()), run)
      ensures decisions == old(decisions)
      ensures run.tool !in manifest || !run.complete ==> Contents() == old(Contents())
      ensures run.tool in manifest && run.complete && manifest[run.tool].approvalRequired ==>
        && requests == old(requests)[run.freshId :=
             Request(run.tool, run.args, "", manifest[run.tool].requiredResources, Pending)]
        && executions == old(executions)
      ensures run.tool in manifest && run.complete && Unguarded(manifest[run.tool]) ==>
        && executions == old(executions) + [Execution(run.tool, run.args, Planned)]
             + (if Recovers(manifest, run) then [Execution("system_query_leases", NO_ARGS, Recovery)] else [])
        && requests == if RequestsRollback(manifest, run) then
             old(requests)[run.freshId :=
               Request("system_rollback_app", Args(Some(run.healthApp), Some(run.healthApp), None), run.healthApp,
                       manifest["system_rollback_app"].requiredResources, Pending)]
             else old(requests)
      ensures run.tool in manifest && !manifest[run.tool].approvalRequired && !Unguarded(manifest[run.tool]) ==>
        Contents() == old(Contents())
    {
      if run.tool !in manifest {
        return;
      }
      if !run.complete {
        return;
      }
      var verdict := Evaluate(manifest[run.tool]);
      if verdict == Allow {
        Execute(run.tool, run.args, Planned);
      } else if verdict == NeedApproval {
        requests := requests[run.freshId :=
          Request(run.tool, run.args, "", manifest[run.tool].requiredResources, Pending)];
      }
      if verdict == Allow && NeedsRecovery(run) && "system_query_leases" in manifest {
        var recovery := Evaluate(manifest["system_query_leases"]);
        if recovery == Allow {
          Execute("system_query_leases", NO_ARGS, Recovery);
          if "system_rollback_app" in manifest {
            var rollback := Evaluate(manifest["system_rollback_app"]);
            if rollback == NeedApproval {
              requests := requests[run.freshId :=
                Request("system_rollback_app", Args(Some(run.healthApp), Some(run.healthApp), None), run.healthApp,
                        manifest["system_rollback_app"].requiredResources, Pending)];
            }
          }
        }
      }
    }

    /** The three observations an operator's decision is based on. */
    method Inspect()
      modifies this`executions
      ensures executions == old(executions) + INSPECTIONS
    {
      Execute("system_query_leases", NO_ARGS, Inspection);
      Execute("system_query_apps", NO_ARGS, Inspection);
      Execute("system_state_sync", NO_ARGS, Inspection);
    }

    /** The required resources that are not observed or not resolved, in order: the lease that is
        missing, or the resource itself when it does not resolve. */
    method MissingResources(request: Request, leases: seq<Lease>, target: string) returns (missing: seq<string>)
      ensures missing == [] <==> GateOpen(request, leases, target)
      ensures missing == Missing(request.required, target, leases)
      ensures forall m :: m in missing <==> IsMissing(request.required, target, leases, m)
    {
      MissingMeans(request.required, target, leases);
      hide Observed, Resolve, IsMissing;
      missing := [];
      assert request.required[..0] == [];
      for i := 0 to |request.required|
        invariant missing == Missing(request.required[..i], target, leases)
        invariant missing == [] <==> forall k :: 0 <= k < i ==> Satisfied(request.required[k], target, leases)
      {
        assert request.required[..i + 1][..i] == request.required[..i];
        var resolved := Resolve(request.required[i], target);
        if resolved.None? {
          missing := missing + [request.required[i]];
        } else if !Observed(leases, resolved.value) {
          missing := missing + [resolved.value];
        }
      }
      assert request.required[..|request.required|] == request.required;
    }

    method ApplyDecision(id: string, decision: Decision, seen: Observation) returns (r: DecisionResult)
      modifies this
      ensures (Contents(), r) == AfterDecision(old(Contents()), id, decision, seen)
      ensures id !in old(requests) ==> r == Refused(NotFound) && Contents() == old(Contents())
      ensures id in old(requests) && old(requests)[id].status != Pending ==>
        r == Refused(NotPending(old(requests)[id].status)) && Contents() == old(Contents())
      ensures id in old(requests) && old(requests)[id].status == Pending ==>
        match decision
        case Approve => r == if AllSeen(old(requests)[id], seen) then Updated(Approved) else GateBlocked
        case Deny => r == Updated(Denied)
        case Expire => r == Updated(Expired)
      ensures r.Updated? ==> requests == old(requests)[id := old(requests)[id].(status := r.status)]
      ensures !r.Updated? ==> requests == old(requests)
      ensures !r.Refused? ==>
        && decisions == old(decisions) + [DecisionRow(id, if r == GateBlocked then Blocked else Final(decision))]
        && |executions| == |old(executions)| + (if r == Updated(Approved) then 4 else 3)
        && executions[..|old(executions)| + 3] == old(executions)
             + [Execution("system_query_leases", NO_ARGS, Inspection),
                Execution("system_query_apps", NO_ARGS, Inspection),
                Execution("system_state_sync", NO_ARGS, Inspection)]
        && (r == Updated(Approved) ==>
              executions[|old(executions)| + 3].tool == old(requests)[id].tool
              && executions[|old(executions)| + 3].origin == Resumed(id, seen))
    {
      if id in requests {
        GateMeans(requests[id], seen);
      }
      hide AllSeen, GateOpen, ResumeArgs, TargetApp;
      if id !in requests {
        return Refused(NotFound);
      }
      var request := requests[id];
      if request.status != Pending {
        return Refused(NotPending(request.status));
      }
      var updated := Denied;
      if decision == Approve {
        Inspect();
        var target := TargetApp(request, seen.apps);
        var missing := MissingResources(request, seen.leases, target);
        if missing != [] {
          decisions := decisions + [DecisionRow(id, Blocked)];
          requests := requests[id := request.(status := Pending)];
          assert request.(status := Pending) == request && requests == old(requests);
          return GateBlocked;
        }
        Execute(request.tool, ResumeArgs(request, seen.leases, target), Resumed(id, seen));
        updated := Approved;
      } else if decision == Expire {
        updated := Expired;
      }
      decisions := decisions + [DecisionRow(id, Final(decision))];
      requests := requests[id := request.(status := updated)];
      if decision != Approve {
        Inspect();
      }
      r := Updated(updated);
    }
  }
}
