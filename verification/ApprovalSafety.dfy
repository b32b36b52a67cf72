/** What holds after any interleaving of workflow runs and operator decisions. */
module ApprovalSafety {
  import opened Wrappers
  import opened Replies
  import opened Approval
  import opened ApprovalMeaning

  datatype Action = RunAction(run: Run) | DecideAction(id: string, decision: Decision, seen: Observation)

  function Next(manifest: Manifest, s: State, a: Action): State {
    match a
    case RunAction(run) => AfterRun(manifest, s, run)
    case DecideAction(id, decision, seen) => AfterDecision(s, id, decision, seen).0
  }

  function RunAll(manifest: Manifest, s: State, actions: seq<Action>): State
    decreases |actions|
  {
    if actions == [] then s else RunAll(manifest, Next(manifest, s, actions[0]), actions[1..])
  }

  /** The ids drawn for new requests are new. */
  predicate FreshIds(manifest: Manifest, s: State, actions: seq<Action>)
    decreases |actions|
  {
    actions == [] ||
    ((actions[0].RunAction? ==> actions[0].run.freshId !in s.requests)
     && FreshIds(manifest, Next(manifest, s, actions[0]), actions[1..]))
  }

  // ---------- The invariant ----------

  /** The attempts of one request, in order. */
  function LogOf(rows: seq<DecisionRow>, id: string): seq<Attempt> {
    if rows == [] then []
    else LogOf(rows[..|rows| - 1], id)
         + if rows[|rows| - 1].id == id then [rows[|rows| - 1].attempt] else []
  }

  /** How often the request's tool was resumed. */
  function Resumes(executions: seq<Execution>, id: string): nat {
    if executions == [] then 0
    else Resumes(executions[..|executions| - 1], id)
         + var o := executions[|executions| - 1].origin; if o.Resumed? && o.id == id then 1 else 0
  }

  predicate AllBlocked(log: seq<Attempt>) {
    forall i :: 0 <= i < |log| ==> log[i] == Blocked
  }

  /** Blocked attempts, then the final one that gave the request its status. */
  predicate LogMatches(log: seq<Attempt>, status: Status) {
    if status == Pending then AllBlocked(log)
    else
      && log != [] && AllBlocked(log[..|log| - 1])
      && log[|log| - 1].Final? && Gives(log[|log| - 1].decision, status)
  }

  predicate Gives(decision: Decision, status: Status) {
    match decision
    case Approve => status == Approved
    case Deny => status == Denied
    case Expire => status == Expired
  }

  predicate RequestOk(s: State, id: string) {
    if id in s.requests then
      && LogMatches(LogOf(s.decisions, id), s.requests[id].status)
      && Resumes(s.executions, id) == if s.requests[id].status == Approved then 1 else 0
    else LogOf(s.decisions, id) == [] && Resumes(s.executions, id) == 0
  }

  /** The policy lets the tool run at once. */
  predicate RunsFreely(manifest: Manifest, tool: string) {
    tool in manifest && Unguarded(manifest[tool])
  }

  /** What was seen opens the gate for the app that the request is about: a lease was seen for every
      resource of the tool's contract, and the tool gets the arguments that follow from it. */
  ghost predicate Granted(contract: Contract, request: Request, seen: Observation, args: Args, target: string) {
    && TargetIs(request, seen.apps, target)
    && (forall i :: 0 <= i < |contract.requiredResources| ==>
          SeenFor(contract.requiredResources[i], target, seen.leases))
    && FilledIn(request.args.appId, target, args.appId) && FilledIn(request.args.app, target, args.app)
    && LeaseFilledIn(request, seen.leases, target, args.leaseId)
  }

  /** Why a tool was allowed to run. */
  ghost predicate Justified(manifest: Manifest, s: State, e: Execution) {
    match e.origin
    case Planned => RunsFreely(manifest, e.tool)
    case Recovery => e.tool == "system_query_leases" && RunsFreely(manifest, e.tool)
    case Inspection => e.tool in ["system_query_leases", "system_query_apps", "system_state_sync"]
    case Resumed(id, seen) =>
      && id in s.requests && s.requests[id].status == Approved && s.requests[id].tool == e.tool
      && e.tool in manifest && exists target :: Granted(manifest[e.tool], s.requests[id], seen, e.args, target)
  }

  /** A request is for a tool that needs approval, and asks for all that the tool's contract asks for. */
  predicate Recorded(manifest: Manifest, request: Request) {
    request.tool in manifest && manifest[request.tool].approvalRequired
    && request.required == manifest[request.tool].requiredResources
  }

  ghost predicate Inv(manifest: Manifest, s: State) {
    && (forall id :: RequestOk(s, id))
    && (forall id :: id in s.requests ==> Recorded(manifest, s.requests[id]))
    && (forall i :: 0 <= i < |s.executions| ==> Justified(manifest, s, s.executions[i]))
  }

  // ---------- Every step keeps it ----------

  lemma LogSnoc(rows: seq<DecisionRow>, row: DecisionRow, id: string)
    ensures LogOf(rows + [row], id) == LogOf(rows, id) + if row.id == id then [row.attempt] else []
  {
    assert (rows + [row])[..|rows|] == rows;
  }

  lemma ResumesSnoc(executions: seq<Execution>, e: Execution, id: string)
    ensures Resumes(executions + [e], id)
         == Resumes(executions, id) + if e.origin.Resumed? && e.origin.id == id then 1 else 0
  {
    assert (executions + [e])[..|executions|] == executions;
  }

  /** Adding an execution that resumes nothing. */
  lemma AddExecution(manifest: Manifest, s: State, e: Execution)
    requires Inv(manifest, s) && !e.origin.Resumed? && Justified(manifest, s, e)
    ensures Inv(manifest, s.(executions := s.executions + [e]))
  {
    hide LogOf, Resumes, LogMatches, Granted, Recorded;
    var t := s.(executions := s.executions + [e]);
    forall id
      ensures RequestOk(t, id)
    {
      assert RequestOk(s, id);
      ResumesSnoc(s.executions, e, id);
    }
    forall i | 0 <= i < |t.executions|
      ensures Justified(manifest, t, t.executions[i])
    {
      assert i < |s.executions| ==> Justified(manifest, s, s.executions[i]);
    }
  }

  lemma AddRequest(manifest: Manifest, s: State, id: string, request: Request)
    requires Inv(manifest, s) && id !in s.requests && request.status == Pending && Recorded(manifest, request)
    ensures Inv(manifest, AskFor(s, id, request))
  {
    hide LogOf, Resumes, Granted, Recorded;
    var t := AskFor(s, id, request);
    forall other
      ensures RequestOk(t, other)
    {
      assert RequestOk(s, other);
    }
    forall i | 0 <= i < |t.executions|
      ensures Justified(manifest, t, t.executions[i])
    {
      assert Justified(manifest, s, s.executions[i]);
    }
  }

  lemma RunKeeps(manifest: Manifest, s: State, run: Run)
    requires Inv(manifest, s) && run.freshId !in s.requests
    ensures Inv(manifest, AfterRun(manifest, s, run))
  {
    hide Inv;
    if run.tool in manifest {
      PolicyMeans(manifest[run.tool]);
    }
    if "system_query_leases" in manifest {
      PolicyMeans(manifest["system_query_leases"]);
    }
    if "system_rollback_app" in manifest {
      PolicyMeans(manifest["system_rollback_app"]);
    }
    if run.tool in manifest && run.complete {
      match Evaluate(manifest[run.tool])
      case Block =>
      case NeedApproval =>
        AddRequest(manifest, s, run.freshId,
          Request(run.tool, run.args, "", manifest[run.tool].requiredResources, Pending));
      case Allow =>
        var e := Execution(run.tool, run.args, Planned);
        var s1 := s.(executions := s.executions + [e]);
        AddExecution(manifest, s, e);
        if NeedsRecovery(run) && Allowed(manifest, "system_query_leases") {
          var r := Execution("system_query_leases", NO_ARGS, Recovery);
          AddExecution(manifest, s1, r);
          if "system_rollback_app" in manifest && Evaluate(manifest["system_rollback_app"]) == NeedApproval {
            AddRequest(manifest, s1.(executions := s1.executions + [r]), run.freshId,
              Request("system_rollback_app", Args(Some(run.healthApp), Some(run.healthApp), None), run.healthApp,
                      manifest["system_rollback_app"].requiredResources, Pending));
          }
        }
    }
  }

  lemma InspectKeeps(manifest: Manifest, s: State)
    requires Inv(manifest, s)
    ensures Inv(manifest, s.(executions := s.executions + INSPECTIONS))
  {
    hide Inv;
    var a := s.(executions := s.executions + [INSPECTIONS[0]]);
    var b := a.(executions := a.executions + [INSPECTIONS[1]]);
    AddExecution(manifest, s, INSPECTIONS[0]);
    AddExecution(manifest, a, INSPECTIONS[1]);
    AddExecution(manifest, b, INSPECTIONS[2]);
    assert s.executions + INSPECTIONS == b.executions + [INSPECTIONS[2]];
  }

  lemma BlockKeeps(manifest: Manifest, s: State, id: string)
    requires Inv(manifest, s) && id in s.requests && s.requests[id].status == Pending
    ensures Inv(manifest, s.(decisions := s.decisions + [DecisionRow(id, Blocked)]))
  {
    hide LogOf, Resumes, Granted, Recorded;
    var t := s.(decisions := s.decisions + [DecisionRow(id, Blocked)]);
    forall other
      ensures RequestOk(t, other)
    {
      assert RequestOk(s, other);
      LogSnoc(s.decisions, DecisionRow(id, Blocked), other);
      assert LogOf(s.decisions, other) + [] == LogOf(s.decisions, other);
    }
    forall i | 0 <= i < |t.executions|
      ensures Justified(manifest, t, t.executions[i])
    {
      assert Justified(manifest, s, s.executions[i]);
    }
  }

  /** What was justified stays so when a pending request is decided. */
  lemma JustifiedStays(manifest: Manifest, s: State, t: State, id: string, e: Execution)
    requires id in s.requests && s.requests[id].status == Pending && Justified(manifest, s, e)
    requires exists status :: t.requests == s.requests[id := s.requests[id].(status := status)]
    ensures Justified(manifest, t, e)
  {
    hide Granted;
  }

  lemma GateGrants(contract: Contract, request: Request, seen: Observation, target: string)
    requires target == TargetApp(request, seen.apps) && GateOpen(request, seen.leases, target)
    requires request.required == contract.requiredResources
    ensures Granted(contract, request, seen, ResumeArgs(request, seen.leases, target), target)
  {
    TargetMeans(request, seen.apps);
    ResumeArgsMean(request, seen.leases, target);
    hide Satisfied, SeenFor, FilledIn, LeaseFilledIn, TargetIs, ResumeArgs, TargetApp;
    forall i | 0 <= i < |request.required|
      ensures SeenFor(request.required[i], target, seen.leases)
    {
      SatisfiedMeans(request.required[i], target, seen.leases);
    }
  }

  /** The status of a request has no part in it. */
  lemma GrantedStays(contract: Contract, request: Request, status: Status, seen: Observation, args: Args,
                     target: string)
    requires Granted(contract, request, seen, args, target)
    ensures Granted(contract, request.(status := status), seen, args, target)
  {
    hide SeenFor, Usable;
    assert forall row :: Usable(row, request.(status := status).required, target)
                    <==> Usable(row, request.required, target);
  }

  /** An approval's execution is justified by the request it approves. */
  lemma ResumeJustified(manifest: Manifest, s: State, t: State, id: string, seen: Observation, e: Execution)
    requires id in s.requests && GateOpen(s.requests[id], seen.leases, TargetApp(s.requests[id], seen.apps))
    requires Recorded(manifest, s.requests[id])
    requires t.requests == s.requests[id := s.requests[id].(status := Approved)]
    requires e == Execution(s.requests[id].tool,
                            ResumeArgs(s.requests[id], seen.leases, TargetApp(s.requests[id], seen.apps)),
                            Resumed(id, seen))
    ensures Justified(manifest, t, e)
  {
    hide GateOpen, ResumeArgs, TargetApp, Granted;
    var request, target := s.requests[id], TargetApp(s.requests[id], seen.apps);
    GateGrants(manifest[e.tool], request, seen, target);
    GrantedStays(manifest[e.tool], request, Approved, seen, e.args, target);
  }

  /** The final decision: the request gets its status, and an approval its one execution. */
  lemma FinalKeeps(manifest: Manifest, s: State, id: string, decision: Decision, seen: Observation, t: State)
    requires Inv(manifest, s) && id in s.requests && s.requests[id].status == Pending
    requires decision == Approve ==> GateOpen(s.requests[id], seen.leases, TargetApp(s.requests[id], seen.apps))
    requires t.requests == s.requests[id := s.requests[id].(status := FinalStatus(decision))]
    requires t.decisions == s.decisions + [DecisionRow(id, Final(decision))]
    requires decision != Approve ==> t.executions == s.executions
    requires decision == Approve ==>
      t.executions == s.executions
        + [Execution(s.requests[id].tool,
                     ResumeArgs(s.requests[id], seen.leases, TargetApp(s.requests[id], seen.apps)),
                     Resumed(id, seen))]
    ensures Inv(manifest, t)
  {
    hide LogOf, Resumes, GateOpen, ResumeArgs, TargetApp, Justified;
    assert Recorded(manifest, s.requests[id]);
    forall other
      ensures RequestOk(t, other)
    {
      assert RequestOk(s, other);
      LogSnoc(s.decisions, DecisionRow(id, Final(decision)), other);
      assert LogOf(s.decisions, other) + [] == LogOf(s.decisions, other);
      if decision == Approve {
        ResumesSnoc(s.executions, t.executions[|s.executions|], other);
      }
      if other == id {
        var log := LogOf(s.decisions, id);
        assert (log + [Final(decision)])[..|log|] == log;
      }
    }
    forall i | 0 <= i < |t.executions|
      ensures Justified(manifest, t, t.executions[i])
    {
      if i < |s.executions| {
        JustifiedStays(manifest, s, t, id, s.executions[i]);
      } else {
        ResumeJustified(manifest, s, t, id, seen, t.executions[i]);
      }
    }
  }

  lemma DecideKeeps(manifest: Manifest, s: State, id: string, decision: Decision, seen: Observation)
    requires Inv(manifest, s)
    ensures Inv(manifest, AfterDecision(s, id, decision, seen).0)
  {
    hide Inv, GateOpen, TargetApp, ResumeArgs;
    if id in s.requests && s.requests[id].status == Pending {
      InspectKeeps(manifest, s);
      var s1 := s.(executions := s.executions + INSPECTIONS);
      if decision == Approve && !GateOpen(s.requests[id], seen.leases, TargetApp(s.requests[id], seen.apps)) {
        BlockKeeps(manifest, s1, id);
      } else {
        var t := AfterDecision(s, id, decision, seen).0;
        FinalKeeps(manifest, s1, id, decision, seen, t);
      }
    }
  }

  // ---------- Any run ----------

  lemma {:induction false} SafeFrom(manifest: Manifest, s: State, actions: seq<Action>)
    requires Inv(manifest, s) && FreshIds(manifest, s, actions)
    ensures Inv(manifest, RunAll(manifest, s, actions))
    decreases |actions|
  {
    hide Inv, AfterRun, AfterDecision;
    if actions != [] {
      match actions[0] {
        case RunAction(run) => RunKeeps(manifest, s, run);
        case DecideAction(id, decision, seen) => DecideKeeps(manifest, s, id, decision, seen);
      }
      SafeFrom(manifest, Next(manifest, s, actions[0]), actions[1..]);
    }
  }

  /** From the empty store, over every interleaving: each tool that ran was a plan the policy
      allows, one of the three inspections, or the tool of a request that is approved with its
      resources observed; each request was resumed once if approved and never otherwise; and its
      decision log is blocked attempts followed by the final decision that matches its status. */
  lemma Safety(manifest: Manifest, actions: seq<Action>)
    requires FreshIds(manifest, State(map[], [], []), actions)
    ensures Inv(manifest, RunAll(manifest, State(map[], [], []), actions))
  {
    assert Inv(manifest, State(map[], [], []));
    hide Inv;
    SafeFrom(manifest, State(map[], [], []), actions);
  }

  lemma StepAbsorbs(manifest: Manifest, s: State, a: Action, id: string)
    requires id in s.requests && s.requests[id].status != Pending
    requires a.RunAction? ==> a.run.freshId !in s.requests
    ensures var t := Next(manifest, s, a);
      id in t.requests && t.requests[id] == s.requests[id]
  {
    hide GateOpen, TargetApp, ResumeArgs;
  }

  /** A request that was decided keeps its status, tool and arguments for ever. */
  lemma {:induction false} TerminalAbsorbs(manifest: Manifest, s: State, actions: seq<Action>, id: string)
    requires id in s.requests && s.requests[id].status != Pending
    requires FreshIds(manifest, s, actions)
    ensures var t := RunAll(manifest, s, actions);
      id in t.requests && t.requests[id] == s.requests[id]
    decreases |actions|
  {
    hide AfterRun, AfterDecision;
    if actions != [] {
      StepAbsorbs(manifest, s, actions[0], id);
      TerminalAbsorbs(manifest, Next(manifest, s, actions[0]), actions[1..], id);
    }
  }

  /** A tool that the policy does not allow, and that is none of the inspections, runs only for
      a request whose last decision was an operator's approval, once for that request. */
  lemma GuardedToolNeedsApproval(manifest: Manifest, actions: seq<Action>, i: nat)
    requires FreshIds(manifest, State(map[], [], []), actions)
    requires var s := RunAll(manifest, State(map[], [], []), actions);
      && i < |s.executions|
      && !RunsFreely(manifest, s.executions[i].tool)
      && s.executions[i].tool !in ["system_query_leases", "system_query_apps", "system_state_sync"]
    ensures var s := RunAll(manifest, State(map[], [], []), actions);
      var o := s.executions[i].origin;
      && o.Resumed? && o.id in s.requests && s.requests[o.id].status == Approved
      && Resumes(s.executions, o.id) == 1
      && LogOf(s.decisions, o.id) != []
      && LogOf(s.decisions, o.id)[|LogOf(s.decisions, o.id)| - 1] == Final(Approve)
  {
    hide LogOf, Resumes, Granted, RunAll, FreshIds;
    Safety(manifest, actions);
    var s := RunAll(manifest, State(map[], [], []), actions);
    assert Justified(manifest, s, s.executions[i]);
    var o := s.executions[i].origin;
    assert RequestOk(s, o.id);
  }

  // ---------- What the gate does not promise ----------

  /** The lease id handed to the resumed tool is the one the request brought, else that of the first
      observed row that has one and names a resolved resource in its "resource" field; if there is
      no such row, none is handed over. */
  lemma ResumedLeaseId(request: Request, leases: seq<Lease>, target: string)
    ensures request.args.leaseId.Some? ==> ResumeArgs(request, leases, target).leaseId == request.args.leaseId
    ensures request.args.leaseId.None? ==>
      (ResumeArgs(request, leases, target).leaseId.Some? <==>
        exists i :: 0 <= i < |leases| && Matches(leases[i], Resolved(request.required, target)))
    ensures request.args.leaseId.None? && ResumeArgs(request, leases, target).leaseId.Some? ==>
      exists i :: 0 <= i < |leases| && FirstMatch(leases, Resolved(request.required, target), i)
        && ResumeArgs(request, leases, target).leaseId == Some(leases[i].leaseId)
  {
    hide MatchingIds, Resolved;
    MatchingIdsFirst(leases, Resolved(request.required, target));
  }

  /** The gate also accepts rows that name the resource elsewhere: it can open, and the tool then
      resumes without any lease id. */
  lemma GateOpensWithoutLeaseId()
    ensures var request := Request("system_stop_app", Args(Some("a"), None, None), "", ["app_control_lease"], Pending);
      var leases := [Lease("", "", "", "app/a/control", "lease-1")];
      GateOpen(request, leases, "a") && ResumeArgs(request, leases, "a").leaseId == None
  {
    var required := ["app_control_lease"];
    assert Resolve(required[0], "a") == Some("app/a/control") by {
      assert "app/" + "a" + "/control" == "app/a/control";
    }
    var leases := [Lease("", "", "", "app/a/control", "lease-1")];
    assert ResourceName(leases[0]) == "app/a/control";
    assert required[1..] == [] && leases[1..] == [];
    assert "app/a/control" != "";
  }
}
