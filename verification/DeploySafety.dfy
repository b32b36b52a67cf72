/** What holds of every deployment, on every device: the earliest failure is the one reported,
    success means every check passed, and a lease that is left behind is never silent. */
module DeploySafety {
  import opened Wrappers
  import opened Replies
  import opened Deploy

  // ---------- One run ----------

  /** The reported step is the first of the whole trace, cleanup included, that failed. */
  lemma EarliestFailure(env: Env, issued: Trace, steps: Trace, lenient: bool)
    requires !Raises(env, issued, steps)
    ensures match DeployOutcome(env, issued, steps, lenient)
      case Succeeded =>
        var trace := DeployTrace(env, issued, steps, lenient);
        AllPass(env, issued, trace, |trace|)
      case Failed(step, status) =>
        var trace := DeployTrace(env, issued, steps, lenient);
        exists i :: 0 <= i < |trace| && FailsAt(env, issued, trace, i, step, status)
      case _ => false
  {
    hide Raises;
    FirstFailureMeaning(env, issued, DeployTrace(env, issued, steps, lenient));
  }

  /** Step `i` is `step`, it failed with `status`, and all steps before it passed. */
  predicate FailsAt(env: Env, issued: Trace, trace: Trace, i: nat, step: Step, status: string)
    requires i < |trace|
  {
    && AllPass(env, issued, trace, i) && trace[i] == step
    && status == FailureOf(env, issued + trace[..i + 1]) && status != ""
  }

  lemma FirstFailureMeaning(env: Env, issued: Trace, trace: Trace)
    ensures FirstFailure(env, issued, trace).None? ==> AllPass(env, issued, trace, |trace|)
    ensures FirstFailure(env, issued, trace).Some? ==>
      exists i :: 0 <= i < |trace|
        && FailsAt(env, issued, trace, i, FirstFailure(env, issued, trace).value.0,
                   FirstFailure(env, issued, trace).value.1)
  {
    hide FailureOf;
    var k := ProgressHas(env, issued, trace);
    FirstFailureIs(env, issued, trace, k);
    if k < |trace| {
      assert FailsAt(env, issued, trace, k, trace[k], FailureOf(env, issued + trace[..k + 1]));
    }
  }

  /** A run succeeds exactly when every step of the sequence and of the cleanup passes: the app
      is running and no lease is observed any more. */
  lemma SucceedsIff(env: Env, issued: Trace, steps: Trace, lenient: bool)
    requires WellOrdered(steps)
    ensures DeployOutcome(env, issued, steps, lenient) == Succeeded
       <==> AllPass(env, issued, steps + Cleanup(lenient), |steps| + 2)
    ensures DeployOutcome(env, issued, steps, lenient) == Succeeded ==>
      DeployTrace(env, issued, steps, lenient) == steps + Cleanup(lenient)
  {
    hide Progress, FirstFailure, Raises, DeployOutcome, DeployTrace, MainTrace, Acquired, FailureOf, AllPass;
    var k := ProgressHas(env, issued, steps);
    Finish(env, issued, steps, lenient, k);
    var all := steps + Cleanup(lenient);
    if k < |steps| {
      assert |Cleanup(lenient)| == 2;
      PrefixPass(env, issued, steps, Cleanup(lenient), k + 1);
      StepFails(env, issued, steps, k);
    } else {
      FirstFailureAppend(env, issued, steps, Cleanup(lenient));
      PassIff(env, issued, all);
    }
  }

  lemma StepFails(env: Env, issued: Trace, steps: Trace, k: nat)
    requires k < |steps| && !Passes(env, issued + steps[..k + 1])
    ensures !AllPass(env, issued, steps, k + 1)
  {
    hide FailureOf;
    assert !StepPasses(env, issued, steps, k);
  }

  lemma PrefixPass(env: Env, issued: Trace, a: Trace, b: Trace, k: nat)
    requires k <= |a|
    ensures AllPass(env, issued, a + b, |a| + |b|) ==> AllPass(env, issued, a, k)
  {
    hide FailureOf;
    if AllPass(env, issued, a + b, |a| + |b|) {
      forall j | 0 <= j < k
        ensures StepPasses(env, issued, a, j)
      {
        assert StepPasses(env, issued, a + b, j);
        assert (a + b)[..j + 1] == a[..j + 1];
      }
    }
  }

  lemma PassIff(env: Env, issued: Trace, trace: Trace)
    ensures FirstFailure(env, issued, trace).None? <==> AllPass(env, issued, trace, |trace|)
  {
    hide FailureOf;
    var k := ProgressHas(env, issued, trace);
    FirstFailureIs(env, issued, trace, k);
    if k < |trace| {
      assert !StepPasses(env, issued, trace, k);
    }
  }

  /** The trace in full: the sequence up to its first failure, the lease observation exactly
      after a failed health check, and the cleanup exactly when the lease was acquired and the
      health tool did not fail. No step is issued unless all steps before it passed. */
  lemma TraceShape(env: Env, issued: Trace, steps: Trace, lenient: bool)
    returns (k: nat, raised: bool)
    requires WellOrdered(steps)
    ensures k <= |steps| && AllPass(env, issued, steps, k)
    ensures k < |steps| ==> !Passes(env, issued + steps[..k + 1])
    ensures raised <==> k < |steps| && steps[k] == Health && HealthToolFailed(env, issued + steps[..k + 1])
    ensures DeployTrace(env, issued, steps, lenient)
         == steps[..if k < |steps| then k + 1 else k]
          + (if k < |steps| && steps[k] == Health then [LeaseObservation] else [])
          + (if k >= 2 && !raised then Cleanup(lenient) else [])
    ensures DeployOutcome(env, issued, steps, lenient) == Raised <==> raised
  {
    hide Progress, FirstFailure, Raises, DeployTrace, MainTrace, Acquired, FailureOf;
    k := ProgressHas(env, issued, steps);
    raised := Raises(env, issued, steps);
    Finish(env, issued, steps, lenient, k);
    assert steps[..|steps|] == steps;
  }

  // ---------- The lease on the device ----------

  /** Whether the workflows hold the lease after `issued`: taken by an acquire that passed, given
      back by a release that passed. */
  predicate Held(env: Env, issued: Trace) {
    issued != [] &&
    match Last(issued)
    case Acquire => Passes(env, issued) || Held(env, issued[..|issued| - 1])
    case Release(_) => !Passes(env, issued) && Held(env, issued[..|issued| - 1])
    case _ => Held(env, issued[..|issued| - 1])
  }

  predicate TouchesLease(step: Step) {
    step.Acquire? || step.Release?
  }

  lemma {:induction false} OtherSteps(env: Env, issued: Trace, more: Trace)
    requires forall s :: s in more ==> !TouchesLease(s)
    ensures Held(env, issued + more) == Held(env, issued)
    decreases |more|
  {
    hide FailureOf;
    if more == [] {
      assert issued + more == issued;
    } else {
      var all := issued + more;
      assert more[|more| - 1] in more;
      assert Last(all) == more[|more| - 1] && all[..|all| - 1] == issued + more[..|more| - 1];
      OtherSteps(env, issued, more[..|more| - 1]);
    }
  }

  lemma HeldStep(env: Env, issued: Trace, step: Step)
    ensures Held(env, issued + [step])
         == if step.Acquire? then Passes(env, issued + [step]) || Held(env, issued)
            else if step.Release? then !Passes(env, issued + [step]) && Held(env, issued)
            else Held(env, issued)
  {
    hide FailureOf;
    var all := issued + [step];
    assert Last(all) == step && all[..|all| - 1] == issued;
  }

  /** A sequence that takes the lease in its second step and nowhere else. */
  predicate LeaseSecond(steps: Trace) {
    |steps| > 2 && steps[1] == Acquire && forall i :: 0 <= i < |steps| && i != 1 ==> !TouchesLease(steps[i])
  }

  lemma SequencesAreOrdered()
    ensures WellOrdered(PREPARE_VERIFY_STEPS) && LeaseSecond(PREPARE_VERIFY_STEPS)
    ensures WellOrdered(ACTIVATE_STEPS) && LeaseSecond(ACTIVATE_STEPS)
  {
  }

  lemma HeldAfterPrefix(env: Env, issued: Trace, steps: Trace, n: nat)
    requires LeaseSecond(steps) && n <= |steps|
    ensures Held(env, issued + steps[..n])
         == (Held(env, issued) || (n >= 2 && StepPasses(env, issued, steps, 1)))
  {
    hide FailureOf, Held;
    if n < 2 {
      assert forall s :: s in steps[..n] ==> s == steps[0];
      OtherSteps(env, issued, steps[..n]);
    } else {
      OtherSteps(env, issued, steps[..1]);
      assert issued + steps[..2] == issued + steps[..1] + [Acquire];
      HeldStep(env, issued + steps[..1], Acquire);
      assert issued + steps[..n] == issued + steps[..2] + steps[2..n];
      forall s | s in steps[2..n]
        ensures !TouchesLease(s)
      {
        var i :| 2 <= i < n && steps[i] == s;
      }
      OtherSteps(env, issued + steps[..2], steps[2..n]);
    }
  }

  /** The run left the lease behind: it raised, or the release it issued failed. */
  predicate Leaks(env: Env, issued: Trace, steps: Trace, lenient: bool) {
    Acquired(env, issued, steps)
    && (Raises(env, issued, steps) || !Passes(env, issued + MainTrace(env, issued, steps) + [Release(lenient)]))
  }

  /** The lease after one run: left behind by this run, or untouched by it. */
  lemma LeaseAfterRun(env: Env, issued: Trace, steps: Trace, lenient: bool)
    requires WellOrdered(steps) && LeaseSecond(steps)
    ensures Held(env, issued + DeployTrace(env, issued, steps, lenient))
       <==> if Acquired(env, issued, steps) then Leaks(env, issued, steps, lenient) else Held(env, issued)
  {
    hide FailureOf, Held, Progress, MainTrace, Raises, Acquired, DeployTrace, DeployOutcome;
    var k := ProgressHas(env, issued, steps);
    Finish(env, issued, steps, lenient, k);
    var n := if k < |steps| then k + 1 else k;
    var main := MainTrace(env, issued, steps);
    assert steps[..|steps|] == steps;
    HeldAfterPrefix(env, issued, steps, n);
    assert Held(env, issued + main) == Held(env, issued + steps[..n]) by {
      if main != steps[..n] {
        HeldStep(env, issued + steps[..n], LeaseObservation);
        assert issued + main == issued + steps[..n] + [LeaseObservation];
      }
    }
    if k >= 2 {
      assert StepPasses(env, issued, steps, 1);
    }
    if k >= 2 && !Raises(env, issued, steps) {
      var trace := DeployTrace(env, issued, steps, lenient);
      HeldStep(env, issued + main, Release(lenient));
      HeldStep(env, issued + main + [Release(lenient)], QueryLeases);
      assert issued + trace == issued + main + [Release(lenient)] + [QueryLeases];
    }
  }

  lemma ReleasePasses(env: Env, issued: Trace, steps: Trace, lenient: bool)
    requires AllPass(env, issued, steps + Cleanup(lenient), |steps| + 2)
    ensures Passes(env, issued + steps + [Release(lenient)])
  {
    hide FailureOf;
    var all := steps + Cleanup(lenient);
    assert StepPasses(env, issued, all, |steps|);
    assert issued + all[..|steps| + 1] == issued + steps + [Release(lenient)];
  }

  lemma SuccessDoesNotLeak(env: Env, issued: Trace, steps: Trace, lenient: bool)
    requires WellOrdered(steps) && DeployOutcome(env, issued, steps, lenient) == Succeeded
    ensures !Leaks(env, issued, steps, lenient)
  {
    hide Passes, Progress, MainTrace, Raises, Acquired, DeployTrace, DeployOutcome;
    SucceedsIff(env, issued, steps, lenient);
    var k := ProgressHas(env, issued, steps);
    Finish(env, issued, steps, lenient, k);
    PrefixPass(env, issued, steps, Cleanup(lenient), |steps|);
    ReleasePasses(env, issued, steps, lenient);
    NotAllPass(env, issued, steps, k);
  }

  /** A lease that a run leaves behind is never silent: the run does not succeed. */
  lemma LeakIsReported(env: Env, issued: Trace, steps: Trace, lenient: bool)
    requires WellOrdered(steps) && Leaks(env, issued, steps, lenient)
    ensures DeployOutcome(env, issued, steps, lenient) != Succeeded
  {
    hide Leaks, DeployOutcome;
    if DeployOutcome(env, issued, steps, lenient) == Succeeded {
      SuccessDoesNotLeak(env, issued, steps, lenient);
    }
  }

  // ---------- Any number of runs ----------

  /** A deployment workflow as an operator starts it. */
  datatype Job = PrepareOnly | ActivateApp(decision: Decision)

  predicate Runs(job: Job) {
    job.PrepareOnly? || job.decision.Approved?
  }

  function JobSteps(job: Job): Trace {
    if job.PrepareOnly? then PREPARE_VERIFY_STEPS else ACTIVATE_STEPS
  }

  function JobTrace(env: Env, issued: Trace, job: Job): Trace {
    if Runs(job) then DeployTrace(env, issued, JobSteps(job), job.ActivateApp?) else []
  }

  function JobOutcome(env: Env, issued: Trace, job: Job): Outcome {
    if Runs(job) then DeployOutcome(env, issued, JobSteps(job), job.ActivateApp?) else NotApproved(job.decision)
  }

  function AfterJobs(env: Env, issued: Trace, jobs: seq<Job>): Trace
    decreases |jobs|
  {
    if jobs == [] then issued else AfterJobs(env, issued + JobTrace(env, issued, jobs[0]), jobs[1..])
  }

  /** Job `i`, run after the jobs before it, left the lease behind. */
  predicate LeaksAt(env: Env, issued: Trace, jobs: seq<Job>, i: nat)
    requires i < |jobs|
  {
    var before := AfterJobs(env, issued, jobs[..i]);
    Runs(jobs[i]) && Leaks(env, before, JobSteps(jobs[i]), jobs[i].ActivateApp?)
  }

  predicate AcquiresAt(env: Env, issued: Trace, jobs: seq<Job>, j: nat)
    requires j < |jobs|
  {
    Runs(jobs[j]) && Acquired(env, AfterJobs(env, issued, jobs[..j]), JobSteps(jobs[j]))
  }

  /** Job `i` left the lease behind and did not succeed, and no later job acquired a lease. */
  predicate LastLeak(env: Env, issued: Trace, jobs: seq<Job>, i: nat)
    requires i < |jobs|
  {
    && LeaksAt(env, issued, jobs, i)
    && JobOutcome(env, AfterJobs(env, issued, jobs[..i]), jobs[i]) != Succeeded
    && forall j :: i < j < |jobs| ==> !AcquiresAt(env, issued, jobs, j)
  }

  /** The lease after one more job: left behind by it, or untouched by it. */
  lemma LeaseAfterJob(env: Env, issued: Trace, jobs: seq<Job>, n: nat)
    requires n < |jobs|
    ensures Held(env, AfterJobs(env, issued, jobs[..n + 1]))
       <==> if AcquiresAt(env, issued, jobs, n) then LeaksAt(env, issued, jobs, n)
            else Held(env, AfterJobs(env, issued, jobs[..n]))
  {
    hide Held, DeployTrace, DeployOutcome, Acquired, Leaks;
    var before, job := AfterJobs(env, issued, jobs[..n]), jobs[n];
    JobsSnoc(env, issued, jobs[..n], job);
    assert jobs[..n] + [job] == jobs[..n + 1];
    SequencesAreOrdered();
    if Runs(job) {
      LeaseAfterRun(env, before, JobSteps(job), job.ActivateApp?);
    } else {
      assert before + [] == before;
    }
  }

  lemma LeakAcquires(env: Env, issued: Trace, jobs: seq<Job>, i: nat)
    requires i < |jobs| && LeaksAt(env, issued, jobs, i)
    ensures AcquiresAt(env, issued, jobs, i)
    ensures JobOutcome(env, AfterJobs(env, issued, jobs[..i]), jobs[i]) != Succeeded
  {
    hide Acquired, DeployOutcome, Raises, MainTrace;
    SequencesAreOrdered();
    LeakIsReported(env, AfterJobs(env, issued, jobs[..i]), JobSteps(jobs[i]), jobs[i].ActivateApp?);
  }

  /** Job `i` among the first `n` left the lease behind, and none of them after it acquired one. */
  predicate LastLeakOf(env: Env, issued: Trace, jobs: seq<Job>, n: nat, i: nat)
    requires i < n <= |jobs|
  {
    LeaksAt(env, issued, jobs, i) && forall j :: i < j < n ==> !AcquiresAt(env, issued, jobs, j)
  }

  predicate SomeLeakLast(env: Env, issued: Trace, jobs: seq<Job>, n: nat)
    requires n <= |jobs|
  {
    exists i :: 0 <= i < n && LastLeakOf(env, issued, jobs, n, i)
  }

  predicate NoneAcquires(env: Env, issued: Trace, jobs: seq<Job>, n: nat)
    requires n <= |jobs|
  {
    forall j :: 0 <= j < n ==> !AcquiresAt(env, issued, jobs, j)
  }

  lemma LastLeakStep(env: Env, issued: Trace, jobs: seq<Job>, m: nat)
    requires m < |jobs|
    ensures SomeLeakLast(env, issued, jobs, m + 1)
       <==> if AcquiresAt(env, issued, jobs, m) then LeaksAt(env, issued, jobs, m)
            else SomeLeakLast(env, issued, jobs, m)
    ensures NoneAcquires(env, issued, jobs, m + 1)
       <==> NoneAcquires(env, issued, jobs, m) && !AcquiresAt(env, issued, jobs, m)
  {
    hide LeaksAt, AcquiresAt;
    if LeaksAt(env, issued, jobs, m) {
      LeakAcquires(env, issued, jobs, m);
      assert LastLeakOf(env, issued, jobs, m + 1, m);
    }
    if SomeLeakLast(env, issued, jobs, m) && !AcquiresAt(env, issued, jobs, m) {
      var i :| 0 <= i < m && LastLeakOf(env, issued, jobs, m, i);
      assert LastLeakOf(env, issued, jobs, m + 1, i);
    }
    if SomeLeakLast(env, issued, jobs, m + 1) {
      var i :| 0 <= i < m + 1 && LastLeakOf(env, issued, jobs, m + 1, i);
      if i < m {
        assert !AcquiresAt(env, issued, jobs, m);
        assert LastLeakOf(env, issued, jobs, m, i);
      }
    }
  }

  lemma NoJobs(env: Env, issued: Trace, jobs: seq<Job>)
    ensures !SomeLeakLast(env, issued, jobs, 0) && NoneAcquires(env, issued, jobs, 0)
    ensures AfterJobs(env, issued, jobs[..0]) == issued
  {
    hide Held, LeaksAt, AcquiresAt;
  }

  lemma {:induction false} LeaseAfterJobs(env: Env, issued: Trace, jobs: seq<Job>, n: nat)
    requires n <= |jobs|
    ensures Held(env, AfterJobs(env, issued, jobs[..n]))
       <==> SomeLeakLast(env, issued, jobs, n) || (Held(env, issued) && NoneAcquires(env, issued, jobs, n))
  {
    hide Held, LeaksAt, AcquiresAt, SomeLeakLast, AfterJobs, NoneAcquires;
    if n == 0 {
      NoJobs(env, issued, jobs);
    } else {
      LeaseAfterJobs(env, issued, jobs, n - 1);
      LeaseAfterJob(env, issued, jobs, n - 1);
      LastLeakStep(env, issued, jobs, n - 1);
    }
  }

  /** Over any sequence of runs: the lease is held at the end exactly if some run left it behind
      and no later run acquired one, or it was held at the start and no run acquired one. A run that
      leaves it behind never succeeds. */
  lemma LeaseOverRuns(env: Env, issued: Trace, jobs: seq<Job>)
    ensures Held(env, AfterJobs(env, issued, jobs))
       <==> (exists i :: 0 <= i < |jobs| && LastLeak(env, issued, jobs, i))
            || (Held(env, issued) && NoneAcquires(env, issued, jobs, |jobs|))
  {
    hide Held, LeaksAt, AcquiresAt, JobOutcome, AfterJobs, NoneAcquires;
    assert jobs[..|jobs|] == jobs;
    LeaseAfterJobs(env, issued, jobs, |jobs|);
    forall i | 0 <= i < |jobs|
      ensures LastLeak(env, issued, jobs, i) <==> LastLeakOf(env, issued, jobs, |jobs|, i)
    {
      if LeaksAt(env, issued, jobs, i) {
        LeakAcquires(env, issued, jobs, i);
      }
    }
  }

  lemma {:induction false} JobsSnoc(env: Env, issued: Trace, jobs: seq<Job>, job: Job)
    ensures AfterJobs(env, issued, jobs + [job])
         == AfterJobs(env, issued, jobs) + JobTrace(env, AfterJobs(env, issued, jobs), job)
    decreases |jobs|
  {
    hide JobTrace;
    if jobs == [] {
      assert ([] + [job])[1..] == [];
    } else {
      assert (jobs + [job])[1..] == jobs[1..] + [job];
      JobsSnoc(env, issued + JobTrace(env, issued, jobs[0]), jobs[1..], job);
    }
  }

  // ---------- Where lease balance fails ----------

  /** A device on which every command passes while the health tool answers with an error. */
  const UNHEALTHY: Env := Env("app",
    (issued: Trace) => Json(Payload(false, "ready", None, None)),
    (issued: Trace) => ToolResult("error", "", "", None))

  lemma UnhealthyPasses()
    ensures AllPass(UNHEALTHY, [], ACTIVATE_STEPS, 5)
    ensures !Passes(UNHEALTHY, [] + ACTIVATE_STEPS[..6]) && HealthToolFailed(UNHEALTHY, [] + ACTIVATE_STEPS[..6])
  {
    forall j | 0 <= j < 5
      ensures StepPasses(UNHEALTHY, [], ACTIVATE_STEPS, j)
    {
      assert Last([] + ACTIVATE_STEPS[..j + 1]) == ACTIVATE_STEPS[j];
    }
    assert Last([] + ACTIVATE_STEPS[..6]) == Health;
  }

  /** On that device an approved activation raises after six commands and the observation, and
      the lease it acquired is still held. */
  lemma HealthToolErrorLeaks()
    ensures DeployOutcome(UNHEALTHY, [], ACTIVATE_STEPS, true) == Raised
    ensures DeployTrace(UNHEALTHY, [], ACTIVATE_STEPS, true) == ACTIVATE_STEPS[..6] + [LeaseObservation]
    ensures Held(UNHEALTHY, DeployTrace(UNHEALTHY, [], ACTIVATE_STEPS, true))
  {
    SequencesAreOrdered();
    UnhealthyPasses();
    hide FailureOf, Held, Progress, MainTrace, Raises, Acquired, DeployTrace, DeployOutcome, Passes, AllPass;
    hide HealthToolFailed;
    Finish(UNHEALTHY, [], ACTIVATE_STEPS, true, 5);
    LeaseAfterRun(UNHEALTHY, [], ACTIVATE_STEPS, true);
    assert [] + DeployTrace(UNHEALTHY, [], ACTIVATE_STEPS, true) == DeployTrace(UNHEALTHY, [], ACTIVATE_STEPS, true);
  }

  // ---------- Rollback ----------

  /** An approved rollback succeeds exactly when the tool did its work and neither observation
      finds the app running or the rollback lease held. */
  lemma RollbackSucceedsIff(env: Env, issued: Trace)
    ensures OutcomeOf(FirstFailure(env, issued, RollbackTrace(env, issued))) == Succeeded
       <==> && ToolFailure(env.tool(issued + [Rollback])) == ""
            && ToolFailure(env.tool(issued + [Rollback, ObserveApps])) == ""
            && !AppRunning(AppRows(env.tool(issued + [Rollback, ObserveApps])), env.appId)
            && ToolFailure(env.tool(issued + [Rollback, ObserveApps, ObserveLeases])) == ""
            && MatchingLeases(LeaseRows(env.tool(issued + [Rollback, ObserveApps, ObserveLeases])),
                              RollbackResource(env.appId)) == []
  {
    hide AppRunning, AppRows, LeaseRows, MatchingLeases, ToolFailure, RollbackResource;
    var trace := RollbackTrace(env, issued);
    PassIff(env, issued, trace);
    assert issued + [Rollback, ObserveApps, ObserveLeases][..1] == issued + [Rollback] == issued + [Rollback][..1];
    assert issued + [Rollback, ObserveApps, ObserveLeases][..2] == issued + [Rollback, ObserveApps];
    assert [Rollback, ObserveApps, ObserveLeases][..3] == [Rollback, ObserveApps, ObserveLeases];
    assert Last(issued + [Rollback]) == Rollback;
    assert Last(issued + [Rollback, ObserveApps]) == ObserveApps;
    assert Last(issued + [Rollback, ObserveApps, ObserveLeases]) == ObserveLeases;
    if trace == [Rollback] {
      assert !StepPasses(env, issued, trace, 0);
    } else {
      assert AllPass(env, issued, trace, 3) <==>
        StepPasses(env, issued, trace, 0) && StepPasses(env, issued, trace, 1) && StepPasses(env, issued, trace, 2);
    }
  }
}
