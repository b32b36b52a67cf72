/** The policy, the gate and the arguments of a resumed tool, in terms of contracts and rows. */
module ApprovalMeaning {
  import opened Wrappers
  import opened Replies
  import opened Approval

  // ---------- Policy ----------

  /** A tool that observes, reads or suggests, and needs no approval. */
  predicate Unguarded(c: Contract) {
    !c.approvalRequired && (c.sideEffect == ObserveOnly || c.sideEffect == ReadOnly || c.sideEffect == SuggestOnly)
  }

  lemma PolicyMeans(c: Contract)
    ensures Evaluate(c) == NeedApproval <==> c.approvalRequired
    ensures Evaluate(c) == Allow <==> Unguarded(c)
  {
  }

  // ---------- The gate ----------

  /** The first name set in the row is this one. */
  predicate StandsUnder(row: Lease, name: string) {
    if row.resource != "" then row.resource == name
    else if row.resourceName != "" then row.resourceName == name
    else if row.leaseName != "" then row.leaseName == name
    else row.name == name
  }

  predicate SomeRow(leases: seq<Lease>, name: string) {
    name != "" && exists i :: 0 <= i < |leases| && StandsUnder(leases[i], name)
  }

  /** The lease that a required resource stands for; the two that belong to an app need one. */
  predicate StandsFor(resource: string, target: string, name: string) {
    if resource == "app_control_lease" then target != "" && name == "app/" + target + "/control"
    else if resource == "update_rollback_lease" then target != "" && name == "update/app/" + target + "/rollback"
    else name == resource
  }

  /** A lease that the resource stands for was seen. */
  ghost predicate SeenFor(resource: string, target: string, leases: seq<Lease>) {
    exists name :: StandsFor(resource, target, name) && SomeRow(leases, name)
  }

  lemma RowNamed(row: Lease, name: string)
    ensures ResourceName(row) == name <==> StandsUnder(row, name)
  {
  }

  lemma SatisfiedMeans(resource: string, target: string, leases: seq<Lease>)
    ensures Satisfied(resource, target, leases) <==> SeenFor(resource, target, leases)
  {
    hide StandsUnder;
    if Resolve(resource, target).Some? {
      var name := Resolve(resource, target).value;
      assert StandsFor(resource, target, name);
      forall i | 0 <= i < |leases|
        ensures ResourceName(leases[i]) == name <==> StandsUnder(leases[i], name)
      {
        RowNamed(leases[i], name);
      }
    }
  }

  // ---------- The resumed tool ----------

  /** The app a request is about: the first given of its two arguments, what it was recorded for, and
      the only app on the device. */
  predicate TargetIs(request: Request, apps: seq<App>, target: string) {
    if request.args.appId.Some? && request.args.appId.value != "" then target == request.args.appId.value
    else if request.args.app.Some? && request.args.app.value != "" then target == request.args.app.value
    else if request.targetAppId != "" then target == request.targetAppId
    else if |apps| == 1 then target == apps[0].id
    else target == ""
  }

  lemma TargetMeans(request: Request, apps: seq<App>)
    ensures TargetIs(request, apps, TargetApp(request, apps))
  {
  }

  /** The row has an id, and a required resource stands for its "resource". */
  predicate Usable(row: Lease, required: seq<string>, target: string) {
    row.leaseId != "" && exists i :: 0 <= i < |required| && StandsFor(required[i], target, row.resource)
  }

  /** The argument is the one given, else the target if there is one. */
  predicate FilledIn(given: Option<string>, target: string, arg: Option<string>) {
    if given.None? && target != "" then arg == Some(target) else arg == given
  }

  /** The lease id is the one given, else that of the first usable row, else none. */
  predicate LeaseFilledIn(request: Request, leases: seq<Lease>, target: string, arg: Option<string>) {
    if request.args.leaseId.Some? then arg == request.args.leaseId
    else if exists i :: 0 <= i < |leases| && Usable(leases[i], request.required, target) then
      exists i :: 0 <= i < |leases| && Usable(leases[i], request.required, target) && arg == Some(leases[i].leaseId)
        && forall j :: 0 <= j < i ==> !Usable(leases[j], request.required, target)
    else arg == None
  }

  lemma {:induction false} ResolvedMeans(required: seq<string>, target: string, name: string)
    ensures name in Resolved(required, target) <==>
      exists i :: 0 <= i < |required| && StandsFor(required[i], target, name)
  {
    if required != [] {
      ResolvedMeans(required[1..], target, name);
      assert forall j :: 0 < j < |required| ==> required[j] == required[1..][j - 1];
      if StandsFor(required[0], target, name) {
        assert Resolve(required[0], target) == Some(name);
      }
    }
  }

  predicate Matches(lease: Lease, resolved: seq<string>) {
    lease.resource in resolved && lease.leaseId != ""
  }

  /** Row i is the first that has an id and names a resolved resource in its "resource" field. */
  predicate FirstMatch(leases: seq<Lease>, resolved: seq<string>, i: nat)
    requires i < |leases|
  {
    Matches(leases[i], resolved) && forall j :: 0 <= j < i ==> !Matches(leases[j], resolved)
  }

  lemma {:induction false} MatchingIdsFirst(leases: seq<Lease>, resolved: seq<string>)
    ensures MatchingIds(leases, resolved) == [] <==> forall i :: 0 <= i < |leases| ==> !Matches(leases[i], resolved)
    ensures MatchingIds(leases, resolved) != [] ==>
      exists i :: 0 <= i < |leases| && FirstMatch(leases, resolved, i)
        && MatchingIds(leases, resolved)[0] == leases[i].leaseId
    decreases |leases|
  {
    if leases == [] {
    } else {
      MatchingIdsFirst(leases[1..], resolved);
      assert forall i :: 0 < i < |leases| ==> leases[i] == leases[1..][i - 1];
      if Matches(leases[0], resolved) {
        assert FirstMatch(leases, resolved, 0);
      } else if MatchingIds(leases, resolved) != [] {
        var i :| 0 <= i < |leases[1..]| && FirstMatch(leases[1..], resolved, i)
                 && MatchingIds(leases[1..], resolved)[0] == leases[1..][i].leaseId;
        forall j | 0 <= j < i + 1
          ensures !Matches(leases[j], resolved)
        {
          if j > 0 {
            assert !Matches(leases[1..][j - 1], resolved);
          }
        }
        assert FirstMatch(leases, resolved, i + 1);
      }
    }
  }

  lemma UsableMatches(row: Lease, required: seq<string>, target: string)
    ensures Usable(row, required, target) <==> Matches(row, Resolved(required, target))
  {
    ResolvedMeans(required, target, row.resource);
    hide Resolved, StandsFor;
  }

  /** What the resumed tool is handed. */
  lemma ResumeArgsMean(request: Request, leases: seq<Lease>, target: string)
    ensures var args := ResumeArgs(request, leases, target);
      && FilledIn(request.args.appId, target, args.appId) && FilledIn(request.args.app, target, args.app)
      && LeaseFilledIn(request, leases, target, args.leaseId)
  {
    var resolved := Resolved(request.required, target);
    hide MatchingIds, Resolved, Usable, Matches;
    MatchingIdsFirst(leases, resolved);
    forall i | 0 <= i < |leases|
      ensures Usable(leases[i], request.required, target) <==> Matches(leases[i], resolved)
    {
      UsableMatches(leases[i], request.required, target);
    }
    if exists i :: 0 <= i < |leases| && Matches(leases[i], resolved) {
      var i :| 0 <= i < |leases| && FirstMatch(leases, resolved, i)
               && MatchingIds(leases, resolved)[0] == leases[i].leaseId;
      IdGiven(leases, resolved, i);
    }
  }

  lemma IdGiven(leases: seq<Lease>, resolved: seq<string>, i: nat)
    requires i < |leases| && Matches(leases[i], resolved)
    ensures leases[i].leaseId != ""
  {
  }
}
