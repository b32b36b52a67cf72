/** What the replies of commands and tools mean for a workflow, in terms of their fields. */
module ReplyMeaning {
  import opened Wrappers
  import opened Basics
  import opened Replies

  /** A body without a status, or with "ok". */
  predicate Good(b: Option<Body>) {
    b.Some? ==> b.value.status == "" || b.value.status == "ok"
  }

  /** Nothing in the object is a failing status. */
  predicate Clean(p: Payload) {
    && !(p.okFalse && p.status != "") && Good(p.nested)
    && (p.replies.Some? ==> forall i :: 0 <= i < |p.replies.value| ==> Good(p.replies.value[i]))
  }

  /** Reply i is the first bad one and has this status. */
  predicate FirstBad(replies: seq<Option<Body>>, i: nat, status: string) {
    && i < |replies| && !Good(replies[i]) && replies[i].value.status == status
    && forall j :: 0 <= j < i ==> Good(replies[j])
  }

  /** The first failing status: of the object itself, of its nested body, of its replies in order. */
  predicate FailsWith(p: Payload, status: string) {
    if p.okFalse && p.status != "" then status == p.status
    else if !Good(p.nested) then status == p.nested.value.status
    else p.replies.Some? && exists i :: 0 <= i < |p.replies.value| && FirstBad(p.replies.value, i, status)
  }

  predicate CleanReply(r: CommandReply) {
    r.Json? && Clean(r.payload)
  }

  lemma {:induction false} RepliesFailureFirst(replies: seq<Option<Body>>)
    ensures RepliesFailure(replies) != "" ==>
      exists i :: 0 <= i < |replies| && FirstBad(replies, i, RepliesFailure(replies))
  {
    if replies == [] {
    } else if !Good(replies[0]) {
      assert FirstBad(replies, 0, RepliesFailure(replies));
    } else if RepliesFailure(replies) != "" {
      RepliesFailureFirst(replies[1..]);
      var i :| 0 <= i < |replies[1..]| && FirstBad(replies[1..], i, RepliesFailure(replies[1..]));
      assert forall j :: 0 < j < |replies| ==> replies[j] == replies[1..][j - 1];
      assert FirstBad(replies, i + 1, RepliesFailure(replies));
    }
  }

  /** No failure is found exactly in a clean object; otherwise the first failing status is found. */
  lemma PayloadFailureMeans(p: Payload)
    ensures PayloadFailure(p) == "" <==> Clean(p)
    ensures !Clean(p) ==> FailsWith(p, PayloadFailure(p))
    ensures forall status :: !Clean(p) && FailsWith(p, status) ==> status == PayloadFailure(p)
  {
    if p.replies.Some? {
      RepliesFailureIff(p.replies.value);
      RepliesFailureFirst(p.replies.value);
      forall i: nat, k: nat, s, t | FirstBad(p.replies.value, i, s) && FirstBad(p.replies.value, k, t)
        ensures s == t
      {
        assert i == k;
      }
    }
  }

  /** The failure status of a command, read off its reply. */
  predicate CommandFails(r: CommandReply, expected: Option<string>, status: string) {
    match r
    case NotJson(code) => status == if code == 0 then "parse_failed" else "command_exit_" + IntText(code)
    case NotObject => status == "parse_failed"
    case Json(p) =>
      if expected.Some? && p.status != expected.value
      then status == if p.status != "" then p.status else "unexpected_status"
      else !Clean(p) && FailsWith(p, status)
  }

  lemma StepFailureMeans(r: CommandReply, expected: Option<string>, allowed: seq<string>)
    ensures StepFailure(r, expected, allowed) == "" <==>
      r.Json? && ((CleanReply(r) && (expected.Some? ==> r.payload.status == expected.value))
                  || exists s :: s in allowed && CommandFails(r, expected, s))
    ensures StepFailure(r, expected, allowed) != "" ==> CommandFails(r, expected, StepFailure(r, expected, allowed))
  {
    if r.Json? {
      PayloadFailureMeans(r.payload);
    }
    hide PayloadFailure, Clean, FailsWith, IntText;
  }

  /** Exit codes are written in decimal. */
  lemma ExitCodes()
    ensures IntText(0) == "0" && IntText(127) == "127" && IntText(-9) == "-9"
  {
    assert Decimal(127) == Decimal(12) + ['7'] && Decimal(12) == Decimal(1) + ['2'];
  }

  // ---------- Apps and leases ----------

  predicate HasApps(b: Option<Body>) {
    b.Some? && b.value.apps.Some?
  }

  predicate HasLeases(b: Option<Body>) {
    b.Some? && b.value.leases.Some?
  }

  /** Reply i is the first that lists apps, and lists these. */
  predicate AppsFrom(replies: seq<Option<Body>>, i: nat, apps: seq<App>) {
    && i < |replies| && HasApps(replies[i]) && replies[i].value.apps.value == apps
    && forall j :: 0 <= j < i ==> !HasApps(replies[j])
  }

  /** The apps an object lists: those of its nested body, else of the first reply that lists some. */
  predicate ListsApps(p: Payload, apps: seq<App>) {
    if HasApps(p.nested) then apps == p.nested.value.apps.value
    else
      p.replies.Some? && exists i :: 0 <= i < |p.replies.value| && AppsFrom(p.replies.value, i, apps)
  }

  /** The first row of the app is in one of the four running states. */
  predicate FirstRuns(apps: seq<App>, id: string) {
    exists i :: 0 <= i < |apps| && apps[i].id == id
      && (apps[i].state == "running" || apps[i].state == "active" || apps[i].state == "started"
          || apps[i].state == "running_active")
      && forall j :: 0 <= j < i ==> apps[j].id != id
  }

  lemma {:induction false} AppRunningMeans(apps: seq<App>, id: string)
    ensures AppRunning(apps, id) <==> FirstRuns(apps, id)
  {
    if apps == [] {
    } else {
      AppRunningMeans(apps[1..], id);
      assert forall j :: 0 < j < |apps| ==> apps[j] == apps[1..][j - 1];
      if apps[0].id != id && FirstRuns(apps[1..], id) {
        var i :| 0 <= i < |apps[1..]| && apps[1..][i].id == id && RunningState(apps[1..][i].state)
                 && forall j :: 0 <= j < i ==> apps[1..][j].id != id;
        forall j | 0 <= j < i + 1
          ensures apps[j].id != id
        {
          if j > 0 {
            assert apps[1..][j - 1].id != id;
          }
        }
        assert apps[i + 1].id == id;
      }
      if apps[0].id != id && FirstRuns(apps, id) {
        var i :| 0 <= i < |apps| && apps[i].id == id && RunningState(apps[i].state)
                 && forall j :: 0 <= j < i ==> apps[j].id != id;
        assert apps[1..][i - 1].id == id;
        assert forall j :: 0 <= j < i - 1 ==> apps[1..][j] == apps[j + 1];
      }
    }
  }

  lemma {:induction false} FirstAppsFrom(replies: seq<Option<Body>>, apps: seq<App>)
    ensures (exists i :: 0 <= i < |replies| && AppsFrom(replies, i, apps)) ==> FirstApps(replies) == apps
    ensures FirstApps(replies) == []
         || exists i :: 0 <= i < |replies| && AppsFrom(replies, i, FirstApps(replies))
  {
    if replies != [] {
      FirstAppsFrom(replies[1..], apps);
      assert forall j :: 0 < j < |replies| ==> replies[j] == replies[1..][j - 1];
      if HasApps(replies[0]) {
        assert AppsFrom(replies, 0, FirstApps(replies));
      } else {
        if i :| 0 <= i < |replies| && AppsFrom(replies, i, apps) {
          assert AppsFrom(replies[1..], i - 1, apps);
        }
        if FirstApps(replies) != [] {
          var i :| 0 <= i < |replies[1..]| && AppsFrom(replies[1..], i, FirstApps(replies));
          assert AppsFrom(replies, i + 1, FirstApps(replies));
        }
      }
    }
  }

  /** The object lists apps, and the first row of this one says that it runs. */
  ghost predicate SaysRunning(p: Payload, id: string) {
    exists apps :: ListsApps(p, apps) && FirstRuns(apps, id)
  }

  lemma SaysRunningIff(p: Payload, id: string)
    ensures AppRunning(ObservedApps(p), id) <==> SaysRunning(p, id)
  {
    AppRunningMeans(ObservedApps(p), id);
    hide AppRunning, FirstApps;
    forall apps | ListsApps(p, apps)
      ensures apps == ObservedApps(p)
    {
      if p.replies.Some? {
        FirstAppsFrom(p.replies.value, apps);
      }
    }
    if FirstRuns(ObservedApps(p), id) && p.replies.Some? {
      FirstAppsFrom(p.replies.value, []);
      assert ListsApps(p, ObservedApps(p));
    }
  }

  /** The first reply that lists leases, if any does, lists none. */
  predicate SaysNoLeases(p: Payload) {
    p.replies.Some? ==>
      forall i :: 0 <= i < |p.replies.value| && HasLeases(p.replies.value[i])
                  && (forall j :: 0 <= j < i ==> !HasLeases(p.replies.value[j]))
        ==> p.replies.value[i].value.leases.value == []
  }

  lemma {:induction false} FirstLeasesFrom(replies: seq<Option<Body>>, i: nat)
    requires i <= |replies| && forall j :: 0 <= j < i ==> !HasLeases(replies[j])
    ensures i < |replies| && HasLeases(replies[i]) ==> FirstLeases(replies) == replies[i].value.leases.value
    ensures i == |replies| ==> FirstLeases(replies) == []
    decreases i
  {
    if i > 0 {
      assert forall j :: 0 < j < |replies| ==> replies[j] == replies[1..][j - 1];
      FirstLeasesFrom(replies[1..], i - 1);
    }
  }

  lemma SaysNoLeasesIff(p: Payload)
    ensures ObservedLeases(p) == [] <==> SaysNoLeases(p)
  {
    if p.replies.Some? {
      var r := p.replies.value;
      var i: nat := 0;
      while i < |r| && !HasLeases(r[i])
        invariant i <= |r| && forall j :: 0 <= j < i ==> !HasLeases(r[j])
      {
        i := i + 1;
      }
      FirstLeasesFrom(r, i);
    }
  }

  // ---------- Tools ----------

  /** A tool that answered "ok", with no failing status in what it returned. */
  predicate CleanTool(t: ToolResult) {
    t.status == "ok" && (t.result.Some? ==> Clean(t.result.value))
  }

  lemma ToolFailureMeans(t: ToolResult)
    ensures ToolFailure(t) == "" <==> CleanTool(t)
  {
    if t.result.Some? {
      PayloadFailureMeans(t.result.value);
    }
  }

  /** What the first reply of a tool that answered "ok" holds. */
  function FirstBody(t: ToolResult): Option<Body> {
    if t.status == "ok" && t.result.Some? && t.result.value.replies.Some? && t.result.value.replies.value != []
    then t.result.value.replies.value[0] else None
  }
}
