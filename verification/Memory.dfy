/** Governed memory: screening and committing candidates, the local and the sidecar backend. */
module Memory {
  import opened Wrappers
  import opened Basics

  // ---------- Candidates ----------

  /** What governs a candidate or a stored memory; absent texts are "". */
  datatype Governance = Governance(state: string, history: seq<string>, dedupeKey: string, eligible: bool,
                                   retention: string, expiresAt: string, reason: string, backend: string,
                                   mirrorStatus: string)

  const UNGOVERNED := Governance("", [], "", false, "", "", "", "", "")

  datatype Candidate = Candidate(topic: string, source: string, eventIds: seq<string>, priority: int,
                                 key: string, governance: Option<Governance>, sidecarStatus: string,
                                 externalId: string)

  /** The digest of topic, source and sorted event ids; and the time so many days from now. */
  datatype World = World(digest: (string, string, multiset<string>) -> string, afterDays: nat -> string)

  function G(c: Candidate): Governance {
    c.governance.GetOr(UNGOVERNED)
  }

  function Topic(c: Candidate): string {
    OrElse(c.topic, "unknown")
  }

  function DigestKey(c: Candidate, w: World): string {
    "memcand:" + w.digest(Topic(c), OrElse(c.source, "unknown"), multiset(c.eventIds))
  }

  function KeyOf(c: Candidate, w: World): string {
    OrElse(G(c).dedupeKey, OrElse(c.key, DigestKey(c, w)))
  }

  // ---------- Screening ----------

  predicate StartsWith(s: string, prefix: string) {
    prefix <= s
  }

  datatype Retention = Retention(name: string, days: nat)

  function RetentionFor(topic: string): Retention {
    if StartsWith(topic, "user.input") then Retention("user_context", 30)
    else if StartsWith(topic, "unit.callback") then Retention("operational_lesson", 14)
    else if StartsWith(topic, "time.") then Retention("ephemeral_telemetry", 1)
    else Retention("operational_context", 7)
  }

  datatype Verdict = Verdict(state: string, reason: string)

  function Judge(c: Candidate): Verdict {
    if RetentionFor(Topic(c)).name == "ephemeral_telemetry" then
      Verdict("rejected", "ephemeral_telemetry_not_retained")
    else if c.priority < 10 then Verdict("rejected", "candidate_confidence_below_threshold")
    else Verdict("accepted", "deterministic_candidate_accepted")
  }

  function AddState(history: seq<string>, state: string): seq<string> {
    if state in history then history else history + [state]
  }

  function Screen(c: Candidate, w: World): Candidate {
    var g := G(c);
    var verdict := Judge(c);
    var history := AddState(if g.history == [] then ["proposed"] else g.history, "screened");
    c.(key := KeyOf(c, w),
       governance := Some(g.(state := verdict.state, history := AddState(history, verdict.state),
                             dedupeKey := KeyOf(c, w), eligible := verdict.state == "accepted",
                             retention := RetentionFor(Topic(c)).name,
                             expiresAt := w.afterDays(RetentionFor(Topic(c)).days),
                             reason := verdict.reason)))
  }

  // ---------- Committing ----------

  /** Screened on the way in when it comes without a state or as proposed. */
  function Ready(c: Candidate, w: World): Candidate {
    if G(c).state == "" || G(c).state == "proposed" then Screen(c, w) else c
  }

  predicate Eligible(c: Candidate) {
    G(c).eligible || G(c).state == "accepted"
  }

  datatype Stamp = Stamp(backend: string, reason: string, externalId: string, sidecarStatus: string)

  const LOCAL_STAMP := Stamp("local_sqlite", "auto_commit_local_sqlite", "", "")
  const FALLBACK_STAMP :=
    Stamp("local_sqlite_fallback", "auto_commit_mem0_fallback_local_sqlite", "", "fallback_local_sqlite")

  function SidecarStamp(id: string): Stamp {
    Stamp("mem0_sidecar", "auto_commit_mem0_sidecar", id, "sidecar_committed")
  }

  function Committed(c: Candidate, stamp: Stamp): Candidate {
    var g := G(c);
    c.(governance := Some(g.(state := "committed", history := AddState(g.history, "committed"),
                             reason := stamp.reason, backend := stamp.backend)),
       externalId := OrElse(stamp.externalId, c.externalId),
       sidecarStatus := OrElse(stamp.sidecarStatus, c.sidecarStatus))
  }

  /** What the commit loops select: candidates ready and eligible, the first of each key. */
  function Selected(cs: seq<Candidate>, done: set<string>, w: World): seq<Candidate>
    decreases |cs|
  {
    if cs == [] then []
    else
      var c := Ready(cs[0], w);
      if !Eligible(c) || KeyOf(c, w) in done then Selected(cs[1..], done, w)
      else [c] + Selected(cs[1..], done + {KeyOf(c, w)}, w)
  }

  function CommittedAll(cs: seq<Candidate>, stamp: Stamp): (r: seq<Candidate>)
    ensures |r| == |cs| && forall i :: 0 <= i < |cs| ==> r[i] == Committed(cs[i], stamp)
  {
    seq(|cs|, i requires 0 <= i < |cs| => Committed(cs[i], stamp))
  }

  /** The payloads the local backend stores, in order. */
  function LocalCommit(cs: seq<Candidate>, w: World): seq<Candidate> {
    CommittedAll(Selected(cs, {}, w), LOCAL_STAMP)
  }

  // ---------- The sidecar ----------

  /** What the client answers to the nth addition: an exception's name, or an id, "" for none. */
  datatype Added = Raised(name: string) | Stored(id: string)

  type Client = nat -> Added

  /** The first of n additions that raises. */
  function RaiseAt(client: Client, n: nat): (r: Option<nat>)
    ensures r.Some? ==> r.value < n && client(r.value).Raised? && forall j :: 0 <= j < r.value ==> client(j).Stored?
    ensures r.None? ==> forall j :: 0 <= j < n ==> client(j).Stored?
  {
    if n == 0 then None
    else match RaiseAt(client, n - 1)
      case Some(i) => Some(i)
      case None => if client(n - 1).Raised? then Some(n - 1) else None
  }

  function IdOf(client: Client, i: nat): string {
    match client(i) case Raised(_) => "" case Stored(id) => id
  }

  function CommittedWithIds(cs: seq<Candidate>, client: Client): (r: seq<Candidate>)
    ensures |r| == |cs| && forall i :: 0 <= i < |cs| ==> r[i] == Committed(cs[i], SidecarStamp(IdOf(client, i)))
  {
    seq(|cs|, i requires 0 <= i < |cs| => Committed(cs[i], SidecarStamp(IdOf(client, i))))
  }

  /** The ids the client gave to n additions. */
  function SidecarIds(client: Client, n: nat): seq<string> {
    if n == 0 then []
    else SidecarIds(client, n - 1) + if IdOf(client, n - 1) == "" then [] else [IdOf(client, n - 1)]
  }

  /** Marked as the mirror of what the sidecar was given. */
  function Mirrored(c: Candidate, status: string): Candidate {
    c.(sidecarStatus := status, governance := Some(G(c).(mirrorStatus := status)))
  }

  function MirroredAll(cs: seq<Candidate>, status: string): (r: seq<Candidate>)
    ensures |r| == |cs| && forall i :: 0 <= i < |cs| ==> r[i] == Mirrored(cs[i], status)
  {
    seq(|cs|, i requires 0 <= i < |cs| => Mirrored(cs[i], status))
  }

  const FALLBACK_STATUS := "fallback_local_sqlite"
  const MIRROR_STATUS := "sidecar_and_sqlite_mirror"

  function FailStatus(name: string): string {
    "sqlite_mirror_after_" + name
  }

  /** The outcome of a sidecar commit: the payloads stored locally, the status, the ids kept, and
      how many additions the client was asked for. */
  datatype SidecarOutcome = SidecarOutcome(stored: seq<Candidate>, status: string, ids: seq<string>, asked: nat)

  function SidecarCommit(cs: seq<Candidate>, client: Option<Client>, w: World): SidecarOutcome {
    var selected := Selected(cs, {}, w);
    match client
    case None =>
      SidecarOutcome(LocalCommit(MirroredAll(CommittedAll(selected, FALLBACK_STAMP), FALLBACK_STATUS), w),
                     FALLBACK_STATUS, [], 0)
    case Some(client) =>
      match RaiseAt(client, |selected|)
      case Some(i) => SidecarOutcome([], FailStatus(client(i).name), [], i + 1)
      case None =>
        SidecarOutcome(LocalCommit(MirroredAll(CommittedWithIds(selected, client), MIRROR_STATUS), w),
                       MIRROR_STATUS, SidecarIds(client, |selected|), |selected|)
  }
}
