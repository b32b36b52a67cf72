/** The command line's query: judging replies, retrying with capped exponential backoff, and
    serving an artifact in chunks. */
module Query {
  import opened Wrappers

  // ---------- One query ----------

  /** A parsed reply: whether it is one of success, whether it failed to parse, and its payload's
      status, when that is a map with one. */
  datatype Reply = Reply(ok: bool, parseFailed: bool, payloadStatus: Option<string>)

  /** What the network does with one query. */
  datatype Outcome = Raised | Replies(replies: seq<Reply>)

  datatype Result = Result(ok: bool, status: Option<string>, replies: seq<Reply>)

  const FAILURE_STATUSES: set<string> := {
    "error", "not_implemented", "invalid_input", "query_failed", "no_reply", "error_reply", "parse_failed",
    "session_open_failed", "handler_failed", "serial_dependency_missing", "serial_device_missing",
    "serial_open_failed", "serial_timeout", "shell_error", "endpoint_verify_failed"}

  predicate AllOk(replies: seq<Reply>) {
    forall i :: 0 <= i < |replies| ==> replies[i].ok
  }

  predicate AnyUnparsed(replies: seq<Reply>) {
    exists i :: 0 <= i < |replies| && replies[i].parseFailed
  }

  function Collect(outcome: Outcome): Result {
    match outcome
    case Raised => Result(false, Some("query_failed"), [])
    case Replies(replies) =>
      if replies == [] then Result(false, Some("no_reply"), [])
      else if AllOk(replies) then Result(true, None, replies)
      else Result(false, Some(if AnyUnparsed(replies) then "parse_failed" else "error_reply"), replies)
  }

  // ---------- Judging a result ----------

  function ReplyFailure(r: Reply): Option<string> {
    if !r.ok then Some("error_reply")
    else if r.payloadStatus.Some? && r.payloadStatus.value in FAILURE_STATUSES then r.payloadStatus
    else None
  }

  function RepliesFailure(replies: seq<Reply>): Option<string> {
    if replies == [] then None
    else if ReplyFailure(replies[0]).Some? then ReplyFailure(replies[0])
    else RepliesFailure(replies[1..])
  }

  function FailureStatus(r: Result): Option<string> {
    if !r.ok then
      if r.status.Some? && r.status.value in FAILURE_STATUSES then r.status else Some("payload_not_ok")
    else RepliesFailure(r.replies)
  }

  /** The loop that finds it: the first reply that failed decides. */
  method ResultFailureStatus(r: Result) returns (failure: Option<string>)
    ensures failure == FailureStatus(r)
  {
    hide FAILURE_STATUSES, ReplyFailure;
    if !r.ok {
      return if r.status.Some? && r.status.value in FAILURE_STATUSES then r.status else Some("payload_not_ok");
    }
    assert r.replies[0..] == r.replies;
    for i := 0 to |r.replies|
      invariant RepliesFailure(r.replies) == RepliesFailure(r.replies[i..])
    {
      assert r.replies[i..][0] == r.replies[i] && r.replies[i..][1..] == r.replies[i + 1..];
      var one := ReplyFailure(r.replies[i]);
      if one.Some? {
        return one;
      }
    }
    assert r.replies[|r.replies|..] == [];
    failure := None;
  }

  // ---------- Backoff ----------

  /** Times are in milliseconds. */
  datatype Policy = Policy(maxAttempts: int, initial: nat, cap: nat)

  function Max(a: int, b: int): int {
    if a > b then a else b
  }

  function QueryPolicy(retries: int, backoff: int, backoffMax: int): Policy {
    var initial := Max(0, backoff);
    Policy(Max(1, retries), initial, Max(initial, backoffMax))
  }

  function Power(n: nat): nat {
    if n == 0 then 1 else 2 * Power(n - 1)
  }

  function Backoff(p: Policy, attempt: int): nat {
    if p.maxAttempts <= 1 then 0
    else if p.initial * Power(Max(0, attempt)) < p.cap then p.initial * Power(Max(0, attempt))
    else p.cap
  }

  // ---------- Retrying ----------

  /** The result handed back, with its attempt and the pauses before it. */
  datatype Report = Report(ok: bool, status: Option<string>, failure: Option<string>, attempt: nat, retried: bool,
                           pauses: seq<nat>)

  predicate Transient(outcome: Outcome) {
    outcome == Raised || outcome == Replies([])
  }

  /** Every reply is one of success and none carries a failing status. */
  predicate Succeeds(outcome: Outcome) {
    outcome.Replies? && outcome.replies != [] && AllOk(outcome.replies) && RepliesFailure(outcome.replies).None?
  }

  /** The attempts stop at the first outcome that is not transient, or at the last allowed. */
  predicate StopsAt(outcomes: nat -> Outcome, attempts: nat, n: nat) {
    0 < n <= attempts && (forall i :: 0 <= i < n - 1 ==> Transient(outcomes(i)))
    && (n == attempts || !Transient(outcomes(n - 1)))
  }

  function Pauses(p: Policy, n: nat): seq<nat> {
    if n == 0 then [] else Pauses(p, n - 1) + if Backoff(p, n - 1) > 0 then [Backoff(p, n - 1)] else []
  }

  /** What is handed back for an outcome: any failure other than a transient or a parse failure is
      reported as an error reply, with what failed beside it. */
  function Judged(outcome: Outcome): (r: (Option<string>, Option<string>)) {
    var result := Collect(outcome);
    var failure := FailureStatus(result);
    if failure.Some? && result.status != Some("no_reply") && result.status != Some("query_failed")
       && result.status != Some("parse_failed")
    then (Some("error_reply"), failure)
    else (result.status, failure)
  }

  method CollectWithRetry(outcomes: nat -> Outcome, p: Policy) returns (r: Report)
    ensures StopsAt(outcomes, Max(1, p.maxAttempts), r.attempt)
    ensures r.ok <==> Succeeds(outcomes(r.attempt - 1))
    ensures (r.status, r.failure) == Judged(outcomes(r.attempt - 1))
    ensures JudgedAs(outcomes(r.attempt - 1), r.status, r.failure)
    ensures r.retried <==> r.attempt > 1
    ensures r.pauses == Pauses(p, r.attempt - 1)
  {
    hide FAILURE_STATUSES, Backoff, RepliesFailure, AllOk, AnyUnparsed, JudgedAs;
    var attempts := Max(1, p.maxAttempts);
    var pauses: seq<nat> := [];
    for attempt: int := 0 to attempts
      invariant attempt < attempts
      invariant forall i: nat :: i < attempt ==> Transient(outcomes(i))
      invariant pauses == Pauses(p, attempt)
    {
      var result := Collect(outcomes(attempt));
      var failure := ResultFailureStatus(result);
      FailureIff(outcomes(attempt));
      JudgedMeans(outcomes(attempt));
      if failure.Some? && result.status != Some("no_reply") && result.status != Some("query_failed")
         && result.status != Some("parse_failed") {
        return Report(false, Some("error_reply"), failure, attempt + 1, attempt > 0, pauses);
      }
      if result.ok {
        return Report(true, result.status, failure, attempt + 1, attempt > 0, pauses);
      }
      var retryable := result.status == Some("no_reply") || result.status == Some("query_failed");
      if !retryable || attempt + 1 >= attempts {
        return Report(false, result.status, failure, attempt + 1, attempt > 0, pauses);
      }
      var pause := Backoff(p, attempt);
      if pause > 0 {
        pauses := pauses + [pause];
      }
    }
    assert false;
  }

  /** A result has no failure status exactly when the outcome succeeds, and its status says which
      outcomes are transient. */
  lemma FailureIff(outcome: Outcome)
    ensures FailureStatus(Collect(outcome)).None? <==> Succeeds(outcome)
    ensures Succeeds(outcome) ==> Collect(outcome).ok
    ensures Collect(outcome).ok ==> Collect(outcome).status.None?
    ensures Transient(outcome) <==> Collect(outcome).status == Some("no_reply")
                                    || Collect(outcome).status == Some("query_failed")
  {
    assert "no_reply"[0] == 'n' && "query_failed"[0] == 'q' && "parse_failed"[0] == 'p' && "error_reply"[0] == 'e';
  }

  // ---------- In terms of the replies ----------

  /** A payload status that counts as a failure. */
  predicate BadStatus(status: string) {
    status in ["error", "not_implemented", "invalid_input", "query_failed", "no_reply", "error_reply", "parse_failed"]
    || status in ["session_open_failed", "handler_failed", "serial_dependency_missing", "serial_device_missing",
                  "serial_open_failed", "serial_timeout", "shell_error", "endpoint_verify_failed"]
  }

  predicate BadReply(r: Reply) {
    r.ok && r.payloadStatus.Some? && BadStatus(r.payloadStatus.value)
  }

  /** The status and the failure that a query is handed back with. */
  predicate JudgedAs(outcome: Outcome, status: Option<string>, failure: Option<string>) {
    match outcome
    case Raised => status == failure == Some("query_failed")
    case Replies(replies) =>
      if replies == [] then status == failure == Some("no_reply")
      else if exists i :: 0 <= i < |replies| && !replies[i].ok then
        status == failure
        && failure == Some(if exists i :: 0 <= i < |replies| && replies[i].parseFailed then "parse_failed"
                           else "error_reply")
      else if exists i :: 0 <= i < |replies| && BadReply(replies[i]) then
        status == Some("error_reply")
        && exists i :: 0 <= i < |replies| && BadReply(replies[i]) && failure == replies[i].payloadStatus
             && forall j :: 0 <= j < i ==> !BadReply(replies[j])
      else status == None && failure == None
  }

  lemma StatusMeans(status: string)
    ensures BadStatus(status) <==> status in FAILURE_STATUSES
  {
  }

  lemma {:induction false} RepliesFailureMeans(replies: seq<Reply>)
    requires forall i :: 0 <= i < |replies| ==> replies[i].ok
    ensures if exists i :: 0 <= i < |replies| && BadReply(replies[i]) then
              exists i :: 0 <= i < |replies| && BadReply(replies[i])
                && RepliesFailure(replies) == replies[i].payloadStatus
                && forall j :: 0 <= j < i ==> !BadReply(replies[j])
            else RepliesFailure(replies) == None
    decreases |replies|
  {
    if replies != [] {
      if replies[0].payloadStatus.Some? {
        StatusMeans(replies[0].payloadStatus.value);
      }
      hide BadStatus, FAILURE_STATUSES;
      var rest := replies[1..];
      assert forall j :: 0 < j < |replies| ==> replies[j] == rest[j - 1];
      RepliesFailureMeans(rest);
      if BadReply(replies[0]) {
        assert RepliesFailure(replies) == replies[0].payloadStatus;
      } else if exists i :: 0 <= i < |rest| && BadReply(rest[i]) {
        var i :| 0 <= i < |rest| && BadReply(rest[i]) && RepliesFailure(rest) == rest[i].payloadStatus
                 && forall j :: 0 <= j < i ==> !BadReply(rest[j]);
        assert replies[i + 1] == rest[i];
        forall j | 0 <= j < i + 1
          ensures !BadReply(replies[j])
        {
          if j > 0 {
            assert !BadReply(rest[j - 1]);
          }
        }
      }
    }
  }

  /** What a query is handed back with, for everything the network may do. */
  lemma JudgedMeans(outcome: Outcome)
    ensures JudgedAs(outcome, Judged(outcome).0, Judged(outcome).1)
  {
    StatusMeans("query_failed");
    StatusMeans("no_reply");
    StatusMeans("parse_failed");
    StatusMeans("error_reply");
    FailureIff(outcome);
    if outcome.Replies? && forall i :: 0 <= i < |outcome.replies| ==> outcome.replies[i].ok {
      RepliesFailureMeans(outcome.replies);
    }
    hide BadStatus, FAILURE_STATUSES, RepliesFailure;
  }

  // ---------- Bounds ----------

  lemma Times(a: nat, b: nat, c: nat)
    requires b <= c
    ensures a * b <= a * c
  {
  }

  /** Under the policy built from the arguments, pauses start at the initial one and double up to the
      cap; a single attempt has none. */
  lemma BackoffBounds(retries: int, backoff: int, backoffMax: int, i: nat, j: nat)
    requires i <= j
    ensures QueryPolicy(retries, backoff, backoffMax).initial <= QueryPolicy(retries, backoff, backoffMax).cap
    ensures Backoff(QueryPolicy(retries, backoff, backoffMax), i)
         <= Backoff(QueryPolicy(retries, backoff, backoffMax), j) <= Max(Max(0, backoff), backoffMax)
    ensures retries > 1 ==> Backoff(QueryPolicy(retries, backoff, backoffMax), 0) == Max(0, backoff)
    ensures retries > 1 ==> var p := QueryPolicy(retries, backoff, backoffMax);
      Backoff(p, i + 1) == if 2 * Backoff(p, i) < p.cap then 2 * Backoff(p, i) else p.cap
    ensures retries <= 1 ==> Backoff(QueryPolicy(retries, backoff, backoffMax), i) == 0
    decreases j - i
  {
    var p := QueryPolicy(retries, backoff, backoffMax);
    assert Power(i + 1) == 2 * Power(i);
    assert p.initial * (2 * Power(i)) == 2 * (p.initial * Power(i));
    assert Power(0) == 1;
    if i < j {
      Times(p.initial, Power(i), Power(i + 1));
      BackoffBounds(retries, backoff, backoffMax, i + 1, j);
    }
  }

  // ---------- Artifact chunks ----------

  datatype Served<T> = Refused(message: string) | Chunk(data: seq<T>)

  function Serve<T>(file: seq<T>, offset: int, requested: int): Served<T> {
    if offset < 0 || requested <= 0 then Refused("invalid offset or chunk_size")
    else if offset > |file| then Refused("offset out of range")
    else Chunk(file[offset..if requested < |file| - offset then offset + requested else |file|])
  }

  /** The chunks asked for one after the other from an offset, up to an empty one. */
  function Fetched<T>(file: seq<T>, offset: nat, size: nat): (chunks: seq<seq<T>>)
    requires offset <= |file| && size > 0
    decreases |file| - offset
  {
    match Serve(file, offset, size)
    case Refused(_) => []
    case Chunk(data) => if data == [] then [] else [data] + Fetched(file, offset + |data|, size)
  }

  function Join<T>(chunks: seq<seq<T>>): seq<T> {
    if chunks == [] then [] else chunks[0] + Join(chunks[1..])
  }

  lemma JoinSteps<T>(data: seq<T>, rest: seq<seq<T>>)
    ensures Join<T>([]) == [] && Join([data] + rest) == data + Join(rest)
  {
    assert ([data] + rest)[1..] == rest;
  }

  /** One chunk more covers one size more. */
  lemma Covers(n: nat, data: nat, rest: nat, size: nat)
    requires 0 < data <= size && (data < size ==> data == n) && data <= n
    requires n - data <= rest * size && (rest > 0 ==> (rest - 1) * size < n - data)
    ensures n <= (1 + rest) * size && rest * size < n
  {
    assert (1 + rest) * size == size + rest * size;
    assert rest > 0 ==> rest * size == size + (rest - 1) * size;
  }

  /** Chunks fetched in order reassemble the file, and there are no more of them than it takes. */
  lemma {:induction false} FetchReassembles<T>(file: seq<T>, offset: nat, size: nat)
    requires offset <= |file| && size > 0
    ensures Join(Fetched(file, offset, size)) == file[offset..]
    ensures |file| - offset <= |Fetched(file, offset, size)| * size
    ensures |Fetched(file, offset, size)| > 0 ==> (|Fetched(file, offset, size)| - 1) * size < |file| - offset
    ensures forall i :: 0 <= i < |Fetched(file, offset, size)| - 1 ==> |Fetched(file, offset, size)[i]| == size
    decreases |file| - offset
  {
    hide Join;
    if offset == |file| {
      JoinSteps<T>([], []);
      assert file[offset..] == [];
    } else {
      var data := Serve(file, offset, size).data;
      var rest := Fetched(file, offset + |data|, size);
      FetchReassembles(file, offset + |data|, size);
      assert Fetched(file, offset, size) == [data] + rest;
      JoinSteps(data, rest);
      assert data + file[offset + |data|..] == file[offset..];
      forall i | 0 <= i < |rest|
        ensures ([data] + rest)[i + 1] == rest[i]
      {
      }
      Covers(|file| - offset, |data|, |rest|, size);
    }
  }
}
