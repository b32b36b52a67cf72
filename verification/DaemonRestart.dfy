/** The autonomous daemon across a restart: its ticks are named by cycle from 1 again, so a second
    process on the same table repeats the first one's ticks until it has outrun it. */
module DaemonRestart {
  import opened Wrappers
  import opened Events
  import opened EventStore
  import opened Restart
  import opened Service
  import opened Daemon
  import opened DaemonSafety
  import EventOrder

  // ---------- One cycle ----------

  lemma AcceptNone(seen: set<string>, batch: seq<Arrival>)
    requires Keys(batch) <= seen
    ensures Accept(seen, batch) == []
    decreases |batch|
  {
    hide Key, Keys;
    if batch == [] {
    } else {
      KeysCons(batch);
      AcceptNone(seen, batch[1..]);
    }
  }

  /** Nothing of a batch is accepted exactly when all its keys have been seen. */
  lemma AcceptsNothingIff(seen: set<string>, batch: seq<Arrival>)
    ensures Accept(seen, batch) == [] <==> Keys(batch) <= seen
  {
    hide Accept, Keys;
    if Keys(batch) <= seen {
      AcceptNone(seen, batch);
    }
    if Accept(seen, batch) == [] {
      AcceptMembers(seen, batch);
      KeysNone();
    }
  }

  lemma KeysSeenIff(raws: seq<RawEvent>, draw: nat -> Draw, seen: set<string>)
    requires forall i :: 0 <= i < |raws| ==> raws[i].dedupeKey != ""
    ensures Keys(Arrivals(raws, draw)) <= seen <==> forall i :: 0 <= i < |raws| ==> raws[i].dedupeKey in seen
  {
    var batch := Arrivals(raws, draw);
    assert forall i :: 0 <= i < |raws| ==> Key(batch[i]) == raws[i].dedupeKey;
    hide Key;
    if Keys(batch) <= seen {
      forall i | 0 <= i < |raws|
        ensures raws[i].dedupeKey in seen
      {
        assert Key(batch[i]) in Keys(batch);
      }
    }
  }

  lemma IngestNothing(s: Ingress, batch: seq<Arrival>, clock: nat -> string)
    requires Accept(s.seen, batch) == []
    ensures Ingest(s, batch, clock).rows == s.rows
  {
    hide Keys;
  }

  // ---------- The ticks of a daemon that is given nothing ----------

  predicate NothingSupplied(batches: seq<Batch>) {
    forall i :: 0 <= i < |batches| ==> batches[i].raws == []
  }

  function TimeKey(i: nat): string {
    "autonomy-time-tick-" + Padded(i)
  }

  function MaintenanceKey(i: nat): string {
    "autonomy-maintenance-tick-" + Padded(i)
  }

  /** Whether maintenance is due in a cycle after the given last one. */
  predicate DueAt(cfg: Config, i: nat, last: Option<nat>)
    requires cfg.policy.interval != 0
  {
    Due(cfg.policy, Moment(i, "", cfg.vitality, last))
  }

  predicate Scheduling(cfg: Config) {
    cfg.autonomy && !cfg.paused
  }

  /** The last cycle with maintenance among the first n. */
  function LastDue(cfg: Config, n: nat): Option<nat>
    requires cfg.policy.interval != 0
  {
    if n == 0 then None
    else if Scheduling(cfg) && DueAt(cfg, n, LastDue(cfg, n - 1)) then Some(n)
    else LastDue(cfg, n - 1)
  }

  /** The keys a cycle emits: of its clock tick and of maintenance when that is due, if it runs. */
  function EmittedAt(cfg: Config, i: nat): seq<string>
    requires cfg.policy.interval != 0 && i > 0
  {
    var due := DueAt(cfg, i, LastDue(cfg, i - 1));
    if !Scheduling(cfg) || (!due && cfg.policy.tickPriority < cfg.policy.wakeThreshold) then []
    else [TimeKey(i)] + if due then [MaintenanceKey(i)] else []
  }

  function Emitted(cfg: Config, n: nat): seq<string>
    requires cfg.policy.interval != 0
  {
    if n == 0 then [] else Emitted(cfg, n - 1) + EmittedAt(cfg, n)
  }

  // ---------- The cycles as batches of a process ----------

  function PlanAt(cfg: Config, batches: seq<Batch>, i: nat): Plan
    requires cfg.policy.interval != 0 && 0 < i <= |batches|
  {
    PlanFor(cfg, i, LastDue(cfg, i - 1), batches[i - 1])
  }

  /** What cycle i gives to the router. */
  function ArrivalsAt(cfg: Config, batches: seq<Batch>, i: nat): seq<Arrival>
    requires cfg.policy.interval != 0 && 0 < i <= |batches|
  {
    if PlanAt(cfg, batches, i).runs then Arrivals(PlanAt(cfg, batches, i).planned, batches[i - 1].draw) else []
  }

  function KeySeq(batch: seq<Arrival>): (r: seq<string>)
    ensures |r| == |batch| && forall i :: 0 <= i < |r| ==> r[i] == Key(batch[i])
  {
    seq(|batch|, i requires 0 <= i < |batch| => Key(batch[i]))
  }

  /** A tick's id is its key with a prefix. */
  predicate TickLike(x: Arrival) {
    x.raw.dedupeKey != "" && x.raw.eventId == "evt-" + x.raw.dedupeKey
  }

  lemma TicksTickLike(i: nat, t: string, p: int, d: Draw)
    ensures TickLike(Arrival(TimeTickEvent(i, t, p), d)) && TickLike(Arrival(MaintenanceTickEvent(i, t, p), d))
    ensures Key(Arrival(TimeTickEvent(i, t, p), d)) == TimeKey(i)
    ensures Key(Arrival(MaintenanceTickEvent(i, t, p), d)) == MaintenanceKey(i)
  {
    hide Padded;
    var time, maintenance := "autonomy-time-tick-", "autonomy-maintenance-tick-";
    assert "evt-" + time == "evt-autonomy-time-tick-";
    assert "evt-" + maintenance == "evt-autonomy-maintenance-tick-";
    Regroup("evt-", time, Padded(i));
    Regroup("evt-", maintenance, Padded(i));
  }

  lemma Regroup(a: string, b: string, c: string)
    ensures a + (b + c) == (a + b) + c
  {
  }

  /** An empty batch is planned as its ticks, whatever the time. */
  lemma EmptyPlan(cfg: Config, i: nat, last: Option<nat>, b: Batch)
    requires cfg.policy.interval != 0 && b.raws == []
    ensures var plan := PlanFor(cfg, i, last, b);
      var time := TimeTickEvent(i, b.now, cfg.policy.tickPriority);
      var maintenance := MaintenanceTickEvent(i, b.now, cfg.policy.maintenancePriority);
      && plan.planned == (if !Scheduling(cfg) then []
                          else [time] + if DueAt(cfg, i, last) then [maintenance] else [])
      && plan.runs == (!cfg.autonomy
                       || (!cfg.paused && (DueAt(cfg, i, last) || cfg.policy.tickPriority >= cfg.policy.wakeThreshold)))
      && LastMaintenance(cfg, i, last, plan) == if Scheduling(cfg) && DueAt(cfg, i, last) then Some(i) else last
  {
    var m := Moment(i, CycleTime(b), cfg.vitality, last);
    var time := TimeTickEvent(i, b.now, cfg.policy.tickPriority);
    assert !HasTopic([], TIME_TICK) && !HasTopic([], MAINTENANCE_TICK) && [] + [time] == [time];
    TopicsSnoc([], time, MAINTENANCE_TICK);
    TickTopics(i, b.now, cfg.policy.tickPriority);
    hide HasTopic, HasExternal, Highest, Padded, TopicOf, Due;
    if Scheduling(cfg) {
      TicksPlanned([], cfg.policy, m);
      SleepsIff([], cfg.policy, m);
    }
  }

  /** One cycle of an empty batch accepts nothing exactly if it does not run, or every tick it emits
      has been seen; and then it stores nothing. */
  lemma QuietCycleIff(s: Ingress, e: Evidence, cfg: Config, i: nat, b: Batch, clock: nat -> string)
    requires cfg.policy.interval != 0 && b.raws == []
    ensures var plan, after := PlanFor(cfg, i, e.last, b), RunCycle(s, e, cfg, i, b, clock);
      && (after.evidence.normalized == e.normalized <==>
            !plan.runs || forall k :: 0 <= k < |plan.planned| ==> plan.planned[k].dedupeKey in s.seen)
      && (after.evidence.normalized == e.normalized ==> after.end.rows == s.rows)
  {
    hide HasTopic, Padded, PlanFor, Accept, Keys, Ingest, DueAt;
    var plan := PlanFor(cfg, i, e.last, b);
    var batch := Arrivals(plan.planned, b.draw);
    EmptyPlan(cfg, i, e.last, b);
    KeysSeenIff(plan.planned, b.draw, s.seen);
    AcceptsNothingIff(s.seen, batch);
    if Accept(s.seen, batch) == [] {
      IngestNothing(s, batch, clock);
    }
  }

  // ---------- A run of the daemon is a process on its table ----------

  function BatchesOf(cfg: Config, batches: seq<Batch>, n: nat): seq<seq<Arrival>>
    requires cfg.policy.interval != 0 && n <= |batches|
  {
    if n == 0 then [] else BatchesOf(cfg, batches, n - 1) + [ArrivalsAt(cfg, batches, n)]
  }

  lemma {:induction false} SessionSnoc(s: Ingress, batches: seq<seq<Arrival>>, last: seq<Arrival>, clock: nat -> string)
    ensures Session(s, batches + [last], clock).rows
         == Ingest(SessionEnd(s, batches, clock), last, clock).rows
    ensures SessionEnd(s, batches + [last], clock) == Ingest(SessionEnd(s, batches, clock), last, clock)
    ensures Session(s, batches + [last], clock).accepted
         == Session(s, batches, clock).accepted + Accept(SessionEnd(s, batches, clock).seen, last)
    decreases |batches|
  {
    hide Accept, InsertAll, Ingest;
    if batches == [] {
      assert [] + [last] == [last] && [last][1..] == [];
      var next := Ingest(s, last, clock);
      assert Session(next, [], clock) == Outcome(next.rows, []) && SessionEnd(next, [], clock) == next;
    } else {
      assert (batches + [last])[1..] == batches[1..] + [last];
      SessionSnoc(Ingest(s, batches[0], clock), batches[1..], last, clock);
    }
  }

  /** The router and the table a process leaves. */
  function SessionEnd(s: Ingress, batches: seq<seq<Arrival>>, clock: nat -> string): (end: Ingress)
    ensures end.rows == Session(s, batches, clock).rows
    decreases |batches|
  {
    if batches == [] then s else SessionEnd(Ingest(s, batches[0], clock), batches[1..], clock)
  }

  lemma IngestEmpty(s: Ingress, clock: nat -> string)
    ensures Ingest(s, [], clock) == s && Accept(s.seen, []) == []
  {
    KeysNone();
    assert s.seen + {} == s.seen;
  }

  lemma {:induction false} CyclesAreSession(s: Ingress, cfg: Config, batches: seq<Batch>, n: nat, clock: nat -> string)
    requires cfg.policy.interval != 0 && n <= |batches| && NothingSupplied(batches)
    ensures CyclesUpTo(s, cfg, batches, n, clock).end == SessionEnd(s, BatchesOf(cfg, batches, n), clock)
    ensures CyclesUpTo(s, cfg, batches, n, clock).evidence.normalized
         == |Session(s, BatchesOf(cfg, batches, n), clock).accepted|
    ensures CyclesUpTo(s, cfg, batches, n, clock).evidence.last == LastDue(cfg, n)
  {
    hide Accept, Ingest, PlanFor, HasTopic, DueAt;
    if n == 0 {
    } else {
      var before := CyclesUpTo(s, cfg, batches, n - 1, clock);
      CyclesAreSession(s, cfg, batches, n - 1, clock);
      EmptyPlan(cfg, n, LastDue(cfg, n - 1), batches[n - 1]);
      SessionSnoc(s, BatchesOf(cfg, batches, n - 1), ArrivalsAt(cfg, batches, n), clock);
      IngestEmpty(before.end, clock);
    }
  }

  // ---------- The keys of a run ----------

  lemma ArrivalsKeys(cfg: Config, batches: seq<Batch>, i: nat)
    requires cfg.policy.interval != 0 && 0 < i <= |batches| && NothingSupplied(batches)
    ensures KeySeq(ArrivalsAt(cfg, batches, i)) == EmittedAt(cfg, i)
    ensures forall x :: x in ArrivalsAt(cfg, batches, i) ==> TickLike(x)
  {
    hide PlanFor, DueAt, Key, TickLike, TimeKey, MaintenanceKey, TimeTickEvent, MaintenanceTickEvent;
    var b := batches[i - 1];
    EmptyPlan(cfg, i, LastDue(cfg, i - 1), b);
    var planned := PlanAt(cfg, batches, i).planned;
    forall k | 0 <= k < |planned|
      ensures TickLike(Arrival(planned[k], b.draw(k)))
      ensures Key(Arrival(planned[k], b.draw(k))) == if k == 0 then TimeKey(i) else MaintenanceKey(i)
    {
      TicksTickLike(i, b.now, if k == 0 then cfg.policy.tickPriority else cfg.policy.maintenancePriority, b.draw(k));
    }
  }

  lemma {:induction false} FlatKeys(cfg: Config, batches: seq<Batch>, n: nat)
    requires cfg.policy.interval != 0 && n <= |batches| && NothingSupplied(batches)
    ensures KeySeq(EventOrder.Flat(BatchesOf(cfg, batches, n))) == Emitted(cfg, n)
    ensures forall x :: x in EventOrder.Flat(BatchesOf(cfg, batches, n)) ==> TickLike(x)
  {
    hide ArrivalsAt, EmittedAt, TickLike, Key;
    if n == 0 {
    } else {
      FlatKeys(cfg, batches, n - 1);
      ArrivalsKeys(cfg, batches, n);
      FlatSnoc(BatchesOf(cfg, batches, n - 1), ArrivalsAt(cfg, batches, n));
    }
  }

  lemma {:induction false} FlatSnoc(batches: seq<seq<Arrival>>, last: seq<Arrival>)
    ensures EventOrder.Flat(batches + [last]) == EventOrder.Flat(batches) + last
    decreases |batches|
  {
    if batches == [] {
      assert [] + [last] == [last] && [last][1..] == [];
      assert last + [] == last;
    } else {
      assert (batches + [last])[1..] == batches[1..] + [last];
      FlatSnoc(batches[1..], last);
    }
  }

  /** The keys of cycle i and of no other. */
  predicate KeyOfCycle(k: string, i: nat) {
    k == TimeKey(i) || k == MaintenanceKey(i)
  }

  lemma KeysOfCycles(i: nat, j: nat)
    ensures TimeKey(i) == TimeKey(j) <==> i == j
    ensures MaintenanceKey(i) == MaintenanceKey(j) <==> i == j
    ensures TimeKey(i) != MaintenanceKey(j)
  {
    hide Padded;
    TickNamesDistinct(i, "", 0, j, "", 0);
  }

  lemma {:induction false} EmittedByCycle(cfg: Config, n: nat)
    requires cfg.policy.interval != 0
    ensures forall k :: k in Emitted(cfg, n) ==> exists i :: 0 < i <= n && KeyOfCycle(k, i)
  {
    hide TimeKey, MaintenanceKey, DueAt, LastDue;
    if n > 0 {
      EmittedByCycle(cfg, n - 1);
      forall k | k in Emitted(cfg, n)
        ensures exists i :: 0 < i <= n && KeyOfCycle(k, i)
      {
        if k in EmittedAt(cfg, n) {
          assert KeyOfCycle(k, n);
        }
      }
    }
  }

  predicate Distinct(keys: seq<string>) {
    forall i, j :: 0 <= i < j < |keys| ==> keys[i] != keys[j]
  }

  lemma NewKeys(cfg: Config, n: nat, k: string)
    requires cfg.policy.interval != 0 && n > 0 && k in EmittedAt(cfg, n)
    ensures k !in Emitted(cfg, n - 1)
  {
    hide TimeKey, MaintenanceKey, DueAt, LastDue, Emitted;
    EmittedByCycle(cfg, n - 1);
    forall i, l | 0 < i < n && KeyOfCycle(l, i)
      ensures l != k
    {
      KeysOfCycles(i, n);
      KeysOfCycles(n, i);
    }
  }

  /** No key is emitted twice in a run. */
  lemma {:induction false} EmittedDistinct(cfg: Config, n: nat)
    requires cfg.policy.interval != 0
    ensures Distinct(Emitted(cfg, n))
  {
    hide TimeKey, MaintenanceKey, DueAt, LastDue;
    if n > 0 {
      EmittedDistinct(cfg, n - 1);
      KeysOfCycles(n, n);
      var old_, now := Emitted(cfg, n - 1), EmittedAt(cfg, n);
      assert forall j :: 0 <= j < |now| ==> now[j] in now;
      forall k | k in now
        ensures k !in old_
      {
        NewKeys(cfg, n, k);
      }
    }
  }

  lemma {:induction false} EmittedPrefix(cfg: Config, m: nat, n: nat)
    requires cfg.policy.interval != 0 && m <= n
    ensures Emitted(cfg, m) <= Emitted(cfg, n)
    decreases n
  {
    hide EmittedAt;
    if m < n {
      EmittedPrefix(cfg, m, n - 1);
    }
  }

  // ---------- The second process ----------

  lemma TicksAreProper(all: seq<Arrival>)
    requires forall x :: x in all ==> TickLike(x)
    ensures OneKeyPerId(all) && FreshIds(all) && Named(all) == Keys(all)
  {
    forall x, y | x in all && y in all && SameId(x, y)
      ensures Normal(x).key == Normal(y).key
    {
      assert x.raw.eventId[4..] == x.raw.dedupeKey && y.raw.eventId[4..] == y.raw.dedupeKey;
    }
    assert forall i :: 0 <= i < |all| ==> all[i] in all;
  }

  /** If the first keys of a batch have been seen and the others are new and distinct, the others
      are accepted. */
  lemma {:induction false} AcceptRest(seen: set<string>, batch: seq<Arrival>, c: nat)
    requires c <= |batch| && Distinct(KeySeq(batch))
    requires forall i :: 0 <= i < |batch| ==> (Key(batch[i]) in seen <==> i < c)
    ensures |Accept(seen, batch)| == |batch| - c
    decreases |batch|
  {
    hide Key;
    if batch == [] {
    } else {
      var rest := batch[1..];
      assert forall i :: 0 <= i < |rest| ==> rest[i] == batch[i + 1];
      assert forall i :: 0 < i < |batch| ==> KeySeq(batch)[0] != KeySeq(batch)[i];
      forall i, j | 0 <= i < j < |rest|
        ensures KeySeq(rest)[i] != KeySeq(rest)[j]
      {
        assert KeySeq(batch)[i + 1] != KeySeq(batch)[j + 1];
      }
      if c > 0 {
        AcceptRest(seen, rest, c - 1);
      } else {
        AcceptRest(seen + {Key(batch[0])}, rest, 0);
      }
    }
  }

  lemma KeysAreElements(batch: seq<Arrival>)
    ensures forall k :: k in Keys(batch) <==> k in KeySeq(batch)
  {
    hide Key;
    forall k | k in Keys(batch)
      ensures k in KeySeq(batch)
    {
      var i :| 0 <= i < |batch| && Key(batch[i]) == k;
      assert KeySeq(batch)[i] == k;
    }
  }

  function Least(a: nat, b: nat): nat {
    if a < b then a else b
  }

  /** Of the ticks of n cycles, a router that has seen those of m cycles accepts the ticks beyond. */
  lemma AcceptsBeyond(cfg: Config, first: seq<Arrival>, m: nat, second: seq<Arrival>, n: nat)
    requires cfg.policy.interval != 0
    requires KeySeq(first) == Emitted(cfg, m) && KeySeq(second) == Emitted(cfg, n)
    ensures |Accept(Keys(first), second)| == |Emitted(cfg, n)| - |Emitted(cfg, Least(m, n))|
  {
    hide Accept, Key, Keys, EmittedAt, Emitted, KeySeq;
    var c := |Emitted(cfg, Least(m, n))|;
    EmittedPrefix(cfg, Least(m, n), m);
    EmittedPrefix(cfg, Least(m, n), n);
    EmittedDistinct(cfg, n);
    KeysAreElements(first);
    forall i | 0 <= i < |second|
      ensures Key(second[i]) in Keys(first) <==> i < c
    {
      assert Key(second[i]) == Emitted(cfg, n)[i];
      if i < c {
        assert Emitted(cfg, m)[i] == Emitted(cfg, n)[i];
      } else {
        assert forall j :: 0 <= j < c ==> Emitted(cfg, n)[j] == Emitted(cfg, Least(m, n))[j];
      }
    }
    AcceptRest(Keys(first), second, c);
  }

  lemma {:induction false} SilentSession(s: Ingress, batches: seq<seq<Arrival>>, clock: nat -> string)
    requires Session(s, batches, clock).accepted == []
    ensures Session(s, batches, clock).rows == s.rows
    decreases |batches|
  {
    hide Accept, InsertAll, Keys, Output;
    if batches == [] {
    } else {
      IngestNothing(s, batches[0], clock);
      SilentSession(Ingest(s, batches[0], clock), batches[1..], clock);
    }
  }

  /** A daemon that is given nothing runs on an empty table, and then again on the table it left,
      with the same configuration. While the stored keys fit in the seeding query, the second
      process accepts exactly the ticks of the cycles by which it outruns the first; until then it
      accepts and stores nothing. */
  lemma RestartRepeatsTicks(cfg: Config, first: seq<Batch>, second: seq<Batch>, clock: nat -> string,
                            later: nat -> string, rows: seq<Row>)
    requires cfg.policy.interval != 0 && NothingSupplied(first) && NothingSupplied(second)
    requires rows == Replayed([], cfg, first, clock).end.rows && |Keyed(rows)| <= 1000
    ensures Replayed(rows, cfg, second, later).evidence.normalized
         == |Emitted(cfg, |second|)| - |Emitted(cfg, Least(|first|, |second|))|
    ensures |second| <= |first| ==> Replayed(rows, cfg, second, later).end.rows == rows
  {
    hide CyclesUpTo, Session, BatchesOf, Emitted, OneKeyPerId, FreshIds, Named, Keys, Accept, KeyedKeys, Seeds, Keyed;
    var a, b := BatchesOf(cfg, first, |first|), BatchesOf(cfg, second, |second|);
    var x, y := EventOrder.Flat(a), EventOrder.Flat(b);
    var none := Ingress({}, []);
    EmptyStart();
    CyclesAreSession(none, cfg, first, |first|, clock);
    FlatKeys(cfg, first, |first|);
    FlatKeys(cfg, second, |second|);
    assert [] + x == x;
    TicksAreProper(x);
    TicksAreProper(x + y);
    SessionAgrees(none, [], a, clock);
    SeedsAreAll(rows);
    var again := Ingress(Seeds(rows), rows);
    CyclesAreSession(again, cfg, second, |second|, later);
    SessionAgrees(again, x, b, later);
    AcceptsBeyond(cfg, x, |first|, y, |second|);
    if |second| <= |first| {
      SilentSession(again, b, later);
    }
  }

  lemma EmptyStart()
    ensures Seeds([]) == {} && Keys([]) == {} && Named([]) == {} && Holds([], [])
  {
    SeedsFromRows([]);
    assert KeyedKeys([]) == {};
  }
}
