/** What the replayed daemon keeps over whole runs: its duplicate count, the spacing of maintenance,
    when a cycle runs, and what its tick names do across restarts. */
module DaemonSafety {
  import opened Wrappers
  import opened Basics
  import opened Events
  import opened EventStore
  import opened Restart
  import opened Service
  import opened Daemon

  // ---------- Counters ----------

  function SumDuplicates(cycles: seq<Cycle>): nat {
    if cycles == [] then 0 else SumDuplicates(cycles[..|cycles| - 1]) + cycles[|cycles| - 1].duplicates
  }

  /** The planned events of cycles that did not run. */
  function SumSkipped(cycles: seq<Cycle>): nat {
    if cycles == [] then 0
    else SumSkipped(cycles[..|cycles| - 1]) + if cycles[|cycles| - 1].ran then 0 else cycles[|cycles| - 1].planned
  }

  lemma CyclesLength(s: Ingress, cfg: Config, batches: seq<Batch>, n: nat, clock: nat -> string)
    requires cfg.policy.interval != 0 && n <= |batches|
    ensures |CyclesUpTo(s, cfg, batches, n, clock).evidence.cycles| == n
  {
    hide PlanFor, Accept, Arrivals, Ingest, HasTopic;
    if n > 0 {
      CyclesLength(s, cfg, batches, n - 1, clock);
    }
  }

  lemma {:induction false} CyclesConserve(s: Ingress, cfg: Config, batches: seq<Batch>, n: nat, clock: nat -> string)
    requires cfg.policy.interval != 0 && n <= |batches|
    ensures var e := CyclesUpTo(s, cfg, batches, n, clock).evidence;
            e.planned == e.normalized + SumDuplicates(e.cycles) + SumSkipped(e.cycles)
  {
    hide PlanFor, Accept, Arrivals, Ingest, HasTopic;
    if n == 0 {
    } else {
      CyclesConserve(s, cfg, batches, n - 1, clock);
      var before := CyclesUpTo(s, cfg, batches, n - 1, clock);
      var after := CyclesUpTo(s, cfg, batches, n, clock);
      var plan := PlanFor(cfg, n, before.evidence.last, batches[n - 1]);
      AcceptShort(before.end.seen, Arrivals(plan.planned, batches[n - 1].draw));
      assert after.evidence.cycles[..|after.evidence.cycles| - 1] == before.evidence.cycles;
    }
  }

  lemma AcceptShort(seen: set<string>, batch: seq<Arrival>)
    ensures |Accept(seen, batch)| <= |batch|
    decreases |batch|
  {
    hide Key;
    if batch == [] {
    } else {
      AcceptShort(seen, batch[1..]);
      AcceptShort(seen + {Key(batch[0])}, batch[1..]);
    }
  }

  /** The duplicates a run reports are those of its cycles and the planned events of the cycles that
      did not run. */
  lemma DuplicatesConserved(rows: seq<Row>, cfg: Config, batches: seq<Batch>, clock: nat -> string)
    requires cfg.policy.interval != 0
    ensures Duplicates(Replayed(rows, cfg, batches, clock).evidence)
         == SumDuplicates(Replayed(rows, cfg, batches, clock).evidence.cycles)
            + SumSkipped(Replayed(rows, cfg, batches, clock).evidence.cycles)
  {
    hide CyclesUpTo;
    CyclesConserve(Ingress(Seeds(rows), rows), cfg, batches, |batches|, clock);
  }

  // ---------- Ticks in a plan ----------

  lemma TopicsSnoc(raws: seq<RawEvent>, raw: RawEvent, topic: string)
    ensures HasTopic(raws + [raw], topic) <==> HasTopic(raws, topic) || TopicOf(raw) == topic
    ensures HasExternal(raws + [raw]) <==> HasExternal(raws) || External(raw)
  {
    hide TopicOf, External;
    var all := raws + [raw];
    assert all[|raws|] == raw;
    assert forall i :: 0 <= i < |raws| ==> all[i] == raws[i];
    if HasTopic(raws, topic) {
      var i :| 0 <= i < |raws| && TopicOf(raws[i]) == topic;
      assert all[i] == raws[i];
    }
    if HasExternal(raws) {
      var i :| 0 <= i < |raws| && External(raws[i]);
      assert all[i] == raws[i];
    }
  }

  lemma TickTopics(index: nat, timestamp: string, priority: int)
    ensures TopicOf(TimeTickEvent(index, timestamp, priority)) == TIME_TICK
    ensures TopicOf(MaintenanceTickEvent(index, timestamp, priority)) == MAINTENANCE_TICK
    ensures TIME_TICK != MAINTENANCE_TICK
  {
    assert |TIME_TICK| == 9 && |MAINTENANCE_TICK| == 21;
  }

  /** Planning adds ticks and nothing else: every plan starts with the batch, has a time tick,
      has maintenance exactly when it was supplied or is due, and never adds external events. */
  lemma TicksPlanned(raws: seq<RawEvent>, policy: Policy, m: Moment)
    requires policy.interval != 0
    ensures raws <= WithTicks(raws, policy, m) && |WithTicks(raws, policy, m)| <= |raws| + 2
    ensures HasTopic(WithTicks(raws, policy, m), TIME_TICK)
    ensures HasTopic(WithTicks(raws, policy, m), MAINTENANCE_TICK)
       <==> HasTopic(raws, MAINTENANCE_TICK) || Due(policy, m)
    ensures HasExternal(WithTicks(raws, policy, m)) <==> HasExternal(raws)
  {
    hide HasTopic, HasExternal, TopicOf, Due, TimeTickEvent, MaintenanceTickEvent;
    var time := TimeTickEvent(m.index, m.timestamp, policy.tickPriority);
    var maintenance := MaintenanceTickEvent(m.index, m.timestamp, policy.maintenancePriority);
    var timed := WithTime(raws, policy, m);
    TickTopics(m.index, m.timestamp, policy.tickPriority);
    TickTopics(m.index, m.timestamp, policy.maintenancePriority);
    TopicsSnoc(raws, time, TIME_TICK);
    TopicsSnoc(raws, time, MAINTENANCE_TICK);
    TopicsSnoc(timed, maintenance, TIME_TICK);
    TopicsSnoc(timed, maintenance, MAINTENANCE_TICK);
  }

  lemma {:induction false} HighestIff(raws: seq<RawEvent>, limit: int)
    requires raws != []
    ensures Highest(raws) >= limit <==> exists r :: r in raws && PriorityOf(r) >= limit
    decreases |raws|
  {
    hide PriorityOf;
    assert raws == [raws[0]] + raws[1..];
    assert raws[0] in raws;
    if |raws| > 1 {
      HighestIff(raws[1..], limit);
      forall r | r in raws[1..]
        ensures r in raws
      {
      }
    }
  }

  /** An unpaused cycle sleeps exactly when nothing but clock ticks is at hand, maintenance is not
      due, and no tick, supplied or scheduled, reaches the wake threshold. */
  lemma SleepsIff(raws: seq<RawEvent>, policy: Policy, m: Moment)
    requires policy.interval != 0
    ensures !PlanCycle(raws, policy, m, false).runs
       <==> (forall r :: r in raws ==> TopicOf(r) == TIME_TICK && PriorityOf(r) < policy.wakeThreshold)
            && !Due(policy, m)
            && (raws == [] ==> policy.tickPriority < policy.wakeThreshold)
  {
    hide Due, Highest, HasTopic, HasExternal, TopicOf;
    var planned := WithTicks(raws, policy, m);
    TicksPlanned(raws, policy, m);
    NoExternalIff(raws);
    if planned != [] {
      HighestIff(planned, policy.wakeThreshold);
    }
    if !HasExternal(raws) && !HasTopic(raws, MAINTENANCE_TICK) && !Due(policy, m) {
      AllClock(raws);
      OnlyTime(raws, policy, m);
      assert planned != [] && planned[0] in planned;
    }
  }

  lemma NoExternalIff(raws: seq<RawEvent>)
    ensures HasExternal(raws) || HasTopic(raws, MAINTENANCE_TICK) <==> exists r :: r in raws && TopicOf(r) != TIME_TICK
  {
    hide TopicOf;
    if HasExternal(raws) {
      var i :| 0 <= i < |raws| && External(raws[i]);
      assert raws[i] in raws;
    }
    TickTopics(0, "", 0);
  }

  lemma AllClock(raws: seq<RawEvent>)
    requires !HasExternal(raws) && !HasTopic(raws, MAINTENANCE_TICK)
    ensures raws != [] ==> HasTopic(raws, TIME_TICK)
  {
    hide TopicOf;
    if raws != [] {
      assert !External(raws[0]);
    }
  }

  lemma OnlyTime(raws: seq<RawEvent>, policy: Policy, m: Moment)
    requires policy.interval != 0 && !Due(policy, m)
    requires raws != [] ==> HasTopic(raws, TIME_TICK)
    ensures WithTicks(raws, policy, m)
         == if raws == [] then [TimeTickEvent(m.index, m.timestamp, policy.tickPriority)] else raws
  {
    hide TopicOf, Due, TimeTickEvent;
    assert raws == [] ==> !HasTopic(raws, TIME_TICK);
    var tick := [TimeTickEvent(m.index, m.timestamp, policy.tickPriority)];
    assert raws == [] ==> raws + tick == tick;
  }

  // ---------- Maintenance ----------

  predicate Unpaused(cfg: Config) {
    cfg.autonomy && !cfg.paused && cfg.policy.interval >= 1
  }

  function MomentOf(cfg: Config, index: nat, last: Option<nat>, b: Batch): Moment {
    Moment(index, CycleTime(b), cfg.vitality, last)
  }

  /** One unpaused cycle: maintenance happens exactly when supplied or due, it is what the loop
      remembers, and a cycle with maintenance runs. */
  lemma CycleMaintains(s: Ingress, e: Evidence, cfg: Config, index: nat, b: Batch, clock: nat -> string)
    requires Unpaused(cfg)
    ensures var after := RunCycle(s, e, cfg, index, b, clock).evidence;
            var now := HasTopic(b.raws, MAINTENANCE_TICK) || Due(cfg.policy, MomentOf(cfg, index, e.last, b));
            |after.cycles| == |e.cycles| + 1 && after.cycles[..|e.cycles|] == e.cycles
            && after.cycles[|e.cycles|].maintenance == now
            && (now ==> after.cycles[|e.cycles|].ran)
            && after.last == if now then Some(index) else e.last
  {
    hide HasTopic, HasExternal, Due, Accept, Arrivals, Ingest, WithTicks, Highest;
    TicksPlanned(b.raws, cfg.policy, MomentOf(cfg, index, e.last, b));
  }

  /** The loop remembers the latest cycle with maintenance, and it is less than k cycles ago. */
  predicate Recent(cfg: Config, e: Evidence, n: nat) {
    |e.cycles| == n
    && match e.last
       case None => n < cfg.policy.interval && forall i :: 0 <= i < n ==> !e.cycles[i].maintenance
       case Some(last) => 1 <= last <= n && n - last < cfg.policy.interval && e.cycles[last - 1].maintenance
                          && forall i :: last <= i < n ==> !e.cycles[i].maintenance
  }

  lemma {:induction false} CyclesRecent(s: Ingress, cfg: Config, batches: seq<Batch>, n: nat, clock: nat -> string)
    requires Unpaused(cfg) && n <= |batches|
    ensures Recent(cfg, CyclesUpTo(s, cfg, batches, n, clock).evidence, n)
  {
    hide RunCycle, HasTopic;
    if n == 0 {
    } else {
      CyclesRecent(s, cfg, batches, n - 1, clock);
      var before := CyclesUpTo(s, cfg, batches, n - 1, clock);
      CycleMaintains(before.end, before.evidence, cfg, n, batches[n - 1], clock);
      if !Due(cfg.policy, MomentOf(cfg, n, before.evidence.last, batches[n - 1])) {
        DueInTime(cfg, before.evidence, n, batches[n - 1]);
      }
      var cycles := CyclesUpTo(s, cfg, batches, n, clock).evidence.cycles;
      assert forall i :: 0 <= i < n - 1 ==> cycles[i] == cycles[..n - 1][i];
    }
  }

  lemma DueInTime(cfg: Config, e: Evidence, n: nat, b: Batch)
    requires Unpaused(cfg) && n > 0 && Recent(cfg, e, n - 1) && !Due(cfg.policy, MomentOf(cfg, n, e.last, b))
    ensures match e.last case None => n < cfg.policy.interval case Some(last) => n - last < cfg.policy.interval
  {
    assert n % n == 0;
  }

  /** A run's cycles extend those of its first part. */
  lemma {:induction false} CyclesExtend(s: Ingress, cfg: Config, batches: seq<Batch>, m: nat, n: nat,
                                        clock: nat -> string)
    requires cfg.policy.interval != 0 && m <= n <= |batches|
    ensures CyclesUpTo(s, cfg, batches, m, clock).evidence.cycles
         <= CyclesUpTo(s, cfg, batches, n, clock).evidence.cycles
    ensures |CyclesUpTo(s, cfg, batches, m, clock).evidence.cycles| == m
    decreases n
  {
    hide PlanFor, Accept, Arrivals, Ingest, HasTopic;
    CyclesLength(s, cfg, batches, m, clock);
    if m < n {
      CyclesExtend(s, cfg, batches, m, n - 1, clock);
    }
  }

  /** Any k consecutive cycles hold one with maintenance, and that one runs: maintenance first comes
      by cycle k, and gaps never exceed k. */
  lemma MaintenanceGaps(s: Ingress, cfg: Config, batches: seq<Batch>, from: nat, clock: nat -> string)
    requires Unpaused(cfg) && from + cfg.policy.interval <= |batches|
    ensures var cycles := CyclesUpTo(s, cfg, batches, |batches|, clock).evidence.cycles;
            |cycles| == |batches|
            && exists i :: from <= i < from + cfg.policy.interval && cycles[i].maintenance && cycles[i].ran
  {
    hide RunCycle, CyclesUpTo;
    var n := from + cfg.policy.interval;
    CyclesRecent(s, cfg, batches, n, clock);
    CyclesExtend(s, cfg, batches, n, |batches|, clock);
    CyclesExtend(s, cfg, batches, |batches|, |batches|, clock);
    var e := CyclesUpTo(s, cfg, batches, n, clock).evidence;
    var cycles := CyclesUpTo(s, cfg, batches, |batches|, clock).evidence.cycles;
    assert e.last.Some?;
    var i := e.last.value - 1;
    assert cycles[i] == e.cycles[i];
    MaintenanceRuns(s, cfg, batches, i, clock);
  }

  lemma MaintenanceRuns(s: Ingress, cfg: Config, batches: seq<Batch>, i: nat, clock: nat -> string)
    requires Unpaused(cfg) && i < |batches|
    ensures var cycles := CyclesUpTo(s, cfg, batches, |batches|, clock).evidence.cycles;
            |cycles| == |batches| && (cycles[i].maintenance ==> cycles[i].ran)
  {
    hide RunCycle;
    CyclesExtend(s, cfg, batches, i, i + 1, clock);
    CyclesExtend(s, cfg, batches, i + 1, |batches|, clock);
    CyclesExtend(s, cfg, batches, |batches|, |batches|, clock);
    var before := CyclesUpTo(s, cfg, batches, i, clock);
    CycleMaintains(before.end, before.evidence, cfg, i + 1, batches[i], clock);
  }

  predicate NoneSupplied(batches: seq<Batch>) {
    forall i :: 0 <= i < |batches| ==> !HasTopic(batches[i].raws, MAINTENANCE_TICK)
  }

  /** With healthy vitality and no maintenance supplied, the loop remembers the last multiple of k. */
  lemma {:induction false} CyclesOnSchedule(s: Ingress, cfg: Config, batches: seq<Batch>, n: nat, clock: nat -> string)
    requires Unpaused(cfg) && n <= |batches| && NoneSupplied(batches) && !LowVitality(cfg.vitality)
    ensures var e := CyclesUpTo(s, cfg, batches, n, clock).evidence;
            |e.cycles| == n
            && (forall i :: 0 <= i < n ==> (e.cycles[i].maintenance <==> (i + 1) % cfg.policy.interval == 0))
            && e.last == (if n < cfg.policy.interval then None else Some(n - n % cfg.policy.interval))
  {
    hide RunCycle, HasTopic;
    if n == 0 {
    } else {
      CyclesOnSchedule(s, cfg, batches, n - 1, clock);
      var before := CyclesUpTo(s, cfg, batches, n - 1, clock);
      CycleMaintains(before.end, before.evidence, cfg, n, batches[n - 1], clock);
      NextMultiple(n, cfg.policy.interval);
      var cycles := CyclesUpTo(s, cfg, batches, n, clock).evidence.cycles;
      assert forall i :: 0 <= i < n - 1 ==> cycles[i] == cycles[..n - 1][i];
    }
  }

  lemma NextMultiple(n: nat, k: nat)
    requires n > 0 && k > 0
    ensures n < k ==> n % k != 0
    ensures n == k ==> n % k == 0
    ensures n % k == 0 <==> (n - 1) % k == k - 1
    ensures n % k != 0 ==> n - n % k == (n - 1) - (n - 1) % k
  {
    var q, r := (n - 1) / k, (n - 1) % k;
    assert n - 1 == k * q + r;
    if r == k - 1 {
      assert n == k * (q + 1);
      ModOf(n, k, q + 1, 0);
    } else {
      ModOf(n, k, q, r + 1);
    }
    if n < k {
      ModOf(n, k, 0, n);
    }
    if n == k {
      ModOf(n, k, 1, 0);
    }
  }

  lemma ModOf(n: nat, k: nat, q: nat, r: nat)
    requires k > 0 && r < k && n == k * q + r
    ensures n % k == r
  {
    SameRemainder(k, n / k, n % k, q, r);
  }

  lemma SameRemainder(k: nat, p: nat, t: nat, q: nat, r: nat)
    requires t < k && r < k && k * p + t == k * q + r
    ensures t == r
  {
    var d := p - q;
    assert k * p - k * q == k * d && k * -d == -(k * d);
    if d >= 1 {
      AtLeast(k, d);
    } else if d <= -1 {
      AtLeast(k, -d);
    }
  }

  lemma AtLeast(k: nat, d: int)
    requires d >= 1
    ensures k * d >= k
  {
  }

  /** With healthy vitality and no maintenance supplied, maintenance comes exactly at the multiples
      of the interval. */
  lemma MaintenanceAtMultiples(s: Ingress, cfg: Config, batches: seq<Batch>, clock: nat -> string, i: nat)
    requires Unpaused(cfg) && NoneSupplied(batches) && !LowVitality(cfg.vitality) && 1 <= i <= |batches|
    ensures var cycles := CyclesUpTo(s, cfg, batches, |batches|, clock).evidence.cycles;
            |cycles| == |batches| && (cycles[i - 1].maintenance <==> i % cfg.policy.interval == 0)
  {
    hide CyclesUpTo;
    CyclesOnSchedule(s, cfg, batches, |batches|, clock);
    var cycles := CyclesUpTo(s, cfg, batches, |batches|, clock).evidence.cycles;
    assert cycles[i - 1].maintenance <==> (i - 1 + 1) % cfg.policy.interval == 0;
  }

  // ---------- Tick names ----------

  /** Reading decimal digits back. */
  function ValueOf(s: string): int {
    if s == "" then 0 else 10 * ValueOf(s[..|s| - 1]) + (s[|s| - 1] as int - '0' as int)
  }

  lemma {:induction false} DecimalReads(n: nat)
    ensures ValueOf(Decimal(n)) == n
  {
    if n < 10 {
      assert Decimal(n)[..0] == "";
    } else {
      var s := Decimal(n / 10) + [(('0' as int) + n % 10) as char];
      assert s[..|s| - 1] == Decimal(n / 10);
      DecimalReads(n / 10);
    }
  }

  lemma {:induction false} ZerosRead(k: nat, s: string)
    ensures ValueOf(Zeros(k) + s) == ValueOf(s)
    decreases k, |s|
  {
    if s != "" {
      ZerosRead(k, s[..|s| - 1]);
      assert (Zeros(k) + s)[..|Zeros(k) + s| - 1] == Zeros(k) + s[..|s| - 1];
    } else if k > 0 {
      ZerosSnoc(k - 1);
      assert Zeros(k) + "" == Zeros(k - 1) + "0";
      assert (Zeros(k - 1) + "0")[..|Zeros(k - 1)|] == Zeros(k - 1) + "";
      ZerosRead(k - 1, "");
      assert ValueOf("") == 0;
    } else {
      assert Zeros(0) + "" == "";
    }
  }

  lemma {:induction false} ZerosSnoc(k: nat)
    ensures Zeros(k + 1) == Zeros(k) + "0"
  {
    if k == 0 {
    } else {
      ZerosSnoc(k - 1);
      assert "0" + (Zeros(k - 1) + "0") == ("0" + Zeros(k - 1)) + "0";
    }
  }

  lemma PaddedReads(n: nat)
    ensures ValueOf(Padded(n)) == n
  {
    DecimalReads(n);
    ZerosRead(Monus(4, |Decimal(n)|), Decimal(n));
  }

  /** Ticks of different cycles, and of different kinds, have different ids and keys. */
  lemma TickNamesDistinct(i: nat, s: string, p: int, j: nat, t: string, q: int)
    ensures TimeTickEvent(i, s, p).dedupeKey == TimeTickEvent(j, t, q).dedupeKey <==> i == j
    ensures TimeTickEvent(i, s, p).eventId == TimeTickEvent(j, t, q).eventId <==> i == j
    ensures MaintenanceTickEvent(i, s, p).dedupeKey == MaintenanceTickEvent(j, t, q).dedupeKey <==> i == j
    ensures MaintenanceTickEvent(i, s, p).eventId == MaintenanceTickEvent(j, t, q).eventId <==> i == j
    ensures TimeTickEvent(i, s, p).dedupeKey != MaintenanceTickEvent(j, t, q).dedupeKey
    ensures TimeTickEvent(i, s, p).eventId != MaintenanceTickEvent(j, t, q).eventId
  {
    hide Padded;
    PaddedReads(i);
    PaddedReads(j);
    PrefixInjective("autonomy-time-tick-", Padded(i), Padded(j));
    PrefixInjective("evt-autonomy-time-tick-", Padded(i), Padded(j));
    PrefixInjective("autonomy-maintenance-tick-", Padded(i), Padded(j));
    PrefixInjective("evt-autonomy-maintenance-tick-", Padded(i), Padded(j));
    assert TimeTickEvent(i, s, p).dedupeKey[9] == 't' && MaintenanceTickEvent(j, t, q).dedupeKey[9] == 'm';
    assert TimeTickEvent(i, s, p).eventId[13] == 't' && MaintenanceTickEvent(j, t, q).eventId[13] == 'm';
  }

  lemma PrefixInjective(p: string, a: string, b: string)
    ensures p + a == p + b <==> a == b
  {
    assert (p + a)[|p|..] == a && (p + b)[|p|..] == b;
  }
}
