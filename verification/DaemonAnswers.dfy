/** What the autonomy planner and the daemon's loop answer, in terms of topics, numbers and names. */
module DaemonAnswers {
  import opened Wrappers
  import opened Basics
  import opened Events
  import opened EventRouter
  import opened Restart
  import opened Service
  import opened Daemon
  import opened DaemonSafety

  // ---------- In terms of the fields ----------

  /** The topic a raw event is filed under. */
  predicate FiledUnder(raw: RawEvent, topic: string) {
    if raw.topic.Some? && raw.topic.value != "" then raw.topic.value == topic
    else if raw.eventType.Some? && raw.eventType.value != "" then raw.eventType.value == topic
    else topic == "unknown"
  }

  predicate Supplies(raws: seq<RawEvent>, topic: string) {
    exists i :: 0 <= i < |raws| && FiledUnder(raws[i], topic)
  }

  predicate SuppliesOther(raws: seq<RawEvent>) {
    exists i :: 0 <= i < |raws| && !FiledUnder(raws[i], "time.tick") && !FiledUnder(raws[i], "core.maintenance.tick")
  }

  /** Some event has a priority that reaches the threshold; a missing one counts as 0. */
  predicate Reaches(raws: seq<RawEvent>, threshold: int) {
    exists i :: 0 <= i < |raws|
      && if raws[i].priority.Some? then raws[i].priority.value >= threshold else 0 >= threshold
  }

  /** Maintenance is due: vitality is low, or the interval has passed. */
  predicate MaintenanceDue(interval: int, m: Moment)
    requires interval != 0
  {
    m.vitality == Some("concerned") || m.vitality == Some("critical")
    || (m.last.None? && m.index % interval == 0) || (m.last.Some? && m.index - m.last.value >= interval)
  }

  /** A tick of the daemon: its id is its key with a prefix, and it is filed under its topic. */
  predicate IsTick(raw: RawEvent, key: string, topic: string, timestamp: string, priority: int) {
    && raw.eventId == "evt-" + key && raw.dedupeKey == key && raw.timestamp == timestamp
    && raw.priority == Some(priority) && FiledUnder(raw, topic) && raw.eventType == Some(topic)
    && raw.payloadTopic == ""
  }

  /** What is planned: the batch, then a clock tick unless one is there, then maintenance if it is due
      and none is there. */
  predicate PlannedAs(raws: seq<RawEvent>, policy: Policy, m: Moment, planned: seq<RawEvent>)
    requires policy.interval != 0
  {
    var time, maintenance := !Supplies(raws, "time.tick"),
                             MaintenanceDue(policy.interval, m) && !Supplies(raws, "core.maintenance.tick");
    && raws <= planned && |planned| == |raws| + (if time then 1 else 0) + (if maintenance then 1 else 0)
    && (time ==> IsTick(planned[|raws|], "autonomy-time-tick-" + Padded(m.index), "time.tick", m.timestamp,
                        policy.tickPriority))
    && (maintenance ==> IsTick(planned[|planned| - 1], "autonomy-maintenance-tick-" + Padded(m.index),
                               "core.maintenance.tick", m.timestamp, policy.maintenancePriority))
  }

  lemma TopicMeans(raw: RawEvent, topic: string)
    ensures FiledUnder(raw, topic) <==> TopicOf(raw) == topic
  {
  }

  lemma TopicsMean(raws: seq<RawEvent>)
    ensures forall topic :: HasTopic(raws, topic) <==> Supplies(raws, topic)
    ensures HasExternal(raws) <==> SuppliesOther(raws)
  {
    hide TopicOf, FiledUnder;
    forall raw, topic
      ensures FiledUnder(raw, topic) <==> TopicOf(raw) == topic
    {
      TopicMeans(raw, topic);
    }
  }

  lemma DueMeans(policy: Policy, m: Moment)
    requires policy.interval != 0
    ensures Due(policy, m) <==> MaintenanceDue(policy.interval, m)
  {
  }

  lemma Regroup(a: string, b: string, c: string)
    ensures a + (b + c) == (a + b) + c
  {
  }

  lemma TimePrefix(d: string)
    ensures "evt-autonomy-time-tick-" + d == "evt-" + ("autonomy-time-tick-" + d)
  {
    Regroup("evt-", "autonomy-time-tick-", d);
    assert "evt-" + "autonomy-time-tick-" == "evt-autonomy-time-tick-";
  }

  lemma MaintenancePrefix(d: string)
    ensures "evt-autonomy-maintenance-tick-" + d == "evt-" + ("autonomy-maintenance-tick-" + d)
  {
    Regroup("evt-", "autonomy-maintenance-tick-", d);
    assert "evt-" + "autonomy-maintenance-tick-" == "evt-autonomy-maintenance-tick-";
  }

  lemma TicksMean(index: nat, timestamp: string, priority: int)
    ensures IsTick(TimeTickEvent(index, timestamp, priority), "autonomy-time-tick-" + Padded(index), "time.tick",
                   timestamp, priority)
    ensures IsTick(MaintenanceTickEvent(index, timestamp, priority), "autonomy-maintenance-tick-" + Padded(index),
                   "core.maintenance.tick", timestamp, priority)
  {
    hide Padded;
    TimePrefix(Padded(index));
    MaintenancePrefix(Padded(index));
  }

  lemma WithTicksMeans(raws: seq<RawEvent>, policy: Policy, m: Moment)
    requires policy.interval != 0
    ensures PlannedAs(raws, policy, m, WithTicks(raws, policy, m))
  {
    hide HasTopic, Due, Supplies, MaintenanceDue, TimeTickEvent, MaintenanceTickEvent, IsTick, TopicOf, Padded;
    TopicsMean(raws);
    DueMeans(policy, m);
    TicksMean(m.index, m.timestamp, policy.tickPriority);
    TicksMean(m.index, m.timestamp, policy.maintenancePriority);
    TickTopics(m.index, m.timestamp, policy.tickPriority);
    TopicsSnoc(raws, TimeTickEvent(m.index, m.timestamp, policy.tickPriority), MAINTENANCE_TICK);
  }

  /** Cycle numbers are written in decimal, with leading zeros up to four digits. */
  lemma CycleNumbers(n: nat)
    ensures ValueOf(Padded(n)) == n && |Padded(n)| >= 4 && (n < 10000 ==> |Padded(n)| == 4)
    ensures Padded(1) == "0001" && Padded(120) == "0120"
  {
    PaddedReads(n);
    ZerosLength(Monus(4, |Decimal(n)|));
    if n < 10000 {
      DecimalLength(n);
    }
    assert Decimal(120) == Decimal(12) + ['0'] && Decimal(12) == Decimal(1) + ['2'];
    assert Zeros(3) == "0" + Zeros(2) && Zeros(2) == "0" + Zeros(1) && Zeros(1) == "0" + Zeros(0);
  }

  lemma {:induction false} ZerosLength(n: nat)
    ensures |Zeros(n)| == n
  {
    if n > 0 {
      ZerosLength(n - 1);
    }
  }

  lemma DecimalLength(n: nat)
    requires n < 10000
    ensures 1 <= |Decimal(n)| <= 4
  {
    assert n >= 10 ==> |Decimal(n)| == |Decimal(n / 10)| + 1;
    assert n >= 100 ==> |Decimal(n / 10)| == |Decimal(n / 100)| + 1;
    assert n >= 1000 ==> |Decimal(n / 100)| == |Decimal(n / 1000)| + 1;
  }

  // ---------- One plan ----------

  lemma HighestReaches(raws: seq<RawEvent>, threshold: int)
    ensures (if raws == [] then 0 else Highest(raws)) >= threshold
       <==> Reaches(raws, threshold) || (raws == [] && 0 >= threshold)
  {
    if raws != [] {
      HighestIff(raws, threshold);
      hide Highest;
      if r :| r in raws && PriorityOf(r) >= threshold {
        var i :| 0 <= i < |raws| && raws[i] == r;
        assert Reaches(raws, threshold);
      }
      if Reaches(raws, threshold) {
        var i :| 0 <= i < |raws|
          && if raws[i].priority.Some? then raws[i].priority.value >= threshold else 0 >= threshold;
        assert raws[i] in raws && PriorityOf(raws[i]) >= threshold;
      }
    }
  }

  /** A plan, unless it is paused: any other event wakes the core; else maintenance runs alone; else a
      clock tick of sufficient priority wakes it; else it sleeps. */
  lemma PlanAnswers(raws: seq<RawEvent>, policy: Policy, m: Moment)
    requires policy.interval != 0
    ensures var plan := PlanCycle(raws, policy, m, false);
      var maintained := Supplies(raws, "core.maintenance.tick") || MaintenanceDue(policy.interval, m);
      && PlannedAs(raws, policy, m, plan.planned)
      && plan.synthetic == |plan.planned| - |raws|
      && (plan.wake == AffectiveWake <==>
            SuppliesOther(raws) || (!maintained && Reaches(plan.planned, policy.wakeThreshold)))
      && (plan.wake == MaintenanceOnly <==> !SuppliesOther(raws) && maintained)
      && (plan.wake == Sleep <==>
            !SuppliesOther(raws) && !maintained && !Reaches(plan.planned, policy.wakeThreshold))
      && (plan.runs <==> plan.wake != Sleep)
      && plan.kind == if SuppliesOther(raws) then (if maintained then Mixed else ExternalBatch)
                      else if maintained then MaintenanceCycle else TimeCycle
    ensures PlanCycle(raws, policy, m, true) == Plan(PausedCycle, Paused, raws, 0, false)
  {
    hide HasTopic, HasExternal, Due, Supplies, SuppliesOther, MaintenanceDue, WithTicks, Highest, Reaches, IsTick;
    hide TopicOf;
    var planned := WithTicks(raws, policy, m);
    TopicsMean(raws);
    DueMeans(policy, m);
    WithTicksMeans(raws, policy, m);
    TicksPlanned(raws, policy, m);
    HighestReaches(planned, policy.wakeThreshold);
    assert planned != [] by { PlannedSome(raws, policy, m); }
  }

  lemma PlannedSome(raws: seq<RawEvent>, policy: Policy, m: Moment)
    requires policy.interval != 0
    ensures WithTicks(raws, policy, m) != []
  {
  }

  // ---------- One cycle ----------

  /** The time of a cycle: that of its last event if it has one, else the clock's. */
  predicate TimeOf(b: Batch, time: string) {
    if b.raws != [] && b.raws[|b.raws| - 1].timestamp != "" then time == b.raws[|b.raws| - 1].timestamp
    else time == b.now
  }

  predicate PlannedAt(cfg: Config, index: nat, last: Option<nat>, b: Batch, time: string, plan: Plan)
    requires cfg.policy.interval != 0
  {
    TimeOf(b, time) && plan == PlanCycle(b.raws, cfg.policy, Moment(index, time, cfg.vitality, last), cfg.paused)
  }

  /** What the loop records of a cycle, and what a skipped one leaves alone. */
  lemma CycleAnswers(s: Ingress, e: Evidence, cfg: Config, index: nat, b: Batch, clock: nat -> string)
    requires cfg.policy.interval != 0
    ensures var plan, after := PlanFor(cfg, index, e.last, b), RunCycle(s, e, cfg, index, b, clock);
      var batch := Arrivals(plan.planned, b.draw);
      var found := if plan.runs then NewCount(s.seen, batch, |batch|) else 0;
      && (!cfg.autonomy ==> plan.runs && plan.planned == b.raws)
      && (cfg.autonomy ==> exists time :: PlannedAt(cfg, index, e.last, b, time, plan))
      && (plan.runs ==> after.end == Ingest(s, batch, clock)) && (!plan.runs ==> after.end == s)
      && after.evidence.provided == e.provided + |b.raws|
      && after.evidence.planned == e.planned + |plan.planned|
      && after.evidence.normalized == e.normalized + found
      && |after.evidence.cycles| == |e.cycles| + 1 && after.evidence.cycles[..|e.cycles|] == e.cycles
      && var c := after.evidence.cycles[|e.cycles|];
         && c.index == index && c.provided == |b.raws| && c.planned == |plan.planned| && c.normalized == found
         && c.synthetic == |plan.planned| - |b.raws|
         && c.duplicates == (if plan.runs then |plan.planned| - found else 0)
         && c.ran == plan.runs && (c.maintenance <==> Supplies(plan.planned, "core.maintenance.tick"))
  {
    var plan := PlanFor(cfg, index, e.last, b);
    var batch := Arrivals(plan.planned, b.draw);
    PlannedLonger(cfg, index, e.last, b);
    TopicsMean(plan.planned);
    assert cfg.autonomy ==> PlannedAt(cfg, index, e.last, b, CycleTime(b), plan);
    OutputCount(s.seen, batch);
    OutputKeeps(s.seen, batch);
    hide PlanFor, PlannedAt, Accept, Ingest, HasTopic, Supplies, Arrivals, Output, NewCount;
    AcceptShort(s.seen, batch);
  }

  lemma PlannedLonger(cfg: Config, index: nat, last: Option<nat>, b: Batch)
    requires cfg.policy.interval != 0
    ensures var plan := PlanFor(cfg, index, last, b);
      |plan.planned| >= |b.raws| && (!cfg.autonomy ==> plan.runs && plan.planned == b.raws)
  {
    hide HasTopic, Due, HasExternal, Highest;
  }
}
