/** The replayed event daemon and its autonomy planner: synthetic clock and maintenance ticks, the
    decision to wake, and a loop of cycles over one router and one table. */
module Daemon {
  import opened Sorting
  import opened Wrappers
  import opened Basics
  import opened Events
  import opened EventRouter
  import opened EventStore
  import opened Restart
  import opened Service

  // ---------- Tick names ----------

  function Zeros(n: nat): string {
    if n == 0 then "" else "0" + Zeros(n - 1)
  }

  /** Decimal, padded with zeros to four places. */
  function Padded(n: nat): string {
    Zeros(Monus(4, |Decimal(n)|)) + Decimal(n)
  }

  const TIME_TICK := "time.tick"
  const MAINTENANCE_TICK := "core.maintenance.tick"

  function TimeTickEvent(index: nat, timestamp: string, priority: int): RawEvent {
    RawEvent("evt-autonomy-time-tick-" + Padded(index), "autonomy-time-tick-" + Padded(index),
             Some(priority), timestamp, Some(TIME_TICK), Some(TIME_TICK), "")
  }

  function MaintenanceTickEvent(index: nat, timestamp: string, priority: int): RawEvent {
    RawEvent("evt-autonomy-maintenance-tick-" + Padded(index), "autonomy-maintenance-tick-" + Padded(index),
             Some(priority), timestamp, Some(MAINTENANCE_TICK), Some(MAINTENANCE_TICK), "")
  }

  // ---------- Plans ----------

  datatype Policy = Policy(interval: int, tickPriority: int, maintenancePriority: int, wakeThreshold: int)

  datatype Kind = PausedCycle | Mixed | ExternalBatch | MaintenanceCycle | TimeCycle

  datatype Wake = Paused | AffectiveWake | MaintenanceOnly | Sleep

  datatype Plan = Plan(kind: Kind, wake: Wake, planned: seq<RawEvent>, synthetic: nat, runs: bool)

  /** Given to the planner besides the batch; None is an absent state or cycle. */
  datatype Moment = Moment(index: nat, timestamp: string, vitality: Option<string>, last: Option<nat>)

  function TopicOf(raw: RawEvent): string {
    OrElse(raw.topic.GetOr(""), OrElse(raw.eventType.GetOr(""), "unknown"))
  }

  predicate HasTopic(raws: seq<RawEvent>, topic: string) {
    exists i :: 0 <= i < |raws| && TopicOf(raws[i]) == topic
  }

  predicate External(raw: RawEvent) {
    TopicOf(raw) != TIME_TICK && TopicOf(raw) != MAINTENANCE_TICK
  }

  predicate HasExternal(raws: seq<RawEvent>) {
    exists i :: 0 <= i < |raws| && External(raws[i])
  }

  predicate LowVitality(vitality: Option<string>) {
    vitality == Some("concerned") || vitality == Some("critical")
  }

  predicate Due(policy: Policy, m: Moment)
    requires policy.interval != 0
  {
    LowVitality(m.vitality)
    || match m.last
       case None => m.index % policy.interval == 0
       case Some(last) => m.index - last >= policy.interval
  }

  function PriorityOf(raw: RawEvent): int {
    raw.priority.GetOr(0)
  }

  function Highest(raws: seq<RawEvent>): int
    requires raws != []
  {
    if |raws| == 1 then PriorityOf(raws[0])
    else
      var rest := Highest(raws[1..]);
      if PriorityOf(raws[0]) > rest then PriorityOf(raws[0]) else rest
  }

  function WithTime(raws: seq<RawEvent>, policy: Policy, m: Moment): seq<RawEvent> {
    if HasTopic(raws, TIME_TICK) then raws
    else raws + [TimeTickEvent(m.index, m.timestamp, policy.tickPriority)]
  }

  function WithTicks(raws: seq<RawEvent>, policy: Policy, m: Moment): seq<RawEvent>
    requires policy.interval != 0
  {
    var timed := WithTime(raws, policy, m);
    if Due(policy, m) && !HasTopic(timed, MAINTENANCE_TICK)
    then timed + [MaintenanceTickEvent(m.index, m.timestamp, policy.maintenancePriority)]
    else timed
  }

  function WakeOf(planned: seq<RawEvent>, policy: Policy): Wake {
    if HasExternal(planned) then AffectiveWake
    else if HasTopic(planned, MAINTENANCE_TICK) then MaintenanceOnly
    else if (if planned == [] then 0 else Highest(planned)) >= policy.wakeThreshold then AffectiveWake
    else Sleep
  }

  function KindOf(planned: seq<RawEvent>): Kind {
    match (HasExternal(planned), HasTopic(planned, MAINTENANCE_TICK))
    case (true, true) => Mixed
    case (true, false) => ExternalBatch
    case (false, true) => MaintenanceCycle
    case (false, false) => TimeCycle
  }

  function PlanCycle(raws: seq<RawEvent>, policy: Policy, m: Moment, paused: bool): Plan
    requires policy.interval != 0
  {
    if paused then Plan(PausedCycle, Paused, raws, 0, false)
    else
      var planned := WithTicks(raws, policy, m);
      Plan(KindOf(planned), WakeOf(planned, policy), planned, Monus(|planned|, |raws|),
           WakeOf(planned, policy) != Sleep)
  }

  // ---------- The loop ----------

  datatype Config = Config(autonomy: bool, policy: Policy, vitality: Option<string>, paused: bool)

  /** A batch to replay, the clock's reading for its cycle, and what is drawn for incomplete events. */
  datatype Batch = Batch(raws: seq<RawEvent>, now: string, draw: nat -> Draw)

  datatype Cycle = Cycle(index: nat, provided: nat, planned: nat, synthetic: nat, normalized: nat, duplicates: nat,
                         ran: bool, maintenance: bool)

  datatype Evidence = Evidence(provided: nat, planned: nat, normalized: nat, last: Option<nat>, cycles: seq<Cycle>)

  datatype Replay = Replay(evidence: Evidence, end: Ingress)

  /** The time of the last event, else the clock's. */
  function CycleTime(b: Batch): string {
    if b.raws != [] then OrElse(b.raws[|b.raws| - 1].timestamp, b.now) else b.now
  }

  function PlanFor(cfg: Config, index: nat, last: Option<nat>, b: Batch): Plan
    requires cfg.policy.interval != 0
  {
    if cfg.autonomy
    then PlanCycle(b.raws, cfg.policy, Moment(index, CycleTime(b), cfg.vitality, last), cfg.paused)
    else Plan(ExternalBatch, AffectiveWake, b.raws, 0, true)
  }

  function LastMaintenance(cfg: Config, index: nat, last: Option<nat>, plan: Plan): Option<nat> {
    if cfg.autonomy && HasTopic(plan.planned, MAINTENANCE_TICK) then Some(index) else last
  }

  function RunCycle(s: Ingress, e: Evidence, cfg: Config, index: nat, b: Batch, clock: nat -> string): Replay
    requires cfg.policy.interval != 0
  {
    var plan := PlanFor(cfg, index, e.last, b);
    var batch := Arrivals(plan.planned, b.draw);
    var normalized := if plan.runs then |Accept(s.seen, batch)| else 0;
    Replay(
      Evidence(e.provided + |b.raws|, e.planned + |plan.planned|, e.normalized + normalized,
               LastMaintenance(cfg, index, e.last, plan),
               e.cycles + [Cycle(index, |b.raws|, |plan.planned|, Monus(|plan.planned|, |b.raws|), normalized,
                                 if plan.runs then Monus(|plan.planned|, normalized) else 0,
                                 plan.runs, HasTopic(plan.planned, MAINTENANCE_TICK))]),
      if plan.runs then Ingest(s, batch, clock) else s)
  }

  /** The first n cycles; cycles are numbered from 1. */
  function CyclesUpTo(s: Ingress, cfg: Config, batches: seq<Batch>, n: nat, clock: nat -> string): Replay
    requires cfg.policy.interval != 0 && n <= |batches|
  {
    if n == 0 then Replay(Evidence(0, 0, 0, None, []), s)
    else
      var before := CyclesUpTo(s, cfg, batches, n - 1, clock);
      RunCycle(before.end, before.evidence, cfg, n, batches[n - 1], clock)
  }

  function Replayed(rows: seq<Row>, cfg: Config, batches: seq<Batch>, clock: nat -> string): Replay
    requires cfg.policy.interval != 0
  {
    CyclesUpTo(Ingress(Seeds(rows), rows), cfg, batches, |batches|, clock)
  }

  /** The duplicates a run reports. */
  function Duplicates(e: Evidence): nat {
    Monus(e.planned, e.normalized)
  }

  method AnyTopic(raws: seq<RawEvent>, topic: string) returns (found: bool)
    ensures found == HasTopic(raws, topic)
  {
    found := false;
    for i := 0 to |raws|
      invariant found == exists j :: 0 <= j < i && TopicOf(raws[j]) == topic
    {
      if TopicOf(raws[i]) == topic {
        found := true;
      }
    }
  }

  method RunEventDaemonReplay(table: Table, cfg: Config, batches: seq<Batch>, clock: nat -> string)
    returns (evidence: Evidence, duplicates: nat)
    requires cfg.policy.interval != 0
    modifies table
    ensures evidence == Replayed(old(table.rows), cfg, batches, clock).evidence
    ensures table.rows == Replayed(old(table.rows), cfg, batches, clock).end.rows
    ensures duplicates == Duplicates(evidence)
  {
    hide Accept, Keys, InsertAll, Normals, Sort, RecentKeys, PlanFor, HasTopic, Arrivals, Answers, Marks;
    var shared := new Router();
    shared.SeedDedupeKeys(RecentKeys(table.rows, SEED_LIMIT));
    assert shared.seen == Seeds(table.rows);
    ghost var start := Ingress(shared.seen, table.rows);
    var provided: nat, planned: nat, normalized: nat := 0, 0, 0;
    var last: Option<nat> := None;
    var cycles: seq<Cycle> := [];
    for i := 0 to |batches|
      invariant CyclesUpTo(start, cfg, batches, i, clock)
             == Replay(Evidence(provided, planned, normalized, last, cycles), Ingress(shared.seen, table.rows))
    {
      var b, index := batches[i], i + 1;
      var plan := PlanFor(cfg, index, last, b);
      var maintenance := AnyTopic(plan.planned, MAINTENANCE_TICK);
      if cfg.autonomy && maintenance {
        last := Some(index);
      }
      provided := provided + |b.raws|;
      planned := planned + |plan.planned|;
      var synthetic := Monus(|plan.planned|, |b.raws|);
      if !plan.runs {
        cycles := cycles + [Cycle(index, |b.raws|, |plan.planned|, synthetic, 0, 0, false, maintenance)];
        continue;
      }
      OutputKeeps(shared.seen, Arrivals(plan.planned, b.draw));
      var events := shared.Normalize(Arrivals(plan.planned, b.draw));
      table.PersistAll(events, clock);
      normalized := normalized + |events|;
      cycles := cycles + [Cycle(index, |b.raws|, |plan.planned|, synthetic, |events|,
                                Monus(|plan.planned|, |events|), true, maintenance)];
    }
    evidence := Evidence(provided, planned, normalized, last, cycles);
    duplicates := Duplicates(evidence);
  }
}
