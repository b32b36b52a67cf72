/** The live event service: a bounded number of collection cycles over one shared router, each
    preceded by a throwaway router that predicts the duplicates, with a log of lifecycle states. */
module Service {
  import opened Sorting
  import opened Basics
  import opened Events
  import opened EventRouter
  import opened EventStore
  import opened Restart

  /** What a cycle's collection yields: raw events, with what the throwaway router and
      the shared one draw for the incomplete ones; or a failure with its message. */
  datatype Collection =
    | Collected(raws: seq<RawEvent>, probeDraw: nat -> Draw, draw: nat -> Draw)
    | Failed(message: string)

  function Arrivals(raws: seq<RawEvent>, draws: nat -> Draw): (r: seq<Arrival>)
    ensures |r| == |raws| && forall i :: 0 <= i < |r| ==> r[i] == Arrival(raws[i], draws(i))
  {
    seq(|raws|, i requires 0 <= i < |raws| => Arrival(raws[i], draws(i)))
  }

  function Status(message: string): string {
    OrElse(message, "event_service_monitor_failed")
  }

  // ---------- Topics ----------

  function RawTopics(raws: seq<RawEvent>): set<string> {
    (set i | 0 <= i < |raws| :: raws[i].payloadTopic)
    + (set i | 0 <= i < |raws| ::
         OrElse(raws[i].topic.GetOr(""), raws[i].eventType.GetOr("")))
  }

  function EventTopics(es: seq<Event>): set<string> {
    (set i | 0 <= i < |es| :: es[i].payloadTopic)
    + (set i | 0 <= i < |es| :: OrElse(es[i].topic, es[i].eventType))
  }

  /** The topics of a cycle: of the events predicted to be new, or of all when none is. */
  function CycleTopics(raws: seq<RawEvent>, predicted: seq<Event>): set<string> {
    if predicted == [] then RawTopics(raws) else EventTopics(predicted)
  }

  // ---------- Reports ----------

  /** The running totals. */
  datatype Totals = Totals(collected: nat, persisted: nat, duplicates: nat, lifecycle: seq<string>)

  datatype Report = Report(ok: bool, totals: Totals, end: Ingress)

  function CycleStates(last: bool, persisted: nat, topics: set<string>): seq<string> {
    (if "unit.network.endpoint_drift" in topics then ["stale_endpoint"] else [])
    + (if persisted > 0 then ["events_persisted"] else [])
    + (if !last || persisted == 0 then ["heartbeat"] else [])
  }

  function Logged(t: Totals, states: seq<string>): Totals {
    t.(lifecycle := t.lifecycle + states)
  }

  /** The totals once a collection of n events is in, of which some are predicted to be new. */
  function Ready(t: Totals, n: nat, predicted: nat): Totals {
    Totals(t.collected + n, t.persisted, t.duplicates + Monus(n, predicted), t.lifecycle + ["ready"])
  }

  /** What a router seeded from another's keys has seen: empty keys are passed over. */
  function Seedable(seen: set<string>): set<string> {
    seen - {""}
  }

  /** The totals after a cycle's collection has been probed. */
  function Probed(t: Totals, seen: set<string>, c: Collection): Totals
    requires c.Collected?
  {
    var probe := Accept(Seedable(seen), Arrivals(c.raws, c.probeDraw));
    Ready(t, |c.raws|, |probe|)
  }

  function Ingested(t: Totals, seen: set<string>, c: Collection, last: bool): Totals
    requires c.Collected?
  {
    var accepted := |Accept(seen, Arrivals(c.raws, c.draw))|;
    var topics := CycleTopics(c.raws, Output(Seedable(seen), Arrivals(c.raws, c.probeDraw)));
    Totals(t.collected, t.persisted + accepted, t.duplicates, t.lifecycle + CycleStates(last, accepted, topics))
  }

  /** The cycles from the given one on. */
  function Cycles(s: Ingress, t: Totals, first: bool, cycles: seq<Collection>, clock: nat -> string): Report
    decreases |cycles|
  {
    if cycles == [] then
      Report(true, Logged(t, ["clean_shutdown"]), s)
    else if cycles[0].Failed? then
      Report(false, Logged(t, [Status(cycles[0].message), "clean_shutdown"]), s)
    else
      var probed := Probed(t, s.seen, cycles[0]);
      if cycles[0].raws == [] && first && t.persisted == 0 then
        Report(false, Logged(probed, ["no_events", "clean_shutdown"]), s)
      else
        Cycles(Ingest(s, Arrivals(cycles[0].raws, cycles[0].draw), clock),
               Ingested(probed, s.seen, cycles[0], |cycles| == 1), false, cycles[1..], clock)
  }

  function Opening(rows: seq<Row>): seq<string> {
    ["start"] + if RecentKeys(rows, SEED_LIMIT) != [] then ["restart"] else []
  }

  /** A whole run on a table. */
  function Run(rows: seq<Row>, cycles: seq<Collection>, clock: nat -> string): Report {
    Cycles(Ingress(Seeds(rows), rows), Totals(0, 0, 0, Opening(rows)), true, cycles, clock)
  }

  /** Where the cycles stop: after the last one, and at one that fails. */
  lemma CyclesStop(s: Ingress, t: Totals, first: bool, cycles: seq<Collection>, clock: nat -> string)
    requires cycles == [] || cycles[0].Failed?
    ensures Cycles(s, t, first, cycles, clock)
         == if cycles == [] then Report(true, Logged(t, ["clean_shutdown"]), s)
            else Report(false, Logged(t, [Status(cycles[0].message), "clean_shutdown"]), s)
  {
  }

  /** A collected cycle, in terms of what the two routers return. */
  lemma CyclesCollect(s: Ingress, t: Totals, first: bool, cycles: seq<Collection>, clock: nat -> string,
                      predicted: seq<Event>, events: seq<Event>, probed: Totals)
    requires cycles != [] && cycles[0].Collected?
    requires predicted == Output(Seedable(s.seen), Arrivals(cycles[0].raws, cycles[0].probeDraw))
    requires events == Output(s.seen, Arrivals(cycles[0].raws, cycles[0].draw))
    requires probed == Ready(t, |cycles[0].raws|, |predicted|)
    ensures Cycles(s, t, first, cycles, clock)
         == if cycles[0].raws == [] && first && t.persisted == 0 then
              Report(false, Logged(probed, ["no_events", "clean_shutdown"]), s)
            else
              Cycles(Ingress(s.seen + Keys(Arrivals(cycles[0].raws, cycles[0].draw)), InsertAll(s.rows, events, clock)),
                     Logged(probed.(persisted := t.persisted + |events|),
                            CycleStates(|cycles| == 1, |events|, CycleTopics(cycles[0].raws, predicted))),
                     false, cycles[1..], clock)
  {
    hide Accept, Keys, InsertAll, CycleStates, CycleTopics, Normals, Sort, Arrivals;
    OutputKeeps(Seedable(s.seen), Arrivals(cycles[0].raws, cycles[0].probeDraw));
    OutputKeeps(s.seen, Arrivals(cycles[0].raws, cycles[0].draw));
  }

  method RunLiveEventService(table: Table, cycles: seq<Collection>, clock: nat -> string) returns (report: Report)
    requires cycles != []
    modifies table
    ensures report == Run(old(table.rows), cycles, clock)
    ensures table.rows == report.end.rows
  {
    hide Accept, Keys, InsertAll, CycleStates, CycleTopics, Output, RecentKeys, Cycles, Arrivals, Seedable;
    hide Answers, Marks;
    var shared := new Router();
    var seededKeys := RecentKeys(table.rows, SEED_LIMIT);
    shared.SeedDedupeKeys(seededKeys);
    assert shared.seen == Seeds(table.rows);
    var t := Totals(0, 0, 0, ["start"]);
    if seededKeys != [] {
      t := Logged(t, ["restart"]);
    }
    assert cycles[0..] == cycles && t.lifecycle == Opening(table.rows);
    for index := 0 to |cycles|
      invariant Cycles(Ingress(shared.seen, table.rows), t, index == 0, cycles[index..], clock)
             == Run(old(table.rows), cycles, clock)
    {
      ghost var s, was := Ingress(shared.seen, table.rows), t;
      assert cycles[index..][0] == cycles[index] && cycles[index..][1..] == cycles[index + 1..];
      match cycles[index] {
        case Failed(message) =>
          CyclesStop(s, was, index == 0, cycles[index..], clock);
          t := Logged(t, [Status(message), "clean_shutdown"]);
          return Report(false, t, Ingress(shared.seen, table.rows));
        case Collected(raws, probeDraw, draw) =>
          var probe := new Router();
          probe.seen := Seedable(shared.seen);
          var predicted := probe.Normalize(Arrivals(raws, probeDraw));
          t := Ready(t, |raws|, |predicted|);
          CyclesCollect(s, was, index == 0, cycles[index..], clock, predicted, Output(s.seen, Arrivals(raws, draw)), t);
          if raws == [] && index == 0 && t.persisted == 0 {
            t := Logged(t, ["no_events", "clean_shutdown"]);
            return Report(false, t, Ingress(shared.seen, table.rows));
          }
          var events := shared.Normalize(Arrivals(raws, draw));
          table.PersistAll(events, clock);
          t := Logged(t.(persisted := t.persisted + |events|),
                      CycleStates(index == |cycles| - 1, |events|, CycleTopics(raws, predicted)));
          assert |cycles[index..]| == 1 <==> index == |cycles| - 1;
      }
    }
    CyclesStop(Ingress(shared.seen, table.rows), t, |cycles| == 0, cycles[|cycles|..], clock);
    report := Report(true, Logged(t, ["clean_shutdown"]), Ingress(shared.seen, table.rows));
  }
}
