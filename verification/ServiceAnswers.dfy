/** What a run of the live event service answers, in terms of the collections it is given. */
module ServiceAnswers {
  import opened Sorting
  import opened Basics
  import opened Events
  import opened EventRouter
  import opened EventStore
  import opened Restart
  import opened Service

  // ---------- Which runs are in order ----------

  /** Every collection succeeds and the first one has events. */
  predicate InOrderRun(cycles: seq<Collection>) {
    (forall i :: 0 <= i < |cycles| ==> cycles[i].Collected?) && (cycles != [] ==> cycles[0].raws != [])
  }

  /** How many events are collected: those of the cycles up to the first that fails, and none if the
      first cycle has no events. */
  function Gathered(cycles: seq<Collection>): nat {
    if cycles == [] || cycles[0].Failed? then 0 else |cycles[0].raws| + Gathered(cycles[1..])
  }

  lemma {:induction false} CyclesAnswer(s: Ingress, t: Totals, first: bool, cycles: seq<Collection>,
                                        clock: nat -> string)
    requires first ==> t.persisted == 0
    ensures var r := Cycles(s, t, first, cycles, clock);
      && (r.ok <==> (forall i :: 0 <= i < |cycles| ==> cycles[i].Collected?)
                    && (first && cycles != [] ==> cycles[0].raws != []))
      && r.totals.collected
         == t.collected + if first && cycles != [] && cycles[0].Collected? && cycles[0].raws == [] then 0
                          else Gathered(cycles)
    decreases |cycles|
  {
    hide Probed, Ingested, Ingest;
    if cycles == [] || cycles[0].Failed? {
    } else {
      var c := cycles[0];
      assert Probed(t, s.seen, c).collected == t.collected + |c.raws| by { ProbedCounts(t, s.seen, c); }
      if c.raws == [] && first {
        assert Gathered(cycles) >= 0;
      } else {
        IngestedCounts(Probed(t, s.seen, c), s.seen, c, |cycles| == 1);
        CyclesAnswer(Ingest(s, Arrivals(c.raws, c.draw), clock),
                     Ingested(Probed(t, s.seen, c), s.seen, c, |cycles| == 1), false, cycles[1..], clock);
        assert forall i :: 0 < i < |cycles| ==> cycles[i] == cycles[1..][i - 1];
      }
    }
  }

  lemma ProbedCounts(t: Totals, seen: set<string>, c: Collection)
    requires c.Collected?
    ensures Probed(t, seen, c).collected == t.collected + |c.raws| && Probed(t, seen, c).persisted == t.persisted
  {
  }

  lemma IngestedCounts(t: Totals, seen: set<string>, c: Collection, last: bool)
    requires c.Collected?
    ensures Ingested(t, seen, c, last).collected == t.collected
  {
  }

  // ---------- One cycle ----------

  /** The topic a raw event is filed under; "" when it has none. */
  function TopicOfRaw(raw: RawEvent): string {
    if raw.topic.Some? && raw.topic.value != "" then raw.topic.value
    else if raw.eventType.Some? then raw.eventType.value else ""
  }

  /** The endpoint has drifted: a new event says so, or any event when none is new. */
  predicate Drifts(raws: seq<RawEvent>, predicted: seq<Event>) {
    if predicted == [] then
      exists i :: 0 <= i < |raws|
        && (raws[i].payloadTopic == "unit.network.endpoint_drift"
            || TopicOfRaw(raws[i]) == "unit.network.endpoint_drift")
    else
      exists i :: 0 <= i < |predicted|
        && (predicted[i].payloadTopic == "unit.network.endpoint_drift"
            || (if predicted[i].topic != "" then predicted[i].topic else predicted[i].eventType)
               == "unit.network.endpoint_drift")
  }

  /** What a cycle logs once its events are in. */
  function CycleLog(drifts: bool, accepted: nat, last: bool): seq<string> {
    ["ready"] + (if drifts then ["stale_endpoint"] else []) + (if accepted > 0 then ["events_persisted"] else [])
    + if last && accepted > 0 then [] else ["heartbeat"]
  }

  /** How many events of a collection are new to a router that has seen so much. */
  function NewOf(seen: set<string>, raws: seq<RawEvent>, draws: nat -> Draw): nat {
    NewCount(seen, Arrivals(raws, draws), |raws|)
  }

  /** What the throwaway router predicts; it was not given the empty key. */
  function Predicted(seen: set<string>, c: Collection): seq<Event>
    requires c.Collected?
  {
    Output(seen - {""}, Arrivals(c.raws, c.probeDraw))
  }

  lemma DriftMeans(raws: seq<RawEvent>, predicted: seq<Event>)
    ensures "unit.network.endpoint_drift" in CycleTopics(raws, predicted) <==> Drifts(raws, predicted)
  {
    forall i | 0 <= i < |raws|
      ensures TopicOfRaw(raws[i]) == OrElse(raws[i].topic.GetOr(""), raws[i].eventType.GetOr(""))
    {
    }
  }

  lemma StatesMean(last: bool, accepted: nat, raws: seq<RawEvent>, predicted: seq<Event>)
    ensures ["ready"] + CycleStates(last, accepted, CycleTopics(raws, predicted))
         == CycleLog(Drifts(raws, predicted), accepted, last)
  {
    DriftMeans(raws, predicted);
    hide Drifts, CycleTopics;
  }

  /** How many events each router takes for new. */
  lemma CountsMean(s: Ingress, c: Collection)
    requires c.Collected?
    ensures |Accept(s.seen, Arrivals(c.raws, c.draw))| == NewOf(s.seen, c.raws, c.draw)
    ensures |Accept(Seedable(s.seen), Arrivals(c.raws, c.probeDraw))| == NewOf(s.seen - {""}, c.raws, c.probeDraw)
    ensures NewOf(s.seen - {""}, c.raws, c.probeDraw) <= |c.raws|
  {
    hide Accept, Output, NewCount;
    var probe, batch := Arrivals(c.raws, c.probeDraw), Arrivals(c.raws, c.draw);
    OutputCount(s.seen - {""}, probe);
    OutputCount(s.seen, batch);
    OutputKeeps(s.seen - {""}, probe);
    OutputKeeps(s.seen, batch);
    NewAtMost(s.seen - {""}, probe, |probe|);
  }

  /** Counters and log after a cycle: what was collected, what was new, what the throwaway router took
      for duplicates, and the states in their order. */
  lemma CycleAnswers(s: Ingress, t: Totals, c: Collection, last: bool)
    requires c.Collected?
    ensures var next := Ingested(Probed(t, s.seen, c), s.seen, c, last);
      && next.collected == t.collected + |c.raws|
      && next.persisted == t.persisted + NewOf(s.seen, c.raws, c.draw)
      && next.duplicates == t.duplicates + |c.raws| - NewOf(s.seen - {""}, c.raws, c.probeDraw)
      && next.lifecycle
         == t.lifecycle + CycleLog(Drifts(c.raws, Predicted(s.seen, c)), NewOf(s.seen, c.raws, c.draw), last)
  {
    var accepted, predicted := NewOf(s.seen, c.raws, c.draw), Predicted(s.seen, c);
    CountsMean(s, c);
    StatesMean(last, accepted, c.raws, predicted);
    hide Drifts, Accept, Output, NewOf, CycleTopics, CycleStates, CycleLog, Arrivals;
    var states := CycleStates(last, accepted, CycleTopics(c.raws, predicted));
    assert t.lifecycle + ["ready"] + states == t.lifecycle + (["ready"] + states);
  }

  lemma {:induction false} NewAtMost(seen: set<string>, batch: seq<Arrival>, n: nat)
    requires n <= |batch|
    ensures NewCount(seen, batch, n) <= n
  {
    hide NewAt;
    if n > 0 {
      NewAtMost(seen, batch, n - 1);
    }
  }

  // ---------- The whole run ----------

  /** What a run logs from a cycle on. */
  function LogFrom(s: Ingress, first: bool, cycles: seq<Collection>, clock: nat -> string): seq<string>
    decreases |cycles|
  {
    if cycles == [] then ["clean_shutdown"]
    else
      match cycles[0]
      case Failed(message) =>
        [if message == "" then "event_service_monitor_failed" else message, "clean_shutdown"]
      case Collected(raws, _, draw) =>
        if raws == [] && first then ["ready", "no_events", "clean_shutdown"]
        else
          CycleLog(Drifts(raws, Predicted(s.seen, cycles[0])), NewOf(s.seen, raws, draw), |cycles| == 1)
          + LogFrom(Ingest(s, Arrivals(raws, draw), clock), false, cycles[1..], clock)
  }

  lemma {:induction false} CyclesLog(s: Ingress, t: Totals, first: bool, cycles: seq<Collection>, clock: nat -> string)
    requires first ==> t.persisted == 0
    ensures Cycles(s, t, first, cycles, clock).totals.lifecycle == t.lifecycle + LogFrom(s, first, cycles, clock)
    decreases |cycles|
  {
    hide Ingested, Ingest, CycleLog, Drifts, NewOf, Accept, Arrivals, Predicted;
    if cycles == [] || cycles[0].Failed? {
    } else {
      var c := cycles[0];
      if c.raws == [] && first {
        assert t.lifecycle + ["ready"] + ["no_events", "clean_shutdown"]
            == t.lifecycle + ["ready", "no_events", "clean_shutdown"];
      } else {
        CycleAnswers(s, t, c, |cycles| == 1);
        var next := Ingest(s, Arrivals(c.raws, c.draw), clock);
        CyclesLog(next, Ingested(Probed(t, s.seen, c), s.seen, c, |cycles| == 1), false, cycles[1..], clock);
        var log := CycleLog(Drifts(c.raws, Predicted(s.seen, c)), NewOf(s.seen, c.raws, c.draw), |cycles| == 1);
        var rest := LogFrom(next, false, cycles[1..], clock);
        assert t.lifecycle + log + rest == t.lifecycle + (log + rest);
      }
    }
  }

  lemma KeyedNone(rows: seq<Row>)
    ensures RecentKeys(rows, 1000) == [] <==> forall r :: r in rows ==> !HasKey(r)
  {
    FilterMembers(rows, HasKey);
    SortKeeps(Keyed(rows), Newer);
    hide HasKey, Newer;
    if Keyed(rows) != [] {
      assert Keyed(rows)[0] in rows;
    }
  }

  /** A whole run: it succeeds exactly if every collection does and the first has events; it counts the
      events of the cycles it came to; and it logs start, restart if a stored event has a key, and
      then what its cycles say. */
  lemma RunAnswers(rows: seq<Row>, cycles: seq<Collection>, clock: nat -> string)
    ensures var r := Run(rows, cycles, clock);
      && (r.ok <==> InOrderRun(cycles))
      && r.totals.collected
         == (if cycles != [] && cycles[0].Collected? && cycles[0].raws == [] then 0 else Gathered(cycles))
      && r.totals.lifecycle
         == ["start"] + (if exists i :: 0 <= i < |rows| && HasKey(rows[i]) then ["restart"] else [])
            + LogFrom(Ingress(Seeds(rows), rows), true, cycles, clock)
  {
    KeyedNone(rows);
    hide HasKey, Cycles, LogFrom, RecentKeys, Seeds;
    assert (exists r :: r in rows && HasKey(r)) <==> exists i :: 0 <= i < |rows| && HasKey(rows[i]);
    var s, t := Ingress(Seeds(rows), rows), Totals(0, 0, 0, Opening(rows));
    CyclesAnswer(s, t, true, cycles, clock);
    CyclesLog(s, t, true, cycles, clock);
  }
}
