/** What every returning run of the live event service keeps: exact prediction by the throwaway
    router, conservation of its counters, and the shape of its lifecycle log. */
module ServiceSafety {
  import opened Sorting
  import opened Wrappers
  import opened Events
  import opened EventStore
  import opened Restart
  import opened Service
  import EventOrder

  // ---------- Prediction ----------

  /** Ids drawn for unidentified events are new: not seen, and not the key of another event. */
  predicate Drawn(seen: set<string>, batch: seq<Arrival>) {
    forall i :: 0 <= i < |batch| && !Identified(batch[i].raw) ==> DrawnAt(seen, batch, i)
  }

  predicate DrawnAt(seen: set<string>, batch: seq<Arrival>, i: nat)
    requires i < |batch|
  {
    Key(batch[i]) != "" && Key(batch[i]) !in seen
    && forall j :: 0 <= j < |batch| && j != i ==> Key(batch[j]) != Key(batch[i])
  }

  /** The first occurrences are at the same positions whatever fresh ids were drawn. */
  lemma SameFirsts(seen: set<string>, raws: seq<RawEvent>, p: nat -> Draw, d: nat -> Draw, i: nat)
    requires i < |raws| && Drawn(seen, Arrivals(raws, p)) && Drawn(seen, Arrivals(raws, d))
    ensures EventOrder.First(seen, Arrivals(raws, p), i) <==> EventOrder.First(seen, Arrivals(raws, d), i)
  {
    hide Identified, Key;
    var a, b := Arrivals(raws, p), Arrivals(raws, d);
    if Identified(raws[i]) {
      SameKey(a[i], b[i]);
      forall j | 0 <= j < i
        ensures Key(a[j]) != Key(a[i]) <==> Key(b[j]) != Key(b[i])
      {
        if Identified(raws[j]) {
          SameKey(a[j], b[j]);
        } else {
          assert DrawnAt(seen, a, j) && DrawnAt(seen, b, j);
        }
      }
    } else {
      assert DrawnAt(seen, a, i) && DrawnAt(seen, b, i);
    }
  }

  lemma SameKey(a: Arrival, b: Arrival)
    requires a.raw == b.raw && Identified(a.raw)
    ensures Key(a) == Key(b) && Key(a) != ""
  {
  }

  lemma {:induction false} SameCount(seen: set<string>, raws: seq<RawEvent>, p: nat -> Draw, d: nat -> Draw, n: nat)
    requires n <= |raws| && Drawn(seen, Arrivals(raws, p)) && Drawn(seen, Arrivals(raws, d))
    ensures |EventOrder.Firsts(seen, Arrivals(raws, p), n)| == |EventOrder.Firsts(seen, Arrivals(raws, d), n)|
  {
    hide Drawn, EventOrder.First;
    if n == 0 {
    } else {
      SameCount(seen, raws, p, d, n - 1);
      SameFirsts(seen, raws, p, d, n - 1);
    }
  }

  /** The throwaway router accepts as many events as the shared one then does. */
  lemma ProbeIsExact(seen: set<string>, raws: seq<RawEvent>, p: nat -> Draw, d: nat -> Draw)
    requires Drawn(seen, Arrivals(raws, p)) && Drawn(seen, Arrivals(raws, d)) && "" !in seen
    ensures |Accept(Seedable(seen), Arrivals(raws, p))| == |Accept(seen, Arrivals(raws, d))| <= |raws|
  {
    hide Drawn, EventOrder.Firsts, Accept;
    assert Seedable(seen) == seen;
    SameCount(seen, raws, p, d, |raws|);
    EventOrder.AcceptIsFirsts(seen, Arrivals(raws, p));
    EventOrder.AcceptIsFirsts(seen, Arrivals(raws, d));
    FirstsShort(seen, Arrivals(raws, d), |raws|);
  }

  lemma {:induction false} FirstsShort(seen: set<string>, batch: seq<Arrival>, n: nat)
    requires n <= |batch|
    ensures |EventOrder.Firsts(seen, batch, n)| <= n
  {
    hide EventOrder.First;
    if n == 0 {
    } else {
      FirstsShort(seen, batch, n - 1);
    }
  }

  // ---------- Conservation ----------

  /** In every cycle that is reached, drawn ids are new when they are drawn. */
  predicate AllDrawn(s: Ingress, first: bool, cycles: seq<Collection>, clock: nat -> string)
    decreases |cycles|
  {
    cycles == [] || cycles[0].Failed? || (first && cycles[0].raws == [])
    || (Drawn(s.seen, Arrivals(cycles[0].raws, cycles[0].probeDraw))
        && Drawn(s.seen, Arrivals(cycles[0].raws, cycles[0].draw))
        && AllDrawn(Ingest(s, Arrivals(cycles[0].raws, cycles[0].draw), clock), false, cycles[1..], clock))
  }

  predicate Balanced(t: Totals) {
    t.collected == t.persisted + t.duplicates
  }

  lemma DrawnKeepsNonEmpty(seen: set<string>, batch: seq<Arrival>)
    requires "" !in seen && Drawn(seen, batch)
    ensures "" !in seen + Keys(batch)
  {
    forall i | 0 <= i < |batch|
      ensures Key(batch[i]) != ""
    {
      if !Identified(batch[i].raw) {
        assert DrawnAt(seen, batch, i);
      }
    }
  }

  lemma {:induction false} CyclesBalance(s: Ingress, t: Totals, first: bool, cycles: seq<Collection>,
                                         clock: nat -> string)
    requires Balanced(t) && "" !in s.seen && AllDrawn(s, first, cycles, clock)
    requires first ==> t.persisted == 0
    ensures Balanced(Cycles(s, t, first, cycles, clock).totals)
    decreases |cycles|
  {
    hide Drawn, Accept, Arrivals, CycleTopics, CycleStates, InsertAll, Output, Keys, Seedable;
    if cycles == [] || cycles[0].Failed? {
    } else {
      var c := cycles[0];
      if !(c.raws == [] && first && t.persisted == 0) {
        ProbeIsExact(s.seen, c.raws, c.probeDraw, c.draw);
        DrawnKeepsNonEmpty(s.seen, Arrivals(c.raws, c.draw));
        CyclesBalance(Ingest(s, Arrivals(c.raws, c.draw), clock),
                      Ingested(Probed(t, s.seen, c), s.seen, c, |cycles| == 1), false, cycles[1..], clock);
      }
    }
  }

  /** In every run that returns, each collected event was either persisted or a duplicate. */
  lemma RunBalances(rows: seq<Row>, cycles: seq<Collection>, clock: nat -> string)
    requires AllDrawn(Ingress(Seeds(rows), rows), true, cycles, clock)
    ensures Balanced(Run(rows, cycles, clock).totals)
  {
    hide AllDrawn, Cycles;
    CyclesBalance(Ingress(Seeds(rows), rows), Totals(0, 0, 0, Opening(rows)), true, cycles, clock);
  }

  // ---------- Rows ----------

  /** No event has the id of a row, and no two of them one id. */
  predicate AllNewIds(rows: seq<Row>, es: seq<Event>) {
    EventOrder.DistinctIds(es) && forall i :: 0 <= i < |es| ==> !HasId(rows, es[i].eventId)
  }

  lemma NewIdsStep(rows: seq<Row>, es: seq<Event>, now: string)
    requires es != []
    ensures AllNewIds(rows, es)
       <==> !HasId(rows, es[0].eventId) && AllNewIds(Insert(rows, es[0], now), es[1..])
  {
    var next, rest := Insert(rows, es[0], now), es[1..];
    assert forall i :: 0 <= i < |rest| ==> rest[i] == es[i + 1];
    if !HasId(rows, es[0].eventId) {
      forall id: string
        ensures HasId(next, id) <==> HasId(rows, id) || id == es[0].eventId
      {
        assert next == rows + [Row(es[0], now)] && next[|rows|].event == es[0];
        assert forall i :: 0 <= i < |rows| ==> next[i] == rows[i];
      }
      hide HasId;
      assert AllNewIds(next, rest) ==> forall i, j :: 0 <= i < j < |es| ==> es[i].eventId != es[j].eventId by {
        assert forall i :: 0 < i < |es| ==> es[i] == rest[i - 1];
      }
      assert AllNewIds(next, rest) ==> forall i :: 0 <= i < |es| ==> !HasId(rows, es[i].eventId) by {
        assert forall i :: 0 < i < |es| ==> es[i] == rest[i - 1];
      }
    }
  }

  /** At most one row is added for each event, and one for each exactly when all ids are new. */
  lemma {:induction false} InsertAllCount(rows: seq<Row>, es: seq<Event>, clock: nat -> string)
    ensures |rows| <= |InsertAll(rows, es, clock)| <= |rows| + |es|
    ensures |InsertAll(rows, es, clock)| == |rows| + |es| <==> AllNewIds(rows, es)
    decreases |es|
  {
    assert AllNewIds(rows, []);
    hide HasId, AllNewIds;
    if es == [] {
    } else {
      InsertAllCount(Insert(rows, es[0], clock(|rows|)), es[1..], clock);
      NewIdsStep(rows, es, clock(|rows|));
    }
  }

  lemma {:induction false} InsertAllAppend(rows: seq<Row>, a: seq<Event>, b: seq<Event>, clock: nat -> string)
    ensures InsertAll(rows, a + b, clock) == InsertAll(InsertAll(rows, a, clock), b, clock)
    decreases |a|
  {
    hide Insert;
    if a == [] {
      assert a + b == b;
    } else {
      assert (a + b)[1..] == a[1..] + b;
      InsertAllAppend(Insert(rows, a[0], clock(|rows|)), a[1..], b, clock);
    }
  }

  /** The events a run reports persisted: what its router returns in each cycle that is reached. */
  function Published(seen: set<string>, first: bool, cycles: seq<Collection>): seq<Event>
    decreases |cycles|
  {
    if cycles == [] || cycles[0].Failed? || (first && cycles[0].raws == []) then []
    else
      var batch := Arrivals(cycles[0].raws, cycles[0].draw);
      Output(seen, batch) + Published(seen + Keys(batch), false, cycles[1..])
  }

  lemma {:induction false} CyclesRows(s: Ingress, t: Totals, first: bool, cycles: seq<Collection>, clock: nat -> string)
    requires first ==> t.persisted == 0
    ensures Cycles(s, t, first, cycles, clock).end.rows == InsertAll(s.rows, Published(s.seen, first, cycles), clock)
    ensures Cycles(s, t, first, cycles, clock).totals.persisted == t.persisted + |Published(s.seen, first, cycles)|
    decreases |cycles|
  {
    assert InsertAll(s.rows, [], clock) == s.rows;
    hide Accept, Arrivals, CycleTopics, CycleStates, InsertAll, Output, Keys, Seedable;
    if cycles == [] || cycles[0].Failed? || (first && cycles[0].raws == []) {
    } else {
      var c := cycles[0];
      var batch := Arrivals(c.raws, c.draw);
      OutputKeeps(s.seen, batch);
      InsertAllAppend(s.rows, Output(s.seen, batch), Published(s.seen + Keys(batch), false, cycles[1..]), clock);
      CyclesRows(Ingest(s, batch, clock),
                 Ingested(Probed(t, s.seen, c), s.seen, c, |cycles| == 1), false, cycles[1..], clock);
    }
  }

  /** A run only adds rows, at most one for each event it reports persisted; and one for each exactly
      when the events it accepts have distinct ids that no row had before. */
  lemma RunRows(rows: seq<Row>, cycles: seq<Collection>, clock: nat -> string)
    ensures rows <= Run(rows, cycles, clock).end.rows
    ensures |Run(rows, cycles, clock).end.rows| <= |rows| + Run(rows, cycles, clock).totals.persisted
    ensures |Run(rows, cycles, clock).end.rows| == |rows| + Run(rows, cycles, clock).totals.persisted
       <==> AllNewIds(rows, Published(Seeds(rows), true, cycles))
  {
    hide Cycles, InsertAll, AllNewIds, Published;
    var es := Published(Seeds(rows), true, cycles);
    CyclesRows(Ingress(Seeds(rows), rows), Totals(0, 0, 0, Opening(rows)), true, cycles, clock);
    InsertAllCount(rows, es, clock);
    InsertAllMembers(rows, es, clock);
  }

  // ---------- Runs that show the exceptions ----------

  const ONE: RawEvent := RawEvent("evt-1", "j", Some(50), "t", Some("x"), Some("x"), "")
  const SAME_ID: RawEvent := ONE.(dedupeKey := "k")

  /** Two events under one id: a run reports both persisted and adds one row. */
  lemma SharedIdOverCounts(p: nat -> Draw, d: nat -> Draw, clock: nat -> string)
    ensures Run([], [Collected([ONE, SAME_ID], p, d)], clock).totals.persisted == 2
    ensures |Run([], [Collected([ONE, SAME_ID], p, d)], clock).end.rows| == 1
  {
    var cycles := [Collected([ONE, SAME_ID], p, d)];
    var a, b := Arrival(ONE, d(0)), Arrival(SAME_ID, d(1));
    var es := [Normal(a), Normal(b)];
    SeedsFromRows([]);
    assert Seeds([]) == {};
    assert Arrivals([ONE, SAME_ID], d) == [a, b];
    PairOutput(a, b);
    assert cycles[1..] == [];
    assert Published({}, true, cycles) == es + [] == es;
    hide Cycles, InsertAll, Published;
    CyclesRows(Ingress({}, []), Totals(0, 0, 0, Opening([])), true, cycles, clock);
    PairRows(es, clock);
  }

  lemma PairOutput(a: Arrival, b: Arrival)
    requires a.raw == ONE && b.raw == SAME_ID
    ensures Output({}, [a, b]) == [Normal(a), Normal(b)]
  {
    assert Key(a) == "j" && Key(b) == "k";
    assert !Before(Normal(b), Normal(a)) by {
      EventOrder.BeforeIsOrder();
      assert Normal(b).timestamp == Normal(a).timestamp && Normal(b).eventId == Normal(a).eventId;
    }
    hide Key, Normal, Before;
    assert [a, b][1..] == [b] && [b][1..] == [];
    AcceptSnoc({}, [a], b);
    AcceptSnoc({}, [], a);
    KeysSnoc([], a);
    assert [] + [a] == [a] && [a] + [b] == [a, b];
    var es := [Normal(a), Normal(b)];
    assert Normals([a, b]) == es;
    assert es[1..] == [Normal(b)] && [Normal(b)][1..] == [];
    assert Sort([Normal(b)], Before) == [Normal(b)];
  }

  lemma PairRows(es: seq<Event>, clock: nat -> string)
    requires |es| == 2 && es[0].eventId == es[1].eventId
    ensures |InsertAll([], es, clock)| == 1
  {
    var one := Insert([], es[0], clock(0));
    assert one[0].event == es[0] && HasId(one, es[1].eventId);
    assert es[1..][1..] == [] && es[1..][0] == es[1];
    assert InsertAll(one, es[1..], clock) == InsertAll(one, [], clock) == one;
  }

  /** A collection that fails with the message of a state is logged under that state. */
  lemma MessagePassesForState(clock: nat -> string)
    ensures Run([], [Failed("clean_shutdown")], clock).totals.lifecycle == ["start", "clean_shutdown", "clean_shutdown"]
    ensures Run([], [Failed("restart")], clock).totals.lifecycle == ["start", "restart", "clean_shutdown"]
  {
    assert RecentKeys([], SEED_LIMIT) == [];
  }

  // ---------- Lifecycle ----------

  function Count(states: seq<string>, state: string): nat {
    if states == [] then 0 else (if states[0] == state then 1 else 0) + Count(states[1..], state)
  }

  lemma {:induction false} CountAppend(a: seq<string>, b: seq<string>, state: string)
    ensures Count(a + b, state) == Count(a, state) + Count(b, state)
    decreases |a|
  {
    if a == [] {
      assert a + b == b;
    } else {
      assert (a + b)[1..] == a[1..] + b;
      CountAppend(a[1..], b, state);
    }
  }

  /** Some cycle is reached whose failure is logged under the given state. */
  predicate FailsAs(first: bool, cycles: seq<Collection>, state: string)
    decreases |cycles|
  {
    cycles != []
    && match cycles[0]
       case Failed(message) => Status(message) == state
       case Collected(raws, _, _) => !(raws == [] && first) && FailsAs(false, cycles[1..], state)
  }

  lemma CycleStatesCount(last: bool, persisted: nat, topics: set<string>)
    ensures Count(CycleStates(last, persisted, topics), "clean_shutdown") == 0
  {
    var a := if "unit.network.endpoint_drift" in topics then ["stale_endpoint"] else [];
    var b := if persisted > 0 then ["events_persisted"] else [];
    var c := if !last || persisted == 0 then ["heartbeat"] else [];
    CountAppend(a + b, c, "clean_shutdown");
    CountAppend(a, b, "clean_shutdown");
  }

  lemma CountFew(a: string, b: string, state: string)
    ensures Count([a], state) == if a == state then 1 else 0
    ensures Count([a, b], state) == (if a == state then 1 else 0) + if b == state then 1 else 0
  {
    assert [a][1..] == [] && [a, b][1..] == [b] && [b][1..] == [];
  }

  lemma {:induction false} CyclesShutdown(s: Ingress, t: Totals, first: bool, cycles: seq<Collection>,
                                          clock: nat -> string)
    requires first ==> t.persisted == 0
    ensures t.lifecycle < Cycles(s, t, first, cycles, clock).totals.lifecycle
    ensures Last(Cycles(s, t, first, cycles, clock).totals.lifecycle) == "clean_shutdown"
    ensures Count(Cycles(s, t, first, cycles, clock).totals.lifecycle, "clean_shutdown")
         == Count(t.lifecycle, "clean_shutdown") + 1 + if FailsAs(first, cycles, "clean_shutdown") then 1 else 0
    decreases |cycles|
  {
    hide Accept, Arrivals, CycleTopics, CycleStates, InsertAll, Output, Keys, Seedable, Count, Ingest;
    var shutdown := "clean_shutdown";
    if cycles == [] {
      CountAppend(t.lifecycle, [shutdown], shutdown);
      CountFew(shutdown, "", shutdown);
    } else if cycles[0].Failed? {
      var states := [Status(cycles[0].message), shutdown];
      CountAppend(t.lifecycle, states, shutdown);
      CountFew(states[0], shutdown, shutdown);
    } else {
      var c := cycles[0];
      var probed := Probed(t, s.seen, c);
      CountAppend(t.lifecycle, ["ready"], shutdown);
      CountFew("ready", "", shutdown);
      if c.raws == [] && first && t.persisted == 0 {
        CountAppend(probed.lifecycle, ["no_events", shutdown], shutdown);
        CountFew("no_events", shutdown, shutdown);
      } else {
        var next := Ingested(probed, s.seen, c, |cycles| == 1);
        var states := next.lifecycle[|probed.lifecycle|..];
        assert next.lifecycle == probed.lifecycle + states;
        CountAppend(probed.lifecycle, states, shutdown);
        IngestedStates(probed, s.seen, c, |cycles| == 1);
        CyclesShutdown(Ingest(s, Arrivals(c.raws, c.draw), clock), next, false, cycles[1..], clock);
      }
    }
  }

  lemma IngestedStates(t: Totals, seen: set<string>, c: Collection, last: bool)
    requires c.Collected?
    ensures t.lifecycle <= Ingested(t, seen, c, last).lifecycle
    ensures Count(Ingested(t, seen, c, last).lifecycle[|t.lifecycle|..], "clean_shutdown") == 0
  {
    hide Accept, Arrivals, CycleTopics, CycleStates, Output, Count;
    var accepted := |Accept(seen, Arrivals(c.raws, c.draw))|;
    var topics := CycleTopics(c.raws, Output(Seedable(seen), Arrivals(c.raws, c.probeDraw)));
    CycleStatesCount(last, accepted, topics);
    assert (t.lifecycle + CycleStates(last, accepted, topics))[|t.lifecycle|..] == CycleStates(last, accepted, topics);
  }

  function Last(states: seq<string>): string {
    if states == [] then "" else states[|states| - 1]
  }

  /** The log opens with start, goes on with restart exactly when keys were seeded, unless the first
      collection fails with that very message; it ends with clean_shutdown, which it holds once,
      unless a collection fails with that very message. */
  lemma RunLifecycle(rows: seq<Row>, cycles: seq<Collection>, clock: nat -> string)
    ensures |Run(rows, cycles, clock).totals.lifecycle| >= 2
    ensures Run(rows, cycles, clock).totals.lifecycle[0] == "start"
    ensures Run(rows, cycles, clock).totals.lifecycle[1] == "restart"
       <==> RecentKeys(rows, SEED_LIMIT) != []
            || (cycles != [] && cycles[0].Failed? && Status(cycles[0].message) == "restart")
    ensures Last(Run(rows, cycles, clock).totals.lifecycle) == "clean_shutdown"
    ensures Count(Run(rows, cycles, clock).totals.lifecycle, "clean_shutdown")
         == 1 + if FailsAs(true, cycles, "clean_shutdown") then 1 else 0
  {
    hide Ingest, Seeds, RecentKeys, FailsAs, Cycles;
    CountFew("start", "restart", "clean_shutdown");
    CountFew("start", "", "clean_shutdown");
    var s, t := Ingress(Seeds(rows), rows), Totals(0, 0, 0, Opening(rows));
    CyclesShutdown(s, t, true, cycles, clock);
    var all := Run(rows, cycles, clock).totals.lifecycle;
    assert all[0] == t.lifecycle[0];
    if RecentKeys(rows, SEED_LIMIT) != [] {
      assert all[1] == t.lifecycle[1];
    } else {
      SecondState(s, t, cycles, clock);
    }
  }

  lemma SecondState(s: Ingress, t: Totals, cycles: seq<Collection>, clock: nat -> string)
    requires |t.lifecycle| == 1
    ensures |Cycles(s, t, true, cycles, clock).totals.lifecycle| >= 2
    ensures Cycles(s, t, true, cycles, clock).totals.lifecycle[1]
         == if cycles == [] then "clean_shutdown"
            else if cycles[0].Failed? then Status(cycles[0].message) else "ready"
  {
    hide Accept, Arrivals, CycleTopics, CycleStates, InsertAll, Output, Keys, Seedable, Ingest;
    if cycles != [] && cycles[0].Collected? && !(cycles[0].raws == [] && t.persisted == 0) {
      var c := cycles[0];
      var probed := Probed(t, s.seen, c);
      var next := Ingested(probed, s.seen, c, |cycles| == 1);
      CyclesShutdown(Ingest(s, Arrivals(c.raws, c.draw), clock), next, false, cycles[1..], clock);
      assert probed.lifecycle <= next.lifecycle;
    }
  }
}
