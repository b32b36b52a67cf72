/** Restarting from the event table: what a seeded router remembers, when it agrees with the
    router that was never stopped, and when it does not. */
module Restart {
  import opened Orders
  import opened Sorting
  import opened Wrappers
  import opened Basics
  import opened Events
  import opened EventStore
  import EventOrder

  // ---------- The order of the seeding query ----------

  lemma NewerIsOrder()
    ensures WeakOrder(Newer)
  {
    hide PairLess;
    forall a, b | Newer(a, b)
      ensures !Newer(b, a)
    {
      PairOrder(Stamps(b), Stamps(a), Stamps(a));
    }
    forall a, b, c | !Newer(b, a) && !Newer(c, b)
      ensures !Newer(c, a)
    {
      PairOrder(Stamps(c), Stamps(b), Stamps(a));
    }
  }

  /** The query returns every keyed row, or the given number of them and none that is older than
      one it leaves out. */
  lemma RecentRowsAreNewest(rows: seq<Row>, limit: nat, left: Row, taken: Row)
    requires left in rows && HasKey(left) && left !in RecentRows(rows, limit)
    requires taken in RecentRows(rows, limit)
    ensures |RecentRows(rows, limit)| == limit && !Newer(left, taken)
    ensures !TextLess(taken.event.timestamp, left.event.timestamp)
    ensures taken.event.timestamp == left.event.timestamp ==> !TextLess(taken.createdAt, left.createdAt)
  {
    hide HasKey, Sort, Take, TextLess;
    FilterMembers(rows, HasKey);
    NewerIsOrder();
    TakenFirst(Keyed(rows), Newer, limit, left, taken);
  }

  // ---------- What the seeds are ----------

  lemma SeedsFromRows(rows: seq<Row>)
    ensures Seeds(rows) <= KeyedKeys(rows)
  {
    hide HasKey;
    FilterMembers(rows, HasKey);
    SortKeeps(Keyed(rows), Newer);
    var recent := RecentRows(rows, SEED_LIMIT);
    forall k | k in Seeds(rows)
      ensures k in KeyedKeys(rows)
    {
      var i :| 0 <= i < |recent| && RecentKeys(rows, SEED_LIMIT)[i] == k;
      assert recent[i] in Sort(Keyed(rows), Newer);
      var j :| 0 <= j < |rows| && rows[j] == recent[i];
    }
  }

  lemma StoredKeyIsSeed(rows: seq<Row>, r: Row)
    requires |Keyed(rows)| <= SEED_LIMIT && r in rows && HasKey(r)
    ensures r.event.key.value in Seeds(rows)
  {
    var recent := RecentRows(rows, SEED_LIMIT);
    FilterMembers(rows, HasKey);
    SortKeeps(Keyed(rows), Newer);
    assert r in recent;
    hide RecentRows;
    var j :| 0 <= j < |recent| && recent[j] == r;
    assert RecentKeys(rows, SEED_LIMIT)[j] == r.event.key.value;
  }

  /** While the keyed rows fit in one query, the seeds are all stored keys. */
  lemma SeedsAreAll(rows: seq<Row>)
    requires |Keyed(rows)| <= 1000
    ensures Seeds(rows) == KeyedKeys(rows)
  {
    hide Seeds, RecentRows, Keyed;
    SeedsFromRows(rows);
    forall k | k in KeyedKeys(rows)
      ensures k in Seeds(rows)
    {
      var i :| 0 <= i < |rows| && HasKey(rows[i]) && rows[i].event.key.value == k;
      StoredKeyIsSeed(rows, rows[i]);
    }
  }

  // ---------- When two routers agree ----------

  /** A router that has forgotten some keys accepts the same of a batch exactly when the batch
      carries none of the forgotten keys. */
  lemma {:induction false} AgreesIff(seeds: set<string>, seen: set<string>, batch: seq<Arrival>)
    requires seeds <= seen
    ensures Accept(seeds, batch) == Accept(seen, batch) <==> Keys(batch) !! (seen - seeds)
    ensures |Accept(seeds, batch)| >= |Accept(seen, batch)|
    decreases |batch|
  {
    hide Key, Keys;
    if batch == [] {
      KeysNone();
    } else {
      KeysCons(batch);
      var k := Key(batch[0]);
      if k in seeds {
        AgreesIff(seeds, seen, batch[1..]);
      } else if k in seen {
        AgreesIff(seeds + {k}, seen, batch[1..]);
      } else {
        AgreesIff(seeds + {k}, seen + {k}, batch[1..]);
        assert (seen + {k}) - (seeds + {k}) == seen - seeds;
        var x, y := Accept(seeds + {k}, batch[1..]), Accept(seen + {k}, batch[1..]);
        assert ([batch[0]] + x)[1..] == x && ([batch[0]] + y)[1..] == y;
      }
    }
  }

  // ---------- The store behind a router ----------

  /** A router and its table. */
  datatype Ingress = Ingress(seen: set<string>, rows: seq<Row>)

  function Ingest(s: Ingress, batch: seq<Arrival>, clock: nat -> string): Ingress {
    Ingress(s.seen + Keys(batch), InsertAll(s.rows, Output(s.seen, batch), clock))
  }

  lemma {:induction false} InsertAllMembers(rows: seq<Row>, es: seq<Event>, clock: nat -> string)
    ensures rows <= InsertAll(rows, es, clock)
    ensures forall r :: r in InsertAll(rows, es, clock) ==> r in rows || r.event in es
    ensures forall e :: e in es ==> HasId(InsertAll(rows, es, clock), e.eventId)
    decreases |es|
  {
    hide HasId;
    if es == [] {
    } else {
      var next := Insert(rows, es[0], clock(|rows|));
      var all := InsertAll(rows, es, clock);
      InsertAllMembers(next, es[1..], clock);
      assert es == [es[0]] + es[1..];
      assert rows <= next;
      InsertedKept(rows, es[0], clock(|rows|), all);
    }
  }

  lemma InsertedKept(rows: seq<Row>, e: Event, now: string, more: seq<Row>)
    requires Insert(rows, e, now) <= more
    ensures HasId(more, e.eventId)
  {
    var next := Insert(rows, e, now);
    assert next[|rows|..] != [] ==> next[|rows|].event == e;
    assert HasId(next, e.eventId);
    var i :| 0 <= i < |next| && next[i].event.eventId == e.eventId;
    assert more[i] == next[i];
  }

  lemma OutputKeeps(seen: set<string>, batch: seq<Arrival>)
    ensures forall e :: e in Output(seen, batch) <==> e in Normals(Accept(seen, batch))
    ensures |Output(seen, batch)| == |Accept(seen, batch)|
  {
    SortKeeps(Normals(Accept(seen, batch)), Before);
  }

  lemma AcceptMembers(seen: set<string>, batch: seq<Arrival>)
    ensures forall x :: x in Accept(seen, batch) ==> x in batch
    ensures seen + Keys(Accept(seen, batch)) == seen + Keys(batch)
    decreases |batch|
  {
    hide Key, Keys;
    if batch == [] {
    } else {
      assert batch == [batch[0]] + batch[1..];
      var rest := if Key(batch[0]) in seen then seen else seen + {Key(batch[0])};
      AcceptMembers(rest, batch[1..]);
      KeysCons(batch);
      if Key(batch[0]) !in seen {
        var all := [batch[0]] + Accept(rest, batch[1..]);
        KeysCons(all);
        assert all[1..] == Accept(rest, batch[1..]);
      }
    }
  }

  /** A stored key has been seen: seeding never makes a router reject what it would have accepted. */
  lemma IngestKeepsSeedsSeen(s: Ingress, batch: seq<Arrival>, clock: nat -> string)
    requires KeyedKeys(s.rows) <= s.seen
    ensures KeyedKeys(Ingest(s, batch, clock).rows) <= Ingest(s, batch, clock).seen
  {
    hide Keys, Output, Accept, Normals;
    var es := Output(s.seen, batch);
    var rows := InsertAll(s.rows, es, clock);
    InsertAllMembers(s.rows, es, clock);
    OutputKeeps(s.seen, batch);
    AcceptMembers(s.seen, batch);
    forall k | k in KeyedKeys(rows)
      ensures k in s.seen + Keys(batch)
    {
      var i :| 0 <= i < |rows| && HasKey(rows[i]) && rows[i].event.key.value == k;
      assert rows[i] in rows;
      if rows[i] in s.rows {
        var j :| 0 <= j < |s.rows| && s.rows[j] == rows[i];
      } else {
        NormalFrom(Accept(s.seen, batch), rows[i].event);
      }
    }
  }

  lemma NormalFrom(batch: seq<Arrival>, e: Event)
    requires e in Normals(batch)
    ensures exists x :: x in batch && Normal(x) == e
    ensures HasKeyOf(e) ==> e.key.value in Keys(batch)
  {
    var i :| 0 <= i < |Normals(batch)| && Normals(batch)[i] == e;
    assert batch[i] in batch && Normal(batch[i]) == e;
    if HasKeyOf(e) {
      assert Key(batch[i]) == e.key.value;
    }
  }

  predicate HasKeyOf(e: Event) {
    e.key.Some? && e.key.value != ""
  }

  // ---------- Runs with restarts ----------

  /** The keys that reach the table: those of arrivals with a key or an id of their own. */
  function Named(batch: seq<Arrival>): set<string> {
    set i | 0 <= i < |batch| && Identified(batch[i].raw) :: Key(batch[i])
  }

  predicate SameId(x: Arrival, y: Arrival) {
    Normal(x).eventId == Normal(y).eventId
  }

  /** Arrivals under one id carry one key: distinct keys have distinct ids. */
  predicate OneKeyPerId(all: seq<Arrival>) {
    forall x, y :: x in all && y in all && SameId(x, y) ==> Normal(x).key == Normal(y).key
  }

  /** No arrival of b carries an id drawn for an arrival of a that had none. */
  predicate NotDrawn(a: seq<Arrival>, b: seq<Arrival>) {
    forall x, y :: x in a && y in b && !Identified(x.raw) ==> Key(y) != Key(x)
  }

  /** Ids are drawn fresh: none is the key of another arrival, before or after. */
  predicate FreshIds(all: seq<Arrival>) {
    forall i, j :: 0 <= i < |all| && 0 <= j < |all| && i != j && !Identified(all[i].raw) ==> Key(all[j]) != Key(all[i])
  }

  /** What is left of a run: the table and the arrivals accepted. */
  datatype Outcome = Outcome(rows: seq<Row>, accepted: seq<Arrival>)

  /** One process: batches in order, from a router and a table. */
  function Session(s: Ingress, batches: seq<seq<Arrival>>, clock: nat -> string): Outcome
    decreases |batches|
  {
    if batches == [] then Outcome(s.rows, [])
    else
      var rest := Session(Ingest(s, batches[0], clock), batches[1..], clock);
      Outcome(rest.rows, Accept(s.seen, batches[0]) + rest.accepted)
  }

  /** Processes in order, each seeded from the table the one before it left. */
  function Sessions(rows: seq<Row>, sessions: seq<seq<seq<Arrival>>>, clock: nat -> string): Outcome
    decreases |sessions|
  {
    if sessions == [] then Outcome(rows, [])
    else
      var first := Session(Ingress(Seeds(rows), rows), sessions[0], clock);
      var rest := Sessions(first.rows, sessions[1..], clock);
      Outcome(rest.rows, first.accepted + rest.accepted)
  }

  function FlatAll(sessions: seq<seq<seq<Arrival>>>): seq<Arrival> {
    if sessions == [] then [] else EventOrder.Flat(sessions[0]) + FlatAll(sessions[1..])
  }

  /** The table holds what a history of arrivals puts there. */
  predicate Holds(rows: seq<Row>, past: seq<Arrival>) {
    KeyedKeys(rows) == Named(past)
    && forall r :: r in rows ==> exists x :: x in past && Normal(x) == r.event
  }

  lemma NormalKey(x: Arrival)
    ensures Identified(x.raw) ==> Normal(x).key == Some(Key(x)) && Key(x) != ""
    ensures !Identified(x.raw) ==> Normal(x).key == None
  {
  }

  lemma NamedAppend(a: seq<Arrival>, b: seq<Arrival>)
    ensures Named(a + b) == Named(a) + Named(b)
  {
    hide Key, Identified;
    var all := a + b;
    forall k | k in Named(a) + Named(b)
      ensures k in Named(all)
    {
      if k in Named(a) {
        var i :| 0 <= i < |a| && Identified(a[i].raw) && Key(a[i]) == k;
        assert all[i] == a[i];
      } else {
        var i :| 0 <= i < |b| && Identified(b[i].raw) && Key(b[i]) == k;
        assert all[|a| + i] == b[i];
      }
    }
  }

  lemma FreshApart(a: seq<Arrival>, b: seq<Arrival>)
    requires FreshIds(a + b)
    ensures NotDrawn(a, b) && FreshIds(a)
    ensures forall x, y :: x in b && y in b && !Identified(x.raw) && Identified(y.raw) ==> Key(y) != Key(x)
  {
    hide Key, Identified;
    var all := a + b;
    forall x, y | x in a && y in b && !Identified(x.raw)
      ensures Key(y) != Key(x)
    {
      var i :| 0 <= i < |a| && a[i] == x;
      var j :| 0 <= j < |b| && b[j] == y;
      assert all[i] == x && all[|a| + j] == y;
    }
    forall i, j | 0 <= i < |a| && 0 <= j < |a| && i != j && !Identified(a[i].raw)
      ensures Key(a[j]) != Key(a[i])
    {
      assert all[i] == a[i] && all[j] == a[j];
    }
    forall x, y | x in b && y in b && !Identified(x.raw) && Identified(y.raw)
      ensures Key(y) != Key(x)
    {
      var i :| 0 <= i < |b| && b[i] == x;
      var j :| 0 <= j < |b| && b[j] == y;
      assert all[|a| + i] == x && all[|a| + j] == y;
    }
  }

  /** A key of the past that did not reach the table is a drawn id, and never comes again. */
  lemma ForgottenNotAgain(past: seq<Arrival>, batch: seq<Arrival>)
    requires NotDrawn(past, batch)
    ensures Keys(batch) !! (Keys(past) - Named(past))
  {
    hide Key, Identified;
    forall k | k in Keys(past) && k !in Named(past)
      ensures k !in Keys(batch)
    {
      var i :| 0 <= i < |past| && Key(past[i]) == k;
      forall j | 0 <= j < |batch|
        ensures Key(batch[j]) != k
      {
        assert past[i] in past && batch[j] in batch;
      }
    }
  }

  /** Every row comes from an arrival of the past or of the batch. */
  lemma RowsFromArrivals(s: Ingress, past: seq<Arrival>, batch: seq<Arrival>, clock: nat -> string)
    requires Holds(s.rows, past)
    ensures forall r :: r in Ingest(s, batch, clock).rows ==>
              r in s.rows || exists x :: x in batch && Normal(x) == r.event
    ensures forall r :: r in Ingest(s, batch, clock).rows ==> exists x :: x in past + batch && Normal(x) == r.event
  {
    hide Normal, Keys, Output, Normals, Accept;
    InsertAllMembers(s.rows, Output(s.seen, batch), clock);
    OutputKeeps(s.seen, batch);
    AcceptMembers(s.seen, batch);
    forall r | r in Ingest(s, batch, clock).rows
      ensures r in s.rows || exists x :: x in batch && Normal(x) == r.event
      ensures exists x :: x in past + batch && Normal(x) == r.event
    {
      if r in s.rows {
        var x :| x in past && Normal(x) == r.event;
        assert x in past + batch;
      } else {
        NormalFrom(Accept(s.seen, batch), r.event);
        var x :| x in Accept(s.seen, batch) && Normal(x) == r.event;
        assert x in past + batch;
      }
    }
  }

  lemma StoredAreNamed(s: Ingress, past: seq<Arrival>, batch: seq<Arrival>, clock: nat -> string)
    requires Holds(s.rows, past)
    ensures KeyedKeys(Ingest(s, batch, clock).rows) <= Named(past) + Named(batch)
  {
    hide Normal, Key, Keys, Output, Normals, Accept, Identified, InsertAll;
    var rows := Ingest(s, batch, clock).rows;
    RowsFromArrivals(s, past, batch, clock);
    forall k | k in KeyedKeys(rows)
      ensures k in Named(past) + Named(batch)
    {
      var i :| 0 <= i < |rows| && HasKey(rows[i]) && rows[i].event.key.value == k;
      assert rows[i] in rows;
      if rows[i] in s.rows {
        var j :| 0 <= j < |s.rows| && s.rows[j] == rows[i];
      } else {
        var x :| x in batch && Normal(x) == rows[i].event;
        NormalKey(x);
        assert Key(x) in Named(batch);
      }
    }
  }

  lemma KeyedKeysKept(rows: seq<Row>, more: seq<Row>)
    requires rows <= more
    ensures KeyedKeys(rows) <= KeyedKeys(more)
  {
    forall k | k in KeyedKeys(rows)
      ensures k in KeyedKeys(more)
    {
      var i :| 0 <= i < |rows| && HasKey(rows[i]) && rows[i].event.key.value == k;
      assert more[i] == rows[i];
    }
  }

  /** An accepted arrival with a key leaves the key in the table, under its own row or another's. */
  lemma AcceptedIsStored(s: Ingress, past: seq<Arrival>, batch: seq<Arrival>, y: Arrival, clock: nat -> string)
    requires Holds(s.rows, past) && OneKeyPerId(past + batch)
    requires y in Accept(s.seen, batch) && Identified(y.raw)
    ensures Key(y) in KeyedKeys(Ingest(s, batch, clock).rows)
  {
    hide Normal, Key, Keys, Output, Normals, Accept, Identified, InsertAll, Named;
    var rows := Ingest(s, batch, clock).rows;
    RowsFromArrivals(s, past, batch, clock);
    InsertAllMembers(s.rows, Output(s.seen, batch), clock);
    OutputKeeps(s.seen, batch);
    var at :| 0 <= at < |Accept(s.seen, batch)| && Accept(s.seen, batch)[at] == y;
    assert Normals(Accept(s.seen, batch))[at] == Normal(y);
    AcceptMembers(s.seen, batch);
    assert HasId(rows, Normal(y).eventId);
    var i :| 0 <= i < |rows| && rows[i].event.eventId == Normal(y).eventId;
    assert rows[i] in rows;
    var z :| z in past + batch && Normal(z) == rows[i].event;
    assert y in past + batch && SameId(z, y);
    NormalKey(y);
  }

  lemma NamedAreStored(s: Ingress, past: seq<Arrival>, batch: seq<Arrival>, clock: nat -> string)
    requires Holds(s.rows, past) && s.seen <= Keys(past)
    requires OneKeyPerId(past + batch) && FreshIds(past + batch)
    ensures Named(past) + Named(batch) <= KeyedKeys(Ingest(s, batch, clock).rows)
  {
    hide Normal, Key, Output, Normals, Accept, Identified, InsertAll, OneKeyPerId, FreshIds;
    var rows := Ingest(s, batch, clock).rows;
    InsertAllMembers(s.rows, Output(s.seen, batch), clock);
    KeyedKeysKept(s.rows, rows);
    FreshApart(past, batch);
    ForgottenNotAgain(past, batch);
    AcceptMembers(s.seen, batch);
    forall k | k in Named(batch)
      ensures k in KeyedKeys(rows)
    {
      var i :| 0 <= i < |batch| && Identified(batch[i].raw) && Key(batch[i]) == k;
      assert batch[i] in batch && k in Keys(batch);
      if k in Keys(Accept(s.seen, batch)) {
        var j :| 0 <= j < |Accept(s.seen, batch)| && Key(Accept(s.seen, batch)[j]) == k;
        var y := Accept(s.seen, batch)[j];
        assert y in Accept(s.seen, batch) && y in batch;
        AcceptedIsStored(s, past, batch, y, clock);
      }
    }
  }

  /** One batch on a table that holds the past, from a router that remembers at least the stored
      keys and at most the keys that came: it accepts what the router that forgot nothing would. */
  lemma IngestHolds(s: Ingress, past: seq<Arrival>, batch: seq<Arrival>, clock: nat -> string)
    requires Holds(s.rows, past) && Named(past) <= s.seen <= Keys(past)
    requires OneKeyPerId(past + batch) && FreshIds(past + batch)
    ensures Accept(s.seen, batch) == Accept(Keys(past), batch)
    ensures Holds(Ingest(s, batch, clock).rows, past + batch)
    ensures Named(past + batch) <= Ingest(s, batch, clock).seen <= Keys(past + batch)
  {
    hide Normal, Key, Output, Normals, Accept, Identified, InsertAll, OneKeyPerId, FreshIds, Named, Keys;
    FreshApart(past, batch);
    ForgottenNotAgain(past, batch);
    AgreesIff(s.seen, Keys(past), batch);
    StoredAreNamed(s, past, batch, clock);
    NamedAreStored(s, past, batch, clock);
    RowsFromArrivals(s, past, batch, clock);
    NamedAppend(past, batch);
    KeysAppend(past, batch);
    NamedInKeys(batch);
  }

  lemma NamedInKeys(batch: seq<Arrival>)
    ensures Named(batch) <= Keys(batch)
  {
  }

  lemma PrefixFresh(a: seq<Arrival>, b: seq<Arrival>)
    requires OneKeyPerId(a + b) && FreshIds(a + b)
    ensures OneKeyPerId(a) && FreshIds(a)
  {
    hide SameId, Normal;
    FreshApart(a, b);
    forall x, y | x in a && y in a && SameId(x, y)
      ensures Normal(x).key == Normal(y).key
    {
      assert x in a + b && y in a + b;
    }
  }

  /** A process started on a table that holds the past accepts what the router that was never
      stopped accepts, and leaves a table that holds past and present. */
  lemma {:induction false} SessionAgrees(s: Ingress, past: seq<Arrival>, batches: seq<seq<Arrival>>,
                                         clock: nat -> string)
    requires Holds(s.rows, past) && Named(past) <= s.seen <= Keys(past)
    requires OneKeyPerId(past + EventOrder.Flat(batches)) && FreshIds(past + EventOrder.Flat(batches))
    ensures Session(s, batches, clock).accepted == Accept(Keys(past), EventOrder.Flat(batches))
    ensures Holds(Session(s, batches, clock).rows, past + EventOrder.Flat(batches))
    decreases |batches|
  {
    hide Accept, InsertAll, OneKeyPerId, FreshIds, Named, Keys, Holds, Ingest;
    if batches == [] {
      assert past + [] == past;
      EventOrder.AcceptNothing(Keys(past));
    } else {
      var rest := EventOrder.Flat(batches[1..]);
      assert past + EventOrder.Flat(batches) == (past + batches[0]) + rest;
      PrefixFresh(past + batches[0], rest);
      IngestHolds(s, past, batches[0], clock);
      SessionAgrees(Ingest(s, batches[0], clock), past + batches[0], batches[1..], clock);
      AcceptAppend(Keys(past), batches[0], rest);
      KeysAppend(past, batches[0]);
    }
  }

  lemma {:induction false} SessionRowsGrow(s: Ingress, batches: seq<seq<Arrival>>, clock: nat -> string)
    ensures s.rows <= Session(s, batches, clock).rows
    decreases |batches|
  {
    hide InsertAll, Output, Accept, Keys;
    if batches == [] {
    } else {
      InsertAllMembers(s.rows, Output(s.seen, batches[0]), clock);
      SessionRowsGrow(Ingest(s, batches[0], clock), batches[1..], clock);
    }
  }

  lemma {:induction false} SessionsRowsGrow(rows: seq<Row>, sessions: seq<seq<seq<Arrival>>>, clock: nat -> string)
    ensures rows <= Sessions(rows, sessions, clock).rows
    decreases |sessions|
  {
    hide Session, Seeds;
    if sessions == [] {
    } else {
      SessionRowsGrow(Ingress(Seeds(rows), rows), sessions[0], clock);
      SessionsRowsGrow(Session(Ingress(Seeds(rows), rows), sessions[0], clock).rows, sessions[1..], clock);
    }
  }

  lemma {:induction false} KeyedGrow(rows: seq<Row>, more: seq<Row>)
    requires rows <= more
    ensures |Keyed(rows)| <= |Keyed(more)|
    decreases |rows|
  {
    hide HasKey;
    if rows == [] {
    } else {
      KeyedGrow(rows[1..], more[1..]);
    }
  }

  lemma {:induction false} SessionsAgree(rows: seq<Row>, past: seq<Arrival>, sessions: seq<seq<seq<Arrival>>>,
                                         clock: nat -> string)
    requires Holds(rows, past)
    requires OneKeyPerId(past + FlatAll(sessions)) && FreshIds(past + FlatAll(sessions))
    requires |Keyed(Sessions(rows, sessions, clock).rows)| <= SEED_LIMIT
    ensures Sessions(rows, sessions, clock).accepted == Accept(Keys(past), FlatAll(sessions))
    decreases |sessions|
  {
    hide Accept, OneKeyPerId, FreshIds, Named, Keys, Session, Keyed, Seeds, KeyedKeys;
    if sessions == [] {
      EventOrder.AcceptNothing(Keys(past));
    } else {
      var now, rest := EventOrder.Flat(sessions[0]), FlatAll(sessions[1..]);
      var first := Session(Ingress(Seeds(rows), rows), sessions[0], clock);
      assert past + FlatAll(sessions) == (past + now) + rest;
      PrefixFresh(past + now, rest);
      SessionsRowsGrow(rows, sessions, clock);
      KeyedGrow(rows, Sessions(rows, sessions, clock).rows);
      SeedsAreAll(rows);
      NamedInKeys(past);
      SessionAgrees(Ingress(Seeds(rows), rows), past, sessions[0], clock);
      SessionsAgree(first.rows, past + now, sessions[1..], clock);
      AcceptAppend(Keys(past), now, rest);
      KeysAppend(past, now);
    }
  }

  /** Restarts do not show: from an empty table, with one key to an id, fresh drawn ids and no more
      keyed rows than the seeding query returns, any number of processes one after the other
      accept together exactly the first occurrence of each key of everything that arrived. */
  lemma RestartsDoNotShow(sessions: seq<seq<seq<Arrival>>>, clock: nat -> string)
    requires OneKeyPerId(FlatAll(sessions)) && FreshIds(FlatAll(sessions))
    requires |Keyed(Sessions([], sessions, clock).rows)| <= 1000
    ensures Sessions([], sessions, clock).accepted
         == EventOrder.Firsts({}, FlatAll(sessions), |FlatAll(sessions)|)
  {
    hide OneKeyPerId, FreshIds, Sessions, Keyed, EventOrder.Firsts;
    assert [] + FlatAll(sessions) == FlatAll(sessions);
    KeysNone();
    assert Holds([], []) by {
      assert KeyedKeys([]) == Named([]);
    }
    SessionsAgree([], [], sessions, clock);
    EventOrder.AcceptIsFirsts({}, FlatAll(sessions));
  }

  /** Two keys under one id: the second is seen but never stored, so a restart forgets it and its
      arrival is accepted again. */
  lemma SharedIdIsForgotten(a: Arrival, b: Arrival, clock: nat -> string)
    requires Identified(a.raw) && Identified(b.raw) && Key(a) != Key(b) && SameId(a, b)
    ensures Sessions([], [[[a], [b]], [[b]]], clock).accepted == [a, b, b]
    ensures Accept({}, [a, b, b]) == [a, b]
  {
    SeedsFromRows([]);
    assert Seeds([]) == {};
    hide Key, Normal, Session, Sessions, Accept, Seeds, Ingest;
    TwoBatches(a, b, clock);
    var first := Session(Ingress({}, []), [[a], [b]], clock);
    OneRowSeeds(a, clock(0));
    TwoSessions([[a], [b]], [[b]], clock);
    OneSession(Ingress(Seeds(first.rows), first.rows), b, clock);
    assert [a, b] + [b] == [a, b, b];
    AcceptThrice(a, b);
  }

  lemma OneRowSeeds(a: Arrival, now: string)
    requires Identified(a.raw)
    ensures Seeds([Row(Normal(a), now)]) <= {Key(a)}
  {
    var rows := [Row(Normal(a), now)];
    hide Key, Normal, Seeds;
    SeedsFromRows(rows);
    NormalKey(a);
    forall k | k in KeyedKeys(rows)
      ensures k == Key(a)
    {
    }
  }

  lemma AcceptThrice(a: Arrival, b: Arrival)
    requires Key(a) != Key(b)
    ensures Accept({}, [a, b, b]) == [a, b]
  {
    hide Key;
    assert [a, b, b][1..] == [b, b] && [b, b][1..] == [b] && [b][1..] == [];
    var k := {Key(a)} + {Key(b)};
    assert Accept(k, [b]) == [];
    assert Accept({Key(a)}, [b, b]) == [b] + Accept(k, [b]);
    assert Accept({}, [a, b, b]) == [a] + Accept({} + {Key(a)}, [b, b]);
    assert {} + {Key(a)} == {Key(a)};
  }

  lemma OneBatch(s: Ingress, a: Arrival, clock: nat -> string)
    requires Key(a) !in s.seen
    ensures Accept(s.seen, [a]) == [a]
    ensures Ingest(s, [a], clock) == Ingress(s.seen + {Key(a)}, Insert(s.rows, Normal(a), clock(|s.rows|)))
  {
    hide Key, Normal, Insert;
    assert [a][1..] == [];
    KeysCons([a]);
    KeysNone();
    assert Accept(s.seen, [a]) == [a];
    assert Normals([a]) == [Normal(a)];
    var es := [Normal(a)];
    assert es[1..] == [];
    assert Sort(es, Before) == Place(es[0], Sort([], Before), Before) == es;
    var next := Insert(s.rows, es[0], clock(|s.rows|));
    assert InsertAll(next, [], clock) == next;
    assert Output(s.seen, [a]) == [Normal(a)];
  }

  lemma OneSession(s: Ingress, a: Arrival, clock: nat -> string)
    requires Key(a) !in s.seen
    ensures Session(s, [[a]], clock).accepted == [a]
  {
    hide Key, Ingest;
    OneBatch(s, a, clock);
    assert [[a]][1..] == [];
    assert Session(Ingest(s, [a], clock), [], clock).accepted == [];
  }

  lemma TwoBatches(a: Arrival, b: Arrival, clock: nat -> string)
    requires Key(a) != Key(b) && Normal(a).eventId == Normal(b).eventId
    ensures Session(Ingress({}, []), [[a], [b]], clock) == Outcome([Row(Normal(a), clock(0))], [a, b])
  {
    hide Key, Normal, Ingest, Accept;
    var none, one := Ingress({}, []), Ingress({Key(a)}, [Row(Normal(a), clock(0))]);
    OneBatch(none, a, clock);
    assert Insert([], Normal(a), clock(0)) == one.rows;
    assert Ingest(none, [a], clock) == one;
    OneBatch(one, b, clock);
    assert one.rows[0].event.eventId == Normal(b).eventId;
    assert [[a], [b]][1..] == [[b]] && [[b]][1..] == [];
    assert Session(Ingest(one, [b], clock), [], clock) == Outcome(one.rows, []);
    assert Session(one, [[b]], clock) == Outcome(one.rows, [b]);
  }

  lemma TwoSessions(x: seq<seq<Arrival>>, y: seq<seq<Arrival>>, clock: nat -> string)
    ensures Sessions([], [x, y], clock).accepted
         == var first := Session(Ingress(Seeds([]), []), x, clock);
            first.accepted + Session(Ingress(Seeds(first.rows), first.rows), y, clock).accepted
  {
    hide Session, Seeds;
    assert [x, y][1..] == [y] && [y][1..] == [];
    var first := Session(Ingress(Seeds([]), []), x, clock);
    var second := Session(Ingress(Seeds(first.rows), first.rows), y, clock);
    assert Sessions(second.rows, [], clock).accepted == [];
    assert Sessions(first.rows, [y], clock).accepted == second.accepted + [];
  }
}
