/** What the perception event router computes: normal forms of raw events, deduplication, order. */
module Events {
  import opened Orders
  import opened Sorting
  import opened Wrappers
  import opened Basics

  /** A raw event as it arrives. Absent or empty ids, keys and times are ""; the other fields are None
      when absent. The topic inside the payload is its semantic topic, else its event type, else "". */
  datatype RawEvent = RawEvent(eventId: string, dedupeKey: string, priority: Option<int>, timestamp: string,
                               eventType: Option<string>, topic: Option<string>, payloadTopic: string)

  /** What is drawn for an event that lacks it: a new id and the clock's reading. */
  datatype Draw = Draw(id: string, time: string)

  datatype Arrival = Arrival(raw: RawEvent, draw: Draw)

  /** The normal form; the key is None when neither key nor id was given. */
  datatype Event = Event(eventId: string, key: Option<string>, priority: int, timestamp: string,
                         eventType: string, topic: string, payloadTopic: string)

  function Given(s: string): Option<string> {
    if s == "" then None else Some(s)
  }

  function TypeOf(raw: RawEvent): string {
    match raw.eventType
    case Some(t) => t
    case None => if raw.topic.Some? then OrElse(raw.topic.value, "unknown") else "unknown"
  }

  function Normal(a: Arrival): Event {
    Event(OrElse(a.raw.eventId, a.draw.id),
          Given(OrElse(a.raw.dedupeKey, a.raw.eventId)),
          if a.raw.priority.Some? then a.raw.priority.value else 50,
          OrElse(a.raw.timestamp, a.draw.time),
          OrElse(TypeOf(a.raw), "unknown"),
          if a.raw.topic.Some? then a.raw.topic.value else OrElse(TypeOf(a.raw), "unknown"),
          a.raw.payloadTopic)
  }

  /** The key an arrival is deduplicated by. */
  function Key(a: Arrival): string {
    OrElse(a.raw.dedupeKey, OrElse(a.raw.eventId, a.draw.id))
  }

  /** Events that carry a key or an id of their own. */
  predicate Identified(raw: RawEvent) {
    raw.dedupeKey != "" || raw.eventId != ""
  }

  function Keys(batch: seq<Arrival>): set<string> {
    set i | 0 <= i < |batch| :: Key(batch[i])
  }

  /** The arrivals whose key has not been seen, in order of arrival. */
  function Accept(seen: set<string>, batch: seq<Arrival>): seq<Arrival>
    decreases |batch|
  {
    if batch == [] then []
    else if Key(batch[0]) in seen then Accept(seen, batch[1..])
    else [batch[0]] + Accept(seen + {Key(batch[0])}, batch[1..])
  }

  function Normals(batch: seq<Arrival>): (r: seq<Event>)
    ensures |r| == |batch| && forall i :: 0 <= i < |batch| ==> r[i] == Normal(batch[i])
  {
    seq(|batch|, i requires 0 <= i < |batch| => Normal(batch[i]))
  }

  // ---------- Order of output ----------

  /** Higher priority first, then earlier time, then smaller id. */
  predicate Before(a: Event, b: Event) {
    a.priority > b.priority
    || (a.priority == b.priority && PairLess((a.timestamp, a.eventId), (b.timestamp, b.eventId)))
  }

  /** What the router returns for a batch. */
  function Output(seen: set<string>, batch: seq<Arrival>): seq<Event> {
    Sort(Normals(Accept(seen, batch)), Before)
  }

  /** What one more arrival adds to the keys and to the events kept. */
  lemma NormalizeStep(seen: set<string>, batch: seq<Arrival>, i: nat)
    requires i < |batch|
    ensures Keys(batch[..i + 1]) == Keys(batch[..i]) + {Key(batch[i])}
    ensures Normals(Accept(seen, batch[..i + 1])) == Normals(Accept(seen, batch[..i]))
              + if Key(batch[i]) in seen + Keys(batch[..i]) then [] else [Normal(batch[i])]
  {
    hide Normal, Key, Accept, Keys;
    assert batch[..i + 1] == batch[..i] + [batch[i]];
    KeysSnoc(batch[..i], batch[i]);
    AcceptSnoc(seen, batch[..i], batch[i]);
  }

  /** Two batches one after the other are taken as one. */
  lemma {:induction false} AcceptAppend(seen: set<string>, a: seq<Arrival>, b: seq<Arrival>)
    ensures Accept(seen, a + b) == Accept(seen, a) + Accept(seen + Keys(a), b)
    decreases |a|
  {
    hide Key, Keys;
    if a == [] {
      KeysNone();
      assert a + b == b && seen + Keys(a) == seen;
    } else {
      KeysCons(a);
      assert (a + b)[1..] == a[1..] + b;
      var rest := if Key(a[0]) in seen then seen else seen + {Key(a[0])};
      assert rest + Keys(a[1..]) == seen + Keys(a);
      AcceptAppend(rest, a[1..], b);
    }
  }

  lemma AcceptSnoc(seen: set<string>, batch: seq<Arrival>, a: Arrival)
    ensures Accept(seen, batch + [a])
         == Accept(seen, batch) + if Key(a) in seen + Keys(batch) then [] else [a]
  {
    hide Key, Keys;
    AcceptAppend(seen, batch, [a]);
    assert [a][1..] == [];
  }

  lemma KeysNone()
    ensures Keys([]) == {}
  {
  }

  lemma KeysCons(batch: seq<Arrival>)
    requires batch != []
    ensures Keys(batch) == {Key(batch[0])} + Keys(batch[1..])
  {
    hide Key;
    assert batch == [batch[0]] + batch[1..];
    KeysAppend([batch[0]], batch[1..]);
    assert Keys([batch[0]]) == {Key(batch[0])};
  }

  lemma KeysSnoc(batch: seq<Arrival>, a: Arrival)
    ensures Keys(batch + [a]) == Keys(batch) + {Key(a)}
  {
    var all := batch + [a];
    forall k | k in Keys(batch) + {Key(a)}
      ensures k in Keys(all)
    {
      if k == Key(a) {
        assert all[|batch|] == a;
      } else {
        var i :| 0 <= i < |batch| && Key(batch[i]) == k;
        assert all[i] == batch[i];
      }
    }
  }

  lemma KeysAppend(a: seq<Arrival>, b: seq<Arrival>)
    ensures Keys(a + b) == Keys(a) + Keys(b)
  {
    var all := a + b;
    forall k | k in Keys(a) + Keys(b)
      ensures k in Keys(all)
    {
      if k in Keys(a) {
        var i :| 0 <= i < |a| && Key(a[i]) == k;
        assert all[i] == a[i];
      } else {
        var i :| 0 <= i < |b| && Key(b[i]) == k;
        assert all[|a| + i] == b[i];
      }
    }
  }
}
