/** The perception event router as the source runs it, and what it answers in terms of the fields of
    the raw events. */
module EventRouter {
  import opened Sorting
  import opened Wrappers
  import opened Events
  import opened EventOrder

  // ---------- In terms of the fields ----------

  /** The name an arrival is deduplicated by: its key, else its id, else the id drawn for it. */
  predicate NamedAs(a: Arrival, name: string) {
    if a.raw.dedupeKey != "" then name == a.raw.dedupeKey
    else if a.raw.eventId != "" then name == a.raw.eventId
    else name == a.draw.id
  }

  /** The i-th arrival has a name that was not seen before the batch, nor has an earlier one of it. */
  predicate NewAt(seen: set<string>, batch: seq<Arrival>, i: int)
    requires 0 <= i < |batch|
  {
    && (forall k :: k in seen ==> !NamedAs(batch[i], k))
    && forall j :: 0 <= j < i ==> !SameName(batch[j], batch[i])
  }

  predicate SameName(a: Arrival, b: Arrival) {
    NamedAs(b, if a.raw.dedupeKey != "" then a.raw.dedupeKey
               else if a.raw.eventId != "" then a.raw.eventId else a.draw.id)
  }

  function NewCount(seen: set<string>, batch: seq<Arrival>, n: nat): nat
    requires n <= |batch|
  {
    if n == 0 then 0 else NewCount(seen, batch, n - 1) + if NewAt(seen, batch, n - 1) then 1 else 0
  }

  /** The event of an arrival: what is given is kept, a missing id and time are drawn, the priority is
      50 and the type and topic are "unknown" if nothing is given for them. */
  predicate ReadsAs(a: Arrival, e: Event) {
    && e.eventId == (if a.raw.eventId != "" then a.raw.eventId else a.draw.id)
    && e.key == (if a.raw.dedupeKey != "" then Some(a.raw.dedupeKey)
                 else if a.raw.eventId != "" then Some(a.raw.eventId) else None)
    && (a.raw.priority.Some? ==> e.priority == a.raw.priority.value)
    && (a.raw.priority.None? ==> e.priority == 50)
    && e.timestamp == (if a.raw.timestamp != "" then a.raw.timestamp else a.draw.time)
    && TypedAs(a.raw, e.eventType)
    && (a.raw.topic.Some? ==> e.topic == a.raw.topic.value)
    && (a.raw.topic.None? ==> TypedAs(a.raw, e.topic))
    && e.payloadTopic == a.raw.payloadTopic
  }

  /** The type given, else the topic given in its place, else "unknown". */
  predicate TypedAs(raw: RawEvent, t: string) {
    if raw.eventType.Some? then t == (if raw.eventType.value != "" then raw.eventType.value else "unknown")
    else if raw.topic.Some? && raw.topic.value != "" then t == raw.topic.value
    else t == "unknown"
  }

  /** What a batch is answered with: the events of its new arrivals, one for each, in order. */
  ghost predicate Answers(seen: set<string>, batch: seq<Arrival>, out: seq<Event>) {
    && InOrder(out) && |out| == NewCount(seen, batch, |batch|)
    && (forall e :: e in out ==> exists i :: 0 <= i < |batch| && NewAt(seen, batch, i) && ReadsAs(batch[i], e))
    && (forall i :: 0 <= i < |batch| && NewAt(seen, batch, i) ==> exists e :: e in out && ReadsAs(batch[i], e))
  }

  /** What has been seen after a batch: what was seen before, and the names of all its arrivals. */
  predicate Marks(seen: set<string>, batch: seq<Arrival>, after: set<string>) {
    && seen <= after
    && (forall i :: 0 <= i < |batch| ==> exists k :: k in after && NamedAs(batch[i], k))
    && (forall k :: k in after ==> k in seen || exists i :: 0 <= i < |batch| && NamedAs(batch[i], k))
  }

  // ---------- Proofs ----------

  lemma NameIsKey(a: Arrival, name: string)
    ensures NamedAs(a, name) <==> name == Key(a)
  {
  }

  lemma NewIsFirst(seen: set<string>, batch: seq<Arrival>, i: nat)
    requires i < |batch|
    ensures NewAt(seen, batch, i) <==> First(seen, batch, i)
  {
    forall a: Arrival, name
      ensures NamedAs(a, name) <==> name == Key(a)
    {
      NameIsKey(a, name);
    }
  }

  lemma {:induction false} FirstsCount(seen: set<string>, batch: seq<Arrival>, n: nat)
    requires n <= |batch|
    ensures |Firsts(seen, batch, n)| == NewCount(seen, batch, n)
    ensures forall x :: x in Firsts(seen, batch, n) <==>
      exists i :: 0 <= i < n && NewAt(seen, batch, i) && batch[i] == x
  {
    hide First, NewAt;
    if n > 0 {
      FirstsCount(seen, batch, n - 1);
      NewIsFirst(seen, batch, n - 1);
    }
  }

  lemma NormalReads(a: Arrival)
    ensures ReadsAs(a, Normal(a))
  {
  }

  lemma OutputCount(seen: set<string>, batch: seq<Arrival>)
    ensures |Output(seen, batch)| == NewCount(seen, batch, |batch|)
  {
    AcceptIsFirsts(seen, batch);
    FirstsCount(seen, batch, |batch|);
    SortKeeps(Normals(Accept(seen, batch)), Before);
  }

  lemma OutputMembers(seen: set<string>, batch: seq<Arrival>, e: Event)
    ensures e in Output(seen, batch) <==> exists i :: 0 <= i < |batch| && NewAt(seen, batch, i) && Normal(batch[i]) == e
  {
    var firsts := Accept(seen, batch);
    AcceptIsFirsts(seen, batch);
    FirstsCount(seen, batch, |batch|);
    SortKeeps(Normals(firsts), Before);
    hide Normal, Before, NewAt, Accept, Firsts, NewCount, Sort;
    if e in Normals(firsts) {
      var n :| 0 <= n < |firsts| && Normals(firsts)[n] == e;
      assert firsts[n] in firsts;
    }
    if i :| 0 <= i < |batch| && NewAt(seen, batch, i) && Normal(batch[i]) == e {
      assert batch[i] in firsts;
      var n :| 0 <= n < |firsts| && firsts[n] == batch[i];
      assert Normals(firsts)[n] == e;
    }
  }

  lemma OutputMeans(seen: set<string>, batch: seq<Arrival>)
    ensures Answers(seen, batch, Output(seen, batch))
  {
    var out := Output(seen, batch);
    OutputSorted(seen, batch);
    OutputCount(seen, batch);
    hide NewAt, ReadsAs, Normal, Output, InOrder, NewCount;
    forall e | e in out
      ensures exists i :: 0 <= i < |batch| && NewAt(seen, batch, i) && ReadsAs(batch[i], e)
    {
      OutputMembers(seen, batch, e);
      var i :| 0 <= i < |batch| && NewAt(seen, batch, i) && Normal(batch[i]) == e;
      NormalReads(batch[i]);
    }
    forall i | 0 <= i < |batch| && NewAt(seen, batch, i)
      ensures exists e :: e in out && ReadsAs(batch[i], e)
    {
      OutputMembers(seen, batch, Normal(batch[i]));
      NormalReads(batch[i]);
    }
  }

  lemma KeysMean(seen: set<string>, batch: seq<Arrival>)
    ensures Marks(seen, batch, seen + Keys(batch))
  {
    var after := seen + Keys(batch);
    hide NamedAs, Key;
    forall i | 0 <= i < |batch|
      ensures exists k :: k in after && NamedAs(batch[i], k)
    {
      NameIsKey(batch[i], Key(batch[i]));
      assert Key(batch[i]) in Keys(batch);
    }
    forall k | k in after && k !in seen
      ensures exists i :: 0 <= i < |batch| && NamedAs(batch[i], k)
    {
      var i :| 0 <= i < |batch| && Key(batch[i]) == k;
      NameIsKey(batch[i], k);
    }
  }

  class Router {
    var seen: set<string>

    constructor ()
      ensures seen == {}
    {
      seen := {};
    }

    method SeedDedupeKeys(keys: seq<string>)
      modifies this
      ensures seen == old(seen) + set k | k in keys && k != ""
    {
      for i := 0 to |keys|
        invariant seen == old(seen) + set k | k in keys[..i] && k != ""
      {
        if keys[i] != "" {
          seen := seen + {keys[i]};
        }
        assert keys[..i + 1] == keys[..i] + [keys[i]];
      }
      assert keys[..|keys|] == keys;
    }

    method Normalize(batch: seq<Arrival>) returns (events: seq<Event>)
      modifies this
      ensures events == Output(old(seen), batch)
      ensures seen == old(seen) + Keys(batch)
      ensures Answers(old(seen), batch, events) && Marks(old(seen), batch, seen)
    {
      assert Normals(Accept(seen, [])) == [];
      hide Normal, Key, Sort, Accept, Keys, Normals, Answers, Marks;
      events := [];
      assert batch[..0] == [];
      KeysNone();
      for i := 0 to |batch|
        invariant seen == old(seen) + Keys(batch[..i])
        invariant events == Normals(Accept(old(seen), batch[..i]))
      {
        var event := Normal(batch[i]);
        var key := Key(batch[i]);
        NormalizeStep(old(seen), batch, i);
        if key in seen {
          continue;
        }
        seen := seen + {key};
        events := events + [event];
      }
      assert batch[..|batch|] == batch;
      events := Sort(events, Before);
      OutputMeans(old(seen), batch);
      KeysMean(old(seen), batch);
    }
  }
}
