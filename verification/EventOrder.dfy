/** What the router promises: first occurrences, independent of how arrivals are batched,
    and an order of output that does not depend on the order of input. */
module EventOrder {
  import opened Orders
  import opened Sorting
  import opened Events

  // ---------- First occurrences ----------

  /** Arrival i is the first with its key, and the key was not seen before the batch. */
  predicate First(seen: set<string>, batch: seq<Arrival>, i: nat)
    requires i < |batch|
  {
    Key(batch[i]) !in seen && forall j :: 0 <= j < i ==> Key(batch[j]) != Key(batch[i])
  }

  /** The first occurrences of a batch, picked by position. */
  function Firsts(seen: set<string>, batch: seq<Arrival>, n: nat): seq<Arrival>
    requires n <= |batch|
  {
    if n == 0 then []
    else Firsts(seen, batch, n - 1) + if First(seen, batch, n - 1) then [batch[n - 1]] else []
  }

  /** The router keeps exactly the first occurrence of each key not seen before. */
  lemma AcceptIsFirsts(seen: set<string>, batch: seq<Arrival>)
    ensures Accept(seen, batch) == Firsts(seen, batch, |batch|)
  {
    AcceptIsFirstsUpTo(seen, batch, |batch|);
    assert batch[..|batch|] == batch;
  }

  lemma {:induction false} AcceptIsFirstsUpTo(seen: set<string>, batch: seq<Arrival>, n: nat)
    requires n <= |batch|
    ensures Accept(seen, batch[..n]) == Firsts(seen, batch, n)
  {
    hide Key, Accept, Keys;
    if n == 0 {
      assert batch[..0] == [];
      AcceptNothing(seen);
    } else {
      AcceptIsFirstsUpTo(seen, batch, n - 1);
      assert batch[..n] == batch[..n - 1] + [batch[n - 1]];
      AcceptSnoc(seen, batch[..n - 1], batch[n - 1]);
      FirstIff(seen, batch, n - 1);
    }
  }

  lemma AcceptNothing(seen: set<string>)
    ensures Accept(seen, []) == []
  {
  }

  lemma FirstIff(seen: set<string>, batch: seq<Arrival>, i: nat)
    requires i < |batch|
    ensures First(seen, batch, i) <==> Key(batch[i]) !in seen + Keys(batch[..i])
  {
    hide Key, Keys;
    PrefixKeys(batch, i, Key(batch[i]));
  }

  lemma PrefixKeys(batch: seq<Arrival>, i: nat, k: string)
    requires i < |batch|
    ensures k in Keys(batch[..i]) <==> exists j :: 0 <= j < i && Key(batch[j]) == k
  {
    hide Key;
    assert forall j :: 0 <= j < i ==> batch[..i][j] == batch[j];
  }

  // ---------- Batches ----------

  function Flat(batches: seq<seq<Arrival>>): seq<Arrival> {
    if batches == [] then [] else batches[0] + Flat(batches[1..])
  }

  /** What a router accepts over a sequence of batches, in order of acceptance. */
  function Run(seen: set<string>, batches: seq<seq<Arrival>>): seq<Arrival>
    decreases |batches|
  {
    if batches == [] then []
    else Accept(seen, batches[0]) + Run(seen + Keys(batches[0]), batches[1..])
  }

  /** However arrivals are cut into batches, the router accepts what it accepts of them in one. */
  lemma {:induction false} BatchesDoNotMatter(seen: set<string>, batches: seq<seq<Arrival>>)
    ensures Run(seen, batches) == Accept(seen, Flat(batches))
    decreases |batches|
  {
    hide Key, Accept, Keys;
    if batches == [] {
      AcceptNothing(seen);
    } else {
      BatchesDoNotMatter(seen + Keys(batches[0]), batches[1..]);
      AcceptAppend(seen, batches[0], Flat(batches[1..]));
    }
  }

  /** Over a whole run, exactly the first occurrence of each key is accepted. */
  lemma RunIsFirsts(seen: set<string>, batches: seq<seq<Arrival>>)
    ensures Run(seen, batches) == Firsts(seen, Flat(batches), |Flat(batches)|)
  {
    BatchesDoNotMatter(seen, batches);
    AcceptIsFirsts(seen, Flat(batches));
  }

  // ---------- The order of output ----------

  lemma BeforeIsOrder()
    ensures WeakOrder(Before)
  {
    hide PairLess;
    forall a, b | Before(a, b)
      ensures !Before(b, a)
    {
      PairOrder((a.timestamp, a.eventId), (b.timestamp, b.eventId), (b.timestamp, b.eventId));
    }
    forall a, b, c | !Before(b, a) && !Before(c, b)
      ensures !Before(c, a)
    {
      PairOrder((a.timestamp, a.eventId), (b.timestamp, b.eventId), (c.timestamp, c.eventId));
    }
  }

  /** Higher priorities first; at one priority no later time first; at one time no greater id first. */
  predicate InOrder(es: seq<Event>) {
    forall i, j :: 0 <= i < j < |es| ==> Precedes(es[i], es[j])
  }

  predicate Precedes(a: Event, b: Event) {
    && a.priority >= b.priority
    && (a.priority == b.priority ==> !TextLess(b.timestamp, a.timestamp))
    && (a.priority == b.priority && a.timestamp == b.timestamp ==> !TextLess(b.eventId, a.eventId))
  }

  lemma BeforeMeans(a: Event, b: Event)
    requires !Before(b, a)
    ensures Precedes(a, b)
  {
  }

  /** The router's output is its accepted events, in order of priority, time and id. */
  lemma OutputSorted(seen: set<string>, batch: seq<Arrival>)
    ensures InOrder(Output(seen, batch)) && Ordered(Output(seen, batch), Before)
    ensures multiset(Output(seen, batch)) == multiset(Normals(Firsts(seen, batch, |batch|)))
  {
    AcceptIsFirsts(seen, batch);
    BeforeIsOrder();
    SortOrders(Normals(Accept(seen, batch)), Before);
    SortKeeps(Normals(Accept(seen, batch)), Before);
    var out := Output(seen, batch);
    hide Output, Before, Precedes;
    forall i, j | 0 <= i < j < |out|
      ensures Precedes(out[i], out[j])
    {
      assert NotAfter(Before)(out[i], out[j]) && !Before(out[j], out[i]);
      BeforeMeans(out[i], out[j]);
    }
  }

  // ---------- Input order ----------

  predicate DistinctKeys(batch: seq<Arrival>) {
    forall i, j :: 0 <= i < j < |batch| ==> Key(batch[i]) != Key(batch[j])
  }

  predicate DistinctIds(es: seq<Event>) {
    forall i, j :: 0 <= i < j < |es| ==> es[i].eventId != es[j].eventId
  }

  lemma OrderedStrict(es: seq<Event>)
    requires Ordered(es, Before) && DistinctIds(es)
    ensures Pairwise(es, Before)
  {
    hide PairLess;
    forall i, j | 0 <= i < j < |es|
      ensures Before(es[i], es[j])
    {
      assert NotAfter(Before)(es[i], es[j]) && !Before(es[j], es[i]);
      PairOrder((es[i].timestamp, es[i].eventId), (es[j].timestamp, es[j].eventId), ("", ""));
    }
  }

  /** With distinct keys, being accepted is a matter of the key alone. */
  lemma {:induction false} AcceptDistinct(seen: set<string>, batch: seq<Arrival>, x: Arrival)
    requires DistinctKeys(batch)
    ensures multiset(Accept(seen, batch))[x] == if Key(x) in seen then 0 else multiset(batch)[x]
    decreases |batch|
  {
    hide Key;
    if batch == [] {
    } else {
      assert batch == [batch[0]] + batch[1..];
      var more := seen + {Key(batch[0])};
      var rest := if Key(batch[0]) in seen then seen else more;
      AcceptDistinct(rest, batch[1..], x);
      assert multiset(batch)[x] == (if x == batch[0] then 1 else 0) + multiset(batch[1..])[x];
      if Key(x) == Key(batch[0]) {
        DistinctAbsent(batch, x);
      }
    }
  }

  lemma DistinctAbsent(batch: seq<Arrival>, x: Arrival)
    requires batch != [] && DistinctKeys(batch) && Key(x) == Key(batch[0])
    ensures multiset(batch[1..])[x] == 0
  {
    hide Key;
    forall y | y in batch[1..]
      ensures y != x
    {
      var k :| 0 <= k < |batch[1..]| && batch[1..][k] == y;
      assert batch[k + 1] == y;
    }
  }

  lemma NormalsOmit(b: seq<Arrival>, i: nat)
    requires i < |b|
    ensures multiset(Normals(b)) == multiset(Normals(Omit(b, i))) + multiset{Normal(b[i])}
  {
    hide Normal;
    assert Normals(Omit(b, i)) == Omit(Normals(b), i);
    OmitMultiset(Normals(b), i);
  }

  lemma {:induction false} NormalsSame(a: seq<Arrival>, b: seq<Arrival>)
    requires multiset(a) == multiset(b)
    ensures multiset(Normals(a)) == multiset(Normals(b))
    decreases |a|
  {
    assert a != [] ==> |Omit(a, 0)| == |a| - 1;
    hide Normal, Omit, Normals;
    if a == [] {
      assert |multiset(b)| == 0;
    } else {
      assert a[0] in multiset(b);
      var i :| 0 <= i < |b| && b[i] == a[0];
      OmitMultiset(a, 0);
      OmitMultiset(b, i);
      NormalsOmit(a, 0);
      NormalsOmit(b, i);
      assert multiset(Omit(a, 0)) == multiset(a) - multiset{a[0]};
      assert multiset(Omit(b, i)) == multiset(b) - multiset{b[i]};
      NormalsSame(Omit(a, 0), Omit(b, i));
    }
  }

  /** With distinct keys and ids, the output does not depend on the order of arrival. */
  lemma InputOrderDoesNotMatter(seen: set<string>, a: seq<Arrival>, b: seq<Arrival>)
    requires multiset(a) == multiset(b)
    requires DistinctKeys(a) && DistinctIds(Normals(Accept(seen, a)))
    ensures Output(seen, a) == Output(seen, b)
  {
    hide Key, Normals, Before, Sort, InOrder;
    var m, n := Accept(seen, a), Accept(seen, b);
    PairwiseKept(a, b, (x: Arrival, y: Arrival) => Key(x) != Key(y));
    forall x: Arrival
      ensures multiset(m)[x] == multiset(n)[x]
    {
      AcceptDistinct(seen, a, x);
      AcceptDistinct(seen, b, x);
    }
    assert multiset(m) == multiset(n);
    NormalsSame(m, n);
    var x, y := Output(seen, a), Output(seen, b);
    BeforeIsOrder();
    OutputSorted(seen, a);
    OutputSorted(seen, b);
    SortKeeps(Normals(m), Before);
    SortKeeps(Normals(n), Before);
    PairwiseKept(Normals(m), x, (e: Event, f: Event) => e.eventId != f.eventId);
    PairwiseKept(Normals(m), y, (e: Event, f: Event) => e.eventId != f.eventId);
    OrderedStrict(x);
    OrderedStrict(y);
    StrictUnique(x, y, Before);
  }
}
