/** What the persona keeps: a sorted list with one relationship to a principal, redaction that
    commutes with signals about others, and a growth record that adds up. */
module PersonaSafety {
  import opened Orders
  import opened Sorting
  import opened Wrappers
  import opened Persona

  // ---------- Sorted, one to a principal ----------

  predicate Apart(a: Relationship, b: Relationship) {
    a.principal != b.principal
  }

  predicate Unique(rs: seq<Relationship>) {
    Pairwise(rs, Apart)
  }

  function Principals(rs: seq<Relationship>): set<string> {
    set r | r in rs :: r.principal
  }

  lemma {:induction false} PutUnique(rs: seq<Relationship>, r: Relationship)
    requires Unique(rs)
    ensures Unique(Put(rs, r)) && Principals(Put(rs, r)) == Principals(rs) + {r.principal}
    decreases |rs|
  {
    if rs == [] {
    } else {
      assert rs == [rs[0]] + rs[1..];
      PairwiseTail(rs, Apart);
      PutUnique(rs[1..], r);
      if rs[0].principal == r.principal {
        PairwiseCons(r, rs[1..], Apart);
        assert Put(rs, r) == [r] + rs[1..];
      } else {
        forall x | x in Put(rs[1..], r)
          ensures Apart(rs[0], x)
        {
          assert x.principal in Principals(Put(rs[1..], r));
        }
        PairwiseCons(rs[0], Put(rs[1..], r), Apart);
      }
      ConsPrincipals(rs[0], rs[1..]);
      ConsPrincipals(rs[0], Put(rs[1..], r));
      ConsPrincipals(r, rs[1..]);
    }
  }

  lemma ConsPrincipals(r: Relationship, rs: seq<Relationship>)
    ensures Principals([r] + rs) == {r.principal} + Principals(rs)
  {
    assert r in [r] + rs;
    forall x | x in rs
      ensures x in [r] + rs
    {
    }
  }

  lemma {:induction false} PutAllUnique(dict: seq<Relationship>, rs: seq<Relationship>)
    requires Unique(dict)
    ensures Unique(PutAll(dict, rs))
    decreases |rs|
  {
    hide Put, Unique;
    if rs == [] {
    } else {
      PutUnique(dict, rs[0]);
      PutAllUnique(Put(dict, rs[0]), rs[1..]);
    }
  }

  /** The principals a batch of signals names. */
  function Named(signals: seq<Signal>): set<string> {
    set s | s in signals && s.principal != "" :: s.principal
  }

  lemma {:induction false} RelateAllUnique(dict: seq<Relationship>, signals: seq<Signal>)
    requires Unique(dict)
    ensures Unique(RelateAll(dict, signals))
    ensures Principals(RelateAll(dict, signals)) == Principals(dict) + Named(signals)
    decreases |signals|
  {
    hide Put, Unique, Touched, Principals, Find;
    if signals == [] {
    } else {
      var s := signals[0];
      assert signals == [s] + signals[1..];
      if s.principal != "" {
        PutUnique(dict, Touched(Find(dict, s.principal).GetOr(NewRelationship(s.principal)), s));
        TouchedPrincipal(Find(dict, s.principal).GetOr(NewRelationship(s.principal)), s);
      }
      RelateAllUnique(Relate(dict, s), signals[1..]);
    }
  }

  lemma TouchedPrincipal(previous: Relationship, s: Signal)
    ensures Touched(previous, s).principal == s.principal
  {
  }

  lemma ByPrincipalIsOrder()
    ensures WeakOrder(ByPrincipal)
  {
    hide TextLess;
    forall a, b | ByPrincipal(a, b)
      ensures !ByPrincipal(b, a)
    {
      TextOrder(a.principal, b.principal, b.principal);
    }
    forall a, b, c | !ByPrincipal(b, a) && !ByPrincipal(c, b)
      ensures !ByPrincipal(c, a)
    {
      TextOrder(a.principal, b.principal, c.principal);
    }
  }

  lemma SortedStrict(rs: seq<Relationship>)
    requires Unique(rs)
    ensures Pairwise(Sort(rs, ByPrincipal), ByPrincipal) && Principals(Sort(rs, ByPrincipal)) == Principals(rs)
  {
    hide Sort, TextLess, WeakOrder;
    var s := Sort(rs, ByPrincipal);
    ByPrincipalIsOrder();
    SortKeeps(rs, ByPrincipal);
    SortOrders(rs, ByPrincipal);
    PairwiseKept(rs, s, Apart);
    forall i, j | 0 <= i < j < |s|
      ensures ByPrincipal(s[i], s[j])
    {
      assert Apart(s[i], s[j]);
      TextTotal(s[i].principal, s[j].principal);
    }
  }

  /** After any signals the relationships are strictly sorted by principal, so there is one to a
      principal: those that were there and those the signals named. */
  lemma AppliedSorted(state: State, signals: seq<Signal>, vitality: string, now: string)
    ensures Pairwise(Applied(state, signals, vitality, now).relationships, ByPrincipal)
    ensures Principals(Applied(state, signals, vitality, now).relationships)
         == Principals(state.relationships) + Named(signals)
  {
    hide Put, PutAll, RelateAll, Sort, Pairwise, Unique, Named, Principals, Without;
    WithoutNone({});
    PutAllUnique([], state.relationships);
    PutAllPrincipals([], state.relationships);
    RelateAllUnique(PutAll([], state.relationships), signals);
    SortedStrict(RelateAll(PutAll([], state.relationships), signals));
  }

  lemma {:induction false} PutAllPrincipals(dict: seq<Relationship>, rs: seq<Relationship>)
    requires Unique(dict)
    ensures Principals(PutAll(dict, rs)) == Principals(dict) + Principals(rs)
    decreases |rs|
  {
    hide Put, Unique;
    if rs == [] {
    } else {
      PutUnique(dict, rs[0]);
      PutAllPrincipals(Put(dict, rs[0]), rs[1..]);
      assert rs == [rs[0]] + rs[1..];
      ConsPrincipals(rs[0], rs[1..]);
    }
  }

  lemma {:induction false} PutFinds(rs: seq<Relationship>, r: Relationship, principal: string)
    ensures Find(Put(rs, r), principal) == if principal == r.principal then Some(r) else Find(rs, principal)
    decreases |rs|
  {
    if rs == [] {
    } else {
      PutFinds(rs[1..], r, principal);
      assert ([r] + rs[1..])[1..] == rs[1..];
      assert ([rs[0]] + Put(rs[1..], r))[1..] == Put(rs[1..], r);
    }
  }

  /** One principal's signals, in order. */
  function About(signals: seq<Signal>, principal: string): seq<Signal> {
    if signals == [] then []
    else (if signals[0].principal == principal then [signals[0]] else []) + About(signals[1..], principal)
  }

  function TouchAll(r: Relationship, signals: seq<Signal>): Relationship
    decreases |signals|
  {
    if signals == [] then r else TouchAll(Touched(r, signals[0]), signals[1..])
  }

  /** Relationships do not mix: what becomes of one is decided by its own start and the signals
      that name its principal. */
  lemma {:induction false} RelationshipsDoNotMix(dict: seq<Relationship>, signals: seq<Signal>, principal: string)
    requires principal != ""
    ensures Find(RelateAll(dict, signals), principal)
         == if About(signals, principal) == [] then Find(dict, principal)
            else Some(TouchAll(Find(dict, principal).GetOr(NewRelationship(principal)), About(signals, principal)))
    decreases |signals|
  {
    hide Put, Touched, Find;
    if signals == [] {
    } else {
      var s := signals[0];
      RelationshipsDoNotMix(Relate(dict, s), signals[1..], principal);
      var previous := Find(dict, s.principal).GetOr(NewRelationship(s.principal));
      TouchedPrincipal(previous, s);
      PutFinds(dict, Touched(previous, s), principal);
      if s.principal == principal {
        assert About(signals, principal) == [s] + About(signals[1..], principal);
        assert ([s] + About(signals[1..], principal))[1..] == About(signals[1..], principal);
      } else {
        assert [] + About(signals[1..], principal) == About(signals[1..], principal);
      }
    }
  }

  // ---------- Redaction ----------

  lemma WithoutCons(r: Relationship, rs: seq<Relationship>, removed: set<string>)
    ensures Without([r] + rs, removed) == (if r.principal in removed then [] else [r]) + Without(rs, removed)
  {
    assert ([r] + rs)[1..] == rs;
  }

  lemma {:induction false} WithoutPut(rs: seq<Relationship>, r: Relationship, removed: set<string>)
    ensures Without(Put(rs, r), removed)
         == if r.principal in removed then Without(rs, removed) else Put(Without(rs, removed), r)
    decreases |rs|
  {
    hide Without;
    if rs == [] {
      WithoutCons(r, [], removed);
      WithoutNone(removed);
      assert [r] + [] == [r];
    } else {
      WithoutPut(rs[1..], r, removed);
      assert rs == [rs[0]] + rs[1..];
      WithoutCons(rs[0], rs[1..], removed);
      WithoutCons(r, rs[1..], removed);
      WithoutCons(rs[0], Put(rs[1..], r), removed);
      var kept := [rs[0]] + Without(rs[1..], removed);
      assert kept[1..] == Without(rs[1..], removed);
      assert [] + Without(rs[1..], removed) == Without(rs[1..], removed);
    }
  }

  lemma WithoutNone(removed: set<string>)
    ensures Without([], removed) == [] && Unique([]) && Principals([]) == {}
  {
  }

  lemma {:induction false} WithoutFind(rs: seq<Relationship>, removed: set<string>, principal: string)
    requires principal !in removed
    ensures Find(Without(rs, removed), principal) == Find(rs, principal)
    decreases |rs|
  {
    hide Without;
    if rs == [] {
      WithoutNone(removed);
    } else {
      assert rs == [rs[0]] + rs[1..];
      WithoutCons(rs[0], rs[1..], removed);
      WithoutFind(rs[1..], removed, principal);
      var kept := [rs[0]] + Without(rs[1..], removed);
      assert kept[1..] == Without(rs[1..], removed);
      assert [] + Without(rs[1..], removed) == Without(rs[1..], removed);
    }
  }

  lemma {:induction false} WithoutPutAll(dict: seq<Relationship>, rs: seq<Relationship>, removed: set<string>)
    ensures Without(PutAll(dict, rs), removed) == PutAll(Without(dict, removed), Without(rs, removed))
    decreases |rs|
  {
    hide Put, Without;
    if rs == [] {
      WithoutNone(removed);
    } else {
      WithoutPutAll(Put(dict, rs[0]), rs[1..], removed);
      WithoutPut(dict, rs[0], removed);
      assert rs == [rs[0]] + rs[1..];
      WithoutCons(rs[0], rs[1..], removed);
      var kept := [rs[0]] + Without(rs[1..], removed);
      assert kept[1..] == Without(rs[1..], removed);
      assert [] + Without(rs[1..], removed) == Without(rs[1..], removed);
    }
  }

  lemma {:induction false} WithoutRelateAll(dict: seq<Relationship>, signals: seq<Signal>, removed: set<string>)
    requires Named(signals) !! removed
    ensures Without(RelateAll(dict, signals), removed) == RelateAll(Without(dict, removed), signals)
    decreases |signals|
  {
    hide Put, Without, Touched, Find;
    if signals == [] {
    } else {
      var s := signals[0];
      assert signals == [s] + signals[1..] && s in signals;
      assert Named(signals[1..]) <= Named(signals);
      WithoutRelateAll(Relate(dict, s), signals[1..], removed);
      if s.principal != "" {
        assert s.principal in Named(signals);
        WithoutFind(dict, removed, s.principal);
        var r := Touched(Find(dict, s.principal).GetOr(NewRelationship(s.principal)), s);
        TouchedPrincipal(Find(dict, s.principal).GetOr(NewRelationship(s.principal)), s);
        WithoutPut(dict, r, removed);
      }
    }
  }

  lemma {:induction false} WithoutMembers(rs: seq<Relationship>, removed: set<string>)
    ensures forall x :: x in Without(rs, removed) <==> x in rs && x.principal !in removed
    ensures Principals(Without(rs, removed)) !! removed
    decreases |rs|
  {
    if rs == [] {
    } else {
      WithoutMembers(rs[1..], removed);
      assert rs == [rs[0]] + rs[1..];
    }
  }

  lemma {:induction false} WithoutPairwise(rs: seq<Relationship>, removed: set<string>,
                                           rel: (Relationship, Relationship) -> bool)
    requires Pairwise(rs, rel)
    ensures Pairwise(Without(rs, removed), rel)
    decreases |rs|
  {
    hide Pairwise;
    if rs == [] {
    } else {
      PairwiseTail(rs, rel);
      WithoutPairwise(rs[1..], removed, rel);
      WithoutMembers(rs[1..], removed);
      PairwiseCons(rs[0], Without(rs[1..], removed), rel);
      assert [] + Without(rs[1..], removed) == Without(rs[1..], removed);
    }
  }

  lemma {:induction false} WithoutCount(rs: seq<Relationship>, removed: set<string>, x: Relationship)
    ensures multiset(Without(rs, removed))[x] == if x.principal in removed then 0 else multiset(rs)[x]
    decreases |rs|
  {
    if rs == [] {
    } else {
      WithoutCount(rs[1..], removed, x);
      assert rs == [rs[0]] + rs[1..];
    }
  }

  lemma WithoutSorted(rs: seq<Relationship>, removed: set<string>)
    requires Unique(rs)
    ensures Without(Sort(rs, ByPrincipal), removed) == Sort(Without(rs, removed), ByPrincipal)
  {
    hide Sort, Without, TextLess, WeakOrder, Pairwise;
    var a, b := Without(Sort(rs, ByPrincipal), removed), Sort(Without(rs, removed), ByPrincipal);
    ByPrincipalIsOrder();
    SortedStrict(rs);
    WithoutPairwise(Sort(rs, ByPrincipal), removed, ByPrincipal);
    WithoutPairwise(rs, removed, Apart);
    SortedStrict(Without(rs, removed));
    SortKeeps(rs, ByPrincipal);
    SortKeeps(Without(rs, removed), ByPrincipal);
    forall x: Relationship
      ensures multiset(a)[x] == multiset(b)[x]
    {
      WithoutCount(Sort(rs, ByPrincipal), removed, x);
      WithoutCount(rs, removed, x);
    }
    assert multiset(a) == multiset(b);
    StrictUnique(a, b, ByPrincipal);
  }

  /** Redaction commutes with signals exactly when no signal names a redacted principal; otherwise
      signals bring the redacted principal back. */
  lemma RedactionCommutesIff(state: State, signals: seq<Signal>, removed: set<string>, vitality: string, now: string)
    ensures Redacted(Applied(state, signals, vitality, now), removed, now)
         == Applied(Redacted(state, removed, now), signals, vitality, now)
       <==> Named(signals) !! removed
  {
    hide Put, PutAll, RelateAll, Sort, Without, FeelAll, Principals, Named, Pairwise, Unique;
    var dict := PutAll([], state.relationships);
    var after := RelateAll(dict, signals);
    WithoutNone({});
    PutAllUnique([], state.relationships);
    RelateAllUnique(dict, signals);
    WithoutNone(removed);
    WithoutPutAll([], state.relationships, removed);
    WithoutSorted(after, removed);
    if Named(signals) !! removed {
      WithoutRelateAll(dict, signals, removed);
    } else {
      var k :| k in Named(signals) && k in removed;
      AppliedSorted(Redacted(state, removed, now), signals, vitality, now);
      WithoutMembers(Applied(state, signals, vitality, now).relationships, removed);
    }
  }

  lemma {:induction false} WithoutNobody(rs: seq<Relationship>)
    ensures Without(rs, {}) == rs
    decreases |rs|
  {
    if rs == [] {
    } else {
      WithoutNobody(rs[1..]);
      assert rs == [rs[0]] + rs[1..];
    }
  }

  /** Signals and redactions drop what is attached to a persona: its seed, growth record and
      provenance. So redacting nobody gives back the state exactly if nothing is attached. */
  lemma AttachmentsLost(state: State, signals: seq<Signal>, removed: set<string>, vitality: string, now: string)
    ensures Applied(state, signals, vitality, now).attached == NOTHING_ATTACHED
    ensures Redacted(state, removed, now).attached == NOTHING_ATTACHED
    ensures Redacted(state, {}, "") == state <==> state.attached == NOTHING_ATTACHED
  {
    WithoutNobody(state.relationships);
  }

  // ---------- How numbers move ----------

  /** The number goes by the given amount, and stops at the bounds. */
  predicate Moves(was: int, amount: int, low: int, high: int, now: int) {
    if was + amount < low then now == low else if was + amount > high then now == high else now == was + amount
  }

  /** Numbers are in ten-thousandths: the valence is between -1 and 1, the others between 0 and 1. */
  predicate FeltAs(f: Feelings, s: Signal, g: Feelings) {
    && g.mood == (if s.mood != "" then s.mood else f.mood)
    && Moves(f.valence, s.valence, -10000, 10000, g.valence) && Moves(f.arousal, s.arousal, 0, 10000, g.arousal)
    && Moves(f.curiosity, s.curiosity, 0, 10000, g.curiosity) && Moves(f.fatigue, s.fatigue, 0, 10000, g.fatigue)
    && Moves(f.openness, s.openness, 0, 10000, g.openness)
  }

  /** A relationship starts at a trust of one half and no familiarity; a note is kept once. */
  predicate RelatedAs(previous: Option<Relationship>, s: Signal, r: Relationship) {
    && r.principal == s.principal && r.lastReason == s.reason
    && Moves(if previous.Some? then previous.value.trust else 5000, s.trust, 0, 10000, r.trust)
    && Moves(if previous.Some? then previous.value.familiarity else 0, s.familiarity, 0, 10000, r.familiarity)
    && r.address == (if s.address != "" then s.address else if previous.Some? then previous.value.address else "")
    && var notes := if previous.Some? then previous.value.boundaries else [];
       r.boundaries == if s.note == "" || s.note in notes then notes else notes + [s.note]
  }

  lemma {:induction false} FeelSnoc(f: Feelings, signals: seq<Signal>, s: Signal)
    ensures FeelAll(f, signals + [s]) == Feel(FeelAll(f, signals), s)
    decreases |signals|
  {
    hide Feel;
    if signals == [] {
      assert [s][1..] == [] && [] + [s] == [s];
    } else {
      assert (signals + [s])[1..] == signals[1..] + [s];
      FeelSnoc(Feel(f, signals[0]), signals[1..], s);
    }
  }

  lemma {:induction false} RelateSnoc(dict: seq<Relationship>, signals: seq<Signal>, s: Signal)
    ensures RelateAll(dict, signals + [s]) == Relate(RelateAll(dict, signals), s)
    decreases |signals|
  {
    hide Relate;
    if signals == [] {
      assert [s][1..] == [] && [] + [s] == [s];
    } else {
      assert (signals + [s])[1..] == signals[1..] + [s];
      RelateSnoc(Relate(dict, signals[0]), signals[1..], s);
    }
  }

  /** One signal more moves the feelings and the relationship it names from where the signals before it
      left them, and no other relationship. */
  lemma SignalMoves(f: Feelings, dict: seq<Relationship>, signals: seq<Signal>, s: Signal, principal: string)
    ensures FeltAs(FeelAll(f, signals), s, FeelAll(f, signals + [s]))
    ensures var was, now := Find(RelateAll(dict, signals), principal), Find(RelateAll(dict, signals + [s]), principal);
      if principal == s.principal && principal != "" then now.Some? && RelatedAs(was, s, now.value) else now == was
  {
    FeelSnoc(f, signals, s);
    RelateSnoc(dict, signals, s);
    hide RelateAll, FeelAll, Find, Put;
    var before := RelateAll(dict, signals);
    if s.principal != "" {
      PutFinds(before, Touched(Find(before, s.principal).GetOr(NewRelationship(s.principal)), s), principal);
    }
  }

  // ---------- Growth ----------

  predicate Distinct(ids: seq<string>) {
    forall i, j :: 0 <= i < j < |ids| ==> ids[i] != ids[j]
  }

  /** The record adds up: the revision is the number of distinct events and the sum of the
      counters, and the stored hash is the one recomputed. */
  predicate AddsUp(g: Growth, digest: Digest) {
    g.revision == |g.ids| && Distinct(g.ids) && "" !in g.ids
    && g.revision == g.social + g.unitEvents + g.relationships + g.vitality + g.improvements
    && g.hash == Hash(g, digest)
  }

  /** The counter of the source is one higher and the others are as they were. */
  predicate Counts(source: Source, g: Growth, next: Growth) {
    && next.social == (if source == Social then g.social + 1 else g.social)
    && next.unitEvents == (if source == UnitEvent then g.unitEvents + 1 else g.unitEvents)
    && next.relationships == (if source == RelationshipNote then g.relationships + 1 else g.relationships)
    && next.vitality == (if source == VitalityChange then g.vitality + 1 else g.vitality)
    && next.improvements == (if source == Improvement then g.improvements + 1 else g.improvements)
  }

  lemma GrowAddsUp(g: Growth, e: Evidence, digest: Digest)
    requires AddsUp(g, digest)
    ensures Grow(g, e, digest).Ok? <==> !e.source.Other? && e.eventId != "" && e.eventId !in g.ids
    ensures Grow(g, e, digest).Ok? ==> AddsUp(Grow(g, e, digest).value, digest)
    ensures Grow(g, e, digest).Ok? ==> Ids(Grow(g, e, digest).value) == Ids(g) + {e.eventId}
    ensures Grow(g, e, digest).Ok? ==> Counts(e.source, g, Grow(g, e, digest).value)
  {
    if Grow(g, e, digest).Ok? {
      var next := Grow(g, e, digest).value;
      assert next.(hash := "") == next.(hash := "").(hash := "");
    }
  }

  predicate Valid(e: Evidence) {
    !e.source.Other? && e.eventId != ""
  }

  function ValidIds(es: seq<Evidence>): set<string> {
    set e | e in es && Valid(e) :: e.eventId
  }

  /** Over any evidence, from the initial record: it adds up, and it has recorded exactly the events
      of valid evidence, each once. */
  lemma {:induction false} GrowthAddsUp(personaId: string, fingerprint: string, es: seq<Evidence>, digest: Digest)
    ensures AddsUp(GrowAll(InitialGrowth(personaId, fingerprint, digest), es, digest), digest)
    ensures Ids(GrowAll(InitialGrowth(personaId, fingerprint, digest), es, digest)) == ValidIds(es)
    ensures GrowAll(InitialGrowth(personaId, fingerprint, digest), es, digest).revision == |ValidIds(es)|
    decreases |es|
  {
    hide AddsUp, Grow;
    var start := InitialGrowth(personaId, fingerprint, digest);
    if es == [] {
      InitialAddsUp(personaId, fingerprint, digest);
    } else {
      var front := es[..|es| - 1];
      var before := GrowAll(start, front, digest);
      GrowthAddsUp(personaId, fingerprint, front, digest);
      assert es == front + [es[|es| - 1]];
      GrowAddsUp(before, es[|es| - 1], digest);
      SnocIds(front, es[|es| - 1]);
    }
    DistinctCount(GrowAll(start, es, digest), digest);
  }

  function Ids(g: Growth): set<string> {
    set id | id in g.ids
  }

  lemma InitialAddsUp(personaId: string, fingerprint: string, digest: Digest)
    ensures AddsUp(InitialGrowth(personaId, fingerprint, digest), digest)
    ensures InitialGrowth(personaId, fingerprint, digest).ids == []
  {
    var g := Growth(personaId, fingerprint, 0, 0, 0, 0, 0, 0, [], None, "");
    assert InitialGrowth(personaId, fingerprint, digest).(hash := "") == g == g.(hash := "");
  }

  lemma SnocIds(es: seq<Evidence>, e: Evidence)
    ensures ValidIds(es + [e]) == ValidIds(es) + if Valid(e) then {e.eventId} else {}
  {
    hide Valid;
    assert e in es + [e];
    forall x | x in es
      ensures x in es + [e]
    {
    }
  }

  lemma DistinctCount(g: Growth, digest: Digest)
    requires AddsUp(g, digest)
    ensures g.revision == |Ids(g)|
  {
    DistinctSize(g.ids);
  }

  lemma {:induction false} DistinctSize(ids: seq<string>)
    requires Distinct(ids)
    ensures |set id | id in ids| == |ids|
    decreases |ids|
  {
    if ids == [] {
    } else {
      var front := ids[..|ids| - 1];
      assert ids == front + [ids[|ids| - 1]];
      DistinctSize(front);
      assert (set id | id in ids) == (set id | id in front) + {ids[|ids| - 1]};
      assert ids[|ids| - 1] !in front;
    }
  }
}
