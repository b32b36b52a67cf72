/** Recall: each memory found is classified by its governance, grouped for the affective and the
    rational side, or counted as filtered out. */
module Recall {
  import opened Wrappers
  import opened Basics
  import opened Memory

  /** A memory found; governance is None when there is none, or an empty one. */
  datatype Item = Item(id: string, governance: Option<Governance>)

  datatype Class = Affective | Rational | Filtered(category: string)

  function Classify(item: Item): Class {
    match item.governance
    case None => Filtered("ungoverned_memory_result")
    case Some(g) =>
      if g.state != "committed" then Filtered("lifecycle_" + OrElse(g.state, "unknown"))
      else if g.retention == "user_context" then Affective
      else if g.retention == "operational_lesson" || g.retention == "operational_context" then Rational
      else Filtered("retention_" + OrElse(g.retention, "unknown"))
  }

  /** The items of a class, in the order they were found. */
  function Of(items: seq<Item>, class_: Class): seq<Item> {
    if items == [] then []
    else Of(items[..|items| - 1], class_)
         + if Classify(items[|items| - 1]) == class_ then [items[|items| - 1]] else []
  }

  /** The sum of a table of counts. */
  ghost function Sum(counts: map<string, nat>): nat {
    if counts == map[] then 0
    else
      var k :| k in counts;
      counts[k] + Sum(counts - {k})
  }

  lemma {:induction false} SumWithout(counts: map<string, nat>, k: string)
    requires k in counts
    ensures Sum(counts) == counts[k] + Sum(counts - {k})
    decreases |counts|
  {
    var c :| c in counts && Sum(counts) == counts[c] + Sum(counts - {c});
    if c != k {
      SumWithout(counts - {c}, k);
      SumWithout(counts - {k}, c);
      assert counts - {c} - {k} == counts - {k} - {c};
    }
  }

  function Increment(counts: map<string, nat>, k: string): map<string, nat> {
    counts[k := (if k in counts then counts[k] else 0) + 1]
  }

  lemma SumIncrement(counts: map<string, nat>, k: string)
    ensures Sum(Increment(counts, k)) == Sum(counts) + 1
  {
    var more := Increment(counts, k);
    SumWithout(more, k);
    if k in counts {
      SumWithout(counts, k);
      assert more - {k} == counts - {k};
    } else {
      assert more - {k} == counts;
    }
  }

  datatype Context = Context(found: nat, affective: seq<Item>, rational: seq<Item>, filtered: map<string, nat>)

  /** Each group holds exactly the items of its class in order, each category counts its items, and
      groups and counts add up to what was found. */
  method BuildRecallContext(items: seq<Item>) returns (c: Context)
    ensures c.found == |items|
    ensures c.affective == Of(items, Affective)
    ensures c.rational == Of(items, Rational)
    ensures forall k :: k in c.filtered <==> Of(items, Filtered(k)) != []
    ensures forall k :: k in c.filtered ==> c.filtered[k] == |Of(items, Filtered(k))|
    ensures |c.affective| + |c.rational| + Sum(c.filtered) == c.found
  {
    hide Classify, Of, Sum, Increment;
    var affective: seq<Item>, rational: seq<Item>, filtered: map<string, nat> := [], [], map[];
    CountedNothing();
    assert items[..0] == [];
    for i := 0 to |items|
      invariant affective == Of(items[..i], Affective)
      invariant rational == Of(items[..i], Rational)
      invariant Counted(filtered, items[..i])
      invariant |affective| + |rational| + Sum(filtered) == i
    {
      OfNext(items, i, Affective);
      OfNext(items, i, Rational);
      CountedNext(filtered, items, i);
      match Classify(items[i]) {
        case Affective => affective := affective + [items[i]];
        case Rational => rational := rational + [items[i]];
        case Filtered(k) =>
          SumIncrement(filtered, k);
          filtered := Increment(filtered, k);
      }
    }
    assert items[..|items|] == items;
    c := Context(|items|, affective, rational, filtered);
  }

  ghost predicate Counted(counts: map<string, nat>, items: seq<Item>) {
    (forall k :: k in counts <==> Of(items, Filtered(k)) != [])
    && forall k :: k in counts ==> counts[k] == |Of(items, Filtered(k))|
  }

  lemma CountedNothing()
    ensures Counted(map[], []) && Sum(map[]) == 0
    ensures forall c :: Of([], c) == []
  {
  }

  lemma OfNext(items: seq<Item>, i: nat, c: Class)
    requires i < |items|
    ensures Of(items[..i + 1], c) == Of(items[..i], c) + if Classify(items[i]) == c then [items[i]] else []
  {
    hide Classify;
    assert items[..i + 1][..i] == items[..i];
  }

  lemma CountedNext(counts: map<string, nat>, items: seq<Item>, i: nat)
    requires i < |items| && Counted(counts, items[..i])
    ensures Classify(items[i]).Filtered? ==>
              Counted(Increment(counts, Classify(items[i]).category), items[..i + 1])
    ensures !Classify(items[i]).Filtered? ==> Counted(counts, items[..i + 1])
  {
    hide Classify, Of;
    forall k: string
      ensures Of(items[..i + 1], Filtered(k))
           == Of(items[..i], Filtered(k)) + if Classify(items[i]) == Filtered(k) then [items[i]] else []
    {
      OfNext(items, i, Filtered(k));
    }
  }

  lemma {:induction false} OfMembers(items: seq<Item>, class_: Class)
    ensures forall x :: x in Of(items, class_) <==> x in items && Classify(x) == class_
    decreases |items|
  {
    hide Classify;
    if items == [] {
    } else {
      OfMembers(items[..|items| - 1], class_);
      assert items == items[..|items| - 1] + [items[|items| - 1]];
    }
  }

  /** Why an item is left out: it is not governed, not committed, or of a class that is not surfaced. */
  predicate LeftOutAs(x: Item, category: string) {
    if x.governance.None? then category == "ungoverned_memory_result"
    else if x.governance.value.state != "committed" then
      category == "lifecycle_" + if x.governance.value.state != "" then x.governance.value.state else "unknown"
    else
      x.governance.value.retention !in ["user_context", "operational_lesson", "operational_context"]
      && category
         == "retention_" + if x.governance.value.retention != "" then x.governance.value.retention else "unknown"
  }

  predicate SurfacesIn(x: Item, classes: seq<string>) {
    x.governance.Some? && x.governance.value.state == "committed" && x.governance.value.retention in classes
  }

  /** Only committed governed memories are surfaced, user context on the affective side and lessons and
      context of operation on the rational one; every other item is counted under its reason. */
  lemma SurfacedIff(items: seq<Item>, x: Item)
    requires x in items
    ensures x in Of(items, Affective) <==> SurfacesIn(x, ["user_context"])
    ensures x in Of(items, Rational) <==> SurfacesIn(x, ["operational_lesson", "operational_context"])
    ensures forall k :: x in Of(items, Filtered(k)) <==> LeftOutAs(x, k)
  {
    hide Of;
    OfMembers(items, Affective);
    OfMembers(items, Rational);
    assert "user_context"[0] == 'u' && "operational_lesson"[0] == 'o' && "operational_context"[0] == 'o';
    forall k
      ensures x in Of(items, Filtered(k)) <==> LeftOutAs(x, k)
    {
      OfMembers(items, Filtered(k));
    }
  }
}
