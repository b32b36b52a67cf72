/** Sorting by an order that is passed in. Elements that the order does not separate keep their
    places, as with Python's `sorted`. */
module Sorting {

  /** Puts an element before the first one that does not come before it. */
  function Place<T>(x: T, xs: seq<T>, before: (T, T) -> bool): seq<T> {
    if xs == [] then [x]
    else if before(xs[0], x) then [xs[0]] + Place(x, xs[1..], before)
    else [x] + xs
  }

  function Sort<T>(xs: seq<T>, before: (T, T) -> bool): seq<T> {
    if xs == [] then [] else Place(xs[0], Sort(xs[1..], before), before)
  }

  /** What comes before is asymmetric, and not coming before is transitive. */
  ghost predicate WeakOrder<T(!new)>(before: (T, T) -> bool) {
    && (forall a, b :: before(a, b) ==> !before(b, a))
    && (forall a, b, c :: !before(b, a) && !before(c, b) ==> !before(c, a))
  }

  /** Every element is so related to every later one. */
  predicate Pairwise<T>(xs: seq<T>, rel: (T, T) -> bool) {
    forall i, j :: 0 <= i < j < |xs| ==> rel(xs[i], xs[j])
  }

  lemma PairwiseTail<T>(xs: seq<T>, rel: (T, T) -> bool)
    requires Pairwise(xs, rel) && xs != []
    ensures Pairwise(xs[1..], rel) && forall y :: y in xs[1..] ==> rel(xs[0], y)
  {
    forall y | y in xs[1..]
      ensures rel(xs[0], y)
    {
      var i :| 0 <= i < |xs[1..]| && xs[1..][i] == y;
      assert xs[i + 1] == y;
    }
    forall i, j | 0 <= i < j < |xs[1..]|
      ensures rel(xs[1..][i], xs[1..][j])
    {
      assert xs[1..][j] == xs[j + 1] && xs[1..][i] == xs[i + 1];
    }
  }

  lemma PairwiseCons<T>(x: T, xs: seq<T>, rel: (T, T) -> bool)
    requires Pairwise(xs, rel) && forall y :: y in xs ==> rel(x, y)
    ensures Pairwise([x] + xs, rel)
  {
    var all := [x] + xs;
    forall i, j | 0 <= i < j < |all|
      ensures rel(all[i], all[j])
    {
      assert all[j] == xs[j - 1] && xs[j - 1] in xs;
    }
  }

  function NotAfter<T>(before: (T, T) -> bool): (T, T) -> bool {
    (x, y) => !before(y, x)
  }

  /** No element stands after one it comes before. */
  predicate Ordered<T>(xs: seq<T>, before: (T, T) -> bool) {
    Pairwise(xs, NotAfter(before))
  }

  lemma {:induction false} PlaceKeeps<T>(x: T, xs: seq<T>, before: (T, T) -> bool)
    ensures multiset(Place(x, xs, before)) == multiset(xs) + multiset{x}
    ensures forall y :: y in Place(x, xs, before) <==> y == x || y in xs
    ensures |Place(x, xs, before)| == |xs| + 1
    decreases |xs|
  {
    if xs != [] {
      PlaceKeeps(x, xs[1..], before);
      assert xs == [xs[0]] + xs[1..];
    }
  }

  /** Sorting permutes. */
  lemma {:induction false} SortKeeps<T>(xs: seq<T>, before: (T, T) -> bool)
    ensures multiset(Sort(xs, before)) == multiset(xs)
    ensures forall y :: y in Sort(xs, before) <==> y in xs
    ensures |Sort(xs, before)| == |xs|
    decreases |xs|
  {
    hide Place;
    if xs != [] {
      SortKeeps(xs[1..], before);
      PlaceKeeps(xs[0], Sort(xs[1..], before), before);
      assert xs == [xs[0]] + xs[1..];
    }
  }

  lemma {:induction false} PlaceOrders<T(!new)>(x: T, xs: seq<T>, before: (T, T) -> bool)
    requires WeakOrder(before) && Ordered(xs, before)
    ensures Ordered(Place(x, xs, before), before)
    decreases |xs|
  {
    if xs == [] {
    } else {
      PairwiseTail(xs, NotAfter(before));
      if before(xs[0], x) {
        PlaceOrders(x, xs[1..], before);
        PlaceKeeps(x, xs[1..], before);
        PairwiseCons(xs[0], Place(x, xs[1..], before), NotAfter(before));
      } else {
        assert xs == [xs[0]] + xs[1..];
        PairwiseCons(x, xs, NotAfter(before));
      }
    }
  }

  /** The outcome is in order. */
  lemma {:induction false} SortOrders<T(!new)>(xs: seq<T>, before: (T, T) -> bool)
    requires WeakOrder(before)
    ensures Ordered(Sort(xs, before), before)
    decreases |xs|
  {
    hide Place, WeakOrder;
    if xs != [] {
      SortOrders(xs[1..], before);
      PlaceOrders(xs[0], Sort(xs[1..], before), before);
    }
  }

  // ---------- Permutations ----------

  lemma StrictHead<T(!new)>(a: seq<T>, b: seq<T>, before: (T, T) -> bool)
    requires WeakOrder(before) && Pairwise(a, before) && Pairwise(b, before)
    requires multiset(a) == multiset(b) && a != [] && b != []
    ensures a[0] == b[0]
  {
    assert a[0] in multiset(b) && b[0] in multiset(a);
    var i :| 0 <= i < |b| && b[i] == a[0];
    var j :| 0 <= j < |a| && a[j] == b[0];
    if i > 0 && j > 0 {
      assert false;
    }
  }

  /** A strictly ordered sequence is determined by its elements. */
  lemma {:induction false} StrictUnique<T(!new)>(a: seq<T>, b: seq<T>, before: (T, T) -> bool)
    requires WeakOrder(before) && Pairwise(a, before) && Pairwise(b, before) && multiset(a) == multiset(b)
    ensures a == b
    decreases |a|
  {
    hide WeakOrder, Pairwise;
    assert |multiset(a)| == |multiset(b)|;
    if a != [] {
      StrictHead(a, b, before);
      assert a == [a[0]] + a[1..] && b == [b[0]] + b[1..];
      assert multiset(a[1..]) == multiset(a) - multiset{a[0]};
      assert multiset(b[1..]) == multiset(b) - multiset{b[0]};
      PairwiseTail(a, before);
      PairwiseTail(b, before);
      StrictUnique(a[1..], b[1..], before);
    }
  }

  function Omit<T>(s: seq<T>, i: nat): seq<T>
    requires i < |s|
  {
    s[..i] + s[i + 1..]
  }

  lemma OmitMultiset<T>(s: seq<T>, i: nat)
    requires i < |s|
    ensures multiset(s) == multiset(Omit(s, i)) + multiset{s[i]}
  {
    assert s == s[..i] + [s[i]] + s[i + 1..];
  }

  lemma TwiceAt<T>(s: seq<T>, i: nat, j: nat)
    requires i < j < |s| && s[i] == s[j]
    ensures multiset(s)[s[i]] >= 2
  {
    OmitMultiset(s, i);
    assert Omit(s, i)[j - 1] == s[j];
    assert s[j] in multiset(Omit(s, i));
  }

  lemma TwiceIn<T>(s: seq<T>, x: T)
    requires multiset(s)[x] >= 2
    ensures exists i, j :: 0 <= i < j < |s| && s[i] == s[j] == x
  {
    var i :| 0 <= i < |s| && s[i] == x;
    OmitMultiset(s, i);
    assert x in multiset(Omit(s, i));
    var m :| 0 <= m < |Omit(s, i)| && Omit(s, i)[m] == x;
    if m < i {
      assert s[m] == x;
    } else {
      assert s[m + 1] == x;
    }
  }

  /** What holds of all pairs either way round does not depend on the order. */
  lemma PairwiseKept<T(!new)>(a: seq<T>, b: seq<T>, rel: (T, T) -> bool)
    requires Pairwise(a, rel) && multiset(a) == multiset(b) && forall x, y :: rel(x, y) == rel(y, x)
    ensures Pairwise(b, rel)
  {
    forall i, j | 0 <= i < j < |b|
      ensures rel(b[i], b[j])
    {
      assert b[i] in multiset(a) && b[j] in multiset(a);
      var k :| 0 <= k < |a| && a[k] == b[i];
      var l :| 0 <= l < |a| && a[l] == b[j];
      if b[i] == b[j] {
        TwiceAt(b, i, j);
        TwiceIn(a, b[i]);
      }
    }
  }

  // ---------- Limits ----------

  function Take<T>(s: seq<T>, limit: nat): seq<T> {
    if limit < |s| then s[..limit] else s
  }

  /** What a limited query leaves out does not come before what it returns. */
  lemma TakenFirst<T(!new)>(xs: seq<T>, before: (T, T) -> bool, limit: nat, left: T, taken: T)
    requires WeakOrder(before) && left in xs
    requires left !in Take(Sort(xs, before), limit) && taken in Take(Sort(xs, before), limit)
    ensures |Take(Sort(xs, before), limit)| == limit && !before(left, taken)
  {
    hide WeakOrder, Sort;
    var order := Sort(xs, before);
    SortKeeps(xs, before);
    SortOrders(xs, before);
    var j :| 0 <= j < |order| && order[j] == left;
    var i :| 0 <= i < |Take(order, limit)| && Take(order, limit)[i] == taken;
    forall m | 0 <= m < |Take(order, limit)|
      ensures order[m] in Take(order, limit)
    {
      assert Take(order, limit)[m] == order[m];
    }
  }
}
