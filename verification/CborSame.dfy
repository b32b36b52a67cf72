/** Two values have the same encoding exactly when Python calls them equal, dict order aside. */
module CborSame {
  import opened Orders
  import opened Sorting
  import opened Cbor
  import opened CborRoundTrip

  // ---------- The key order ----------

  lemma KeyTrichotomy(a: Value, b: Value)
    requires Comparable(a, b)
    ensures KeyEq(a, b) || KeyLess(a, b) || KeyLess(b, a)
    ensures KeyLess(a, b) ==> !KeyLess(b, a) && !KeyEq(a, b)
  {
    if a.Text? {
      TextTotal(a.s, b.s);
      if KeyLess(a, b) {
        TextOrder(a.s, b.s, b.s);
      }
    }
  }

  lemma KeyTransitive(a: Value, b: Value, c: Value)
    requires Comparable(a, b) && Comparable(b, c) && KeyLess(a, b) && KeyLess(b, c)
    ensures KeyLess(a, c)
  {
    if a.Text? {
      LexTransitive(Codes(a.s), Codes(b.s), Codes(c.s));
    }
  }

  predicate Ascending(es: seq<Entry>) {
    forall i, j :: 0 <= i < j < |es| ==> KeyLess(es[i].key, es[j].key)
  }

  predicate Below(k: Value, es: seq<Entry>) {
    forall x :: x in es ==> KeyLess(k, x.key)
  }

  lemma AscendingCons(e: Entry, es: seq<Entry>)
    requires Below(e.key, es) && Ascending(es)
    ensures Ascending([e] + es)
  {
  }

  /** `k` can be placed before or after every key of `es`. */
  predicate Placeable(k: Value, es: seq<Entry>) {
    forall x :: x in es ==> Comparable(k, x.key) && (KeyLess(k, x.key) || KeyLess(x.key, k))
  }

  lemma BelowAll(e: Entry, es: seq<Entry>)
    requires es != [] && Ascending(es) && Placeable(e.key, es) && KeyLess(e.key, es[0].key)
    ensures Below(e.key, es)
  {
    forall x | x in es
      ensures KeyLess(e.key, x.key)
    {
      var i :| 0 <= i < |es| && es[i] == x;
      if i > 0 && !KeyLess(e.key, x.key) {
        assert es[0] in es && KeyLess(x.key, e.key) && Comparable(e.key, es[0].key);
        KeyTransitive(x.key, e.key, es[0].key);
        KeyTrichotomy(x.key, es[0].key);
      }
    }
  }

  lemma {:induction false} PlaceAscending(e: Entry, es: seq<Entry>)
    requires Ascending(es) && Placeable(e.key, es)
    ensures Ascending(Place(e, es, ByKey))
  {
    hide KeyLess, Comparable;
    if es == [] {
    } else if KeyLess(es[0].key, e.key) {
      var rest := es[1..];
      PlaceAscending(e, rest);
      forall x | x in Place(e, rest, ByKey)
        ensures KeyLess(es[0].key, x.key)
      {
        PlaceKeeps(e, rest, ByKey);
      }
      AscendingCons(es[0], Place(e, rest, ByKey));
    } else {
      assert es[0] in es;
      BelowAll(e, es);
      AscendingCons(e, es);
    }
  }

  lemma {:induction false} SortAscending(es: seq<Entry>)
    requires OneKeyKind(es) && DistinctKeys(es)
    ensures Ascending(SortEntries(es))
  {
    hide KeyLess, KeyEq, Comparable;
    if es == [] {
    } else {
      var rest := es[1..];
      assert forall i :: 0 <= i < |rest| ==> rest[i] == es[i + 1];
      SortAscending(rest);
      forall x | x in SortEntries(rest)
        ensures Comparable(es[0].key, x.key) && (KeyLess(es[0].key, x.key) || KeyLess(x.key, es[0].key))
      {
        SortedFrom(rest, x);
        var k :| 0 <= k < |rest| && rest[k] == x;
        assert Comparable(es[0].key, es[k + 1].key) && !KeyEq(es[0].key, es[k + 1].key);
        KeyTrichotomy(es[0].key, x.key);
      }
      PlaceAscending(es[0], SortEntries(rest));
    }
  }

  /** What is in order already stays as it is. */
  lemma {:induction false} SortIdle(es: seq<Entry>)
    requires Ascending(es) && OneKeyKind(es)
    ensures SortEntries(es) == es
  {
    if es == [] {
    } else {
      var rest := es[1..];
      assert forall i :: 0 <= i < |rest| ==> rest[i] == es[i + 1];
      SortIdle(rest);
      if rest != [] {
        KeyTrichotomy(es[0].key, es[1].key);
      }
      assert [es[0]] + rest == es;
    }
  }

  // ---------- The canonical value ----------

  lemma {:induction false} CanonItemsAt(items: seq<Value>, i: nat)
    requires i < |items|
    ensures CanonItems(items)[i] == Canon(items[i])
  {
    if i > 0 {
      CanonItemsAt(items[1..], i - 1);
    }
  }

  lemma {:induction false} CanonEntriesAt(es: seq<Entry>, i: nat)
    requires i < |es|
    ensures CanonEntries(es)[i] == Entry(es[i].key, Canon(es[i].value))
  {
    if i > 0 {
      CanonEntriesAt(es[1..], i - 1);
    }
  }

  lemma SortedSmaller(es: seq<Entry>, i: nat)
    requires i < |es|
    ensures SortEntries(es)[i] in es && Size(SortEntries(es)[i].value) < EntriesSize(es)
  {
    SortedFrom(es, SortEntries(es)[i]);
    var k :| 0 <= k < |es| && es[k] == SortEntries(es)[i];
    EntriesSizeSplit(es, k);
  }

  lemma {:induction false} EncodeItemsEqual(a: seq<Value>, b: seq<Value>)
    requires |a| == |b| && forall i :: 0 <= i < |a| ==> Encode(a[i]) == Encode(b[i])
    ensures EncodeItems(a) == EncodeItems(b)
  {
    hide Encode;
    if a != [] {
      EncodeItemsEqual(a[1..], b[1..]);
    }
  }

  predicate SameCode(a: seq<Entry>, b: seq<Entry>) {
    |a| == |b| && forall i :: 0 <= i < |a| ==> a[i].key == b[i].key && Encode(a[i].value) == Encode(b[i].value)
  }

  lemma {:induction false} EncodeEntriesEqual(a: seq<Entry>, b: seq<Entry>)
    requires SameCode(a, b)
    ensures EncodeEntries(a) == EncodeEntries(b)
  {
    hide Encode;
    if a != [] {
      EncodeEntriesEqual(a[1..], b[1..]);
    }
  }

  /** Sorting a dict of a sortable value: the keys ascend, and nothing else changed. */
  lemma SortedDict(es: seq<Entry>)
    requires PythonValue(Dict(es)) && Sortable(Dict(es))
    ensures Ascending(SortEntries(es)) && OneKeyKind(SortEntries(es)) && DistinctKeys(SortEntries(es))
    ensures forall e :: e in SortEntries(es) ==> e in es
  {
    hide KeyLess, KeyEq, Comparable, Encode;
    SortAscending(es);
    SortDistinct(es);
    var s := SortEntries(es);
    forall e | e in s
      ensures e in es
    {
      SortedFrom(es, e);
    }
    assert forall i :: 0 <= i < |s| ==> s[i] in es;
  }

  /** The canonical form is a fixed point: still encodable, with the same bytes. */
  lemma {:induction false} CanonKeeps(v: Value)
    requires PythonValue(v) && Encodable(v)
    ensures PythonValue(Canon(v)) && Encodable(Canon(v)) && Encode(Canon(v)) == Encode(v)
    decreases Size(v)
  {
    match v
    case List(items) =>
      var c := CanonItems(items);
      forall i | 0 <= i < |items|
        ensures PythonValue(c[i]) && Encodable(c[i]) && Encode(c[i]) == Encode(items[i])
      {
        hide Head, PythonValue, Encodable;
        CanonItemsAt(items, i);
        ItemsSizeSplit(items, i);
        CanonKeeps(items[i]);
      }
      EncodeItemsEqual(c, items);
    case Dict(es) =>
      var s := SortEntries(es);
      var c := CanonEntries(s);
      SortedDict(es);
      forall i | 0 <= i < |s|
        ensures c[i].key == s[i].key && Fits(c[i].key)
        ensures PythonValue(c[i].value) && Encodable(c[i].value) && Encode(c[i].value) == Encode(s[i].value)
      {
        hide Head;
        CanonEntriesAt(s, i);
        SortedSmaller(es, i);
        CanonKeeps(s[i].value);
      }
      SameKeys(s, c);
      CanonDict(c);
      DictCode(es, s, c);
    case _ =>
  }

  lemma CanonDict(c: seq<Entry>)
    requires |c| < TWO64 && OneKeyKind(c) && DistinctKeys(c)
    requires forall i :: 0 <= i < |c| ==> Fits(c[i].key) && PythonValue(c[i].value) && Encodable(c[i].value)
    ensures PythonValue(Dict(c)) && Encodable(Dict(c))
  {
    hide OneKeyKind, DistinctKeys;
  }

  lemma SameKeys(s: seq<Entry>, c: seq<Entry>)
    requires |c| == |s| && forall i :: 0 <= i < |s| ==> c[i].key == s[i].key
    ensures OneKeyKind(s) ==> OneKeyKind(c)
    ensures DistinctKeys(s) ==> DistinctKeys(c)
    ensures Ascending(s) ==> Ascending(c)
  {
    hide KeyLess, KeyEq, Comparable, Hashable;
  }

  lemma DictCode(es: seq<Entry>, s: seq<Entry>, c: seq<Entry>)
    requires s == SortEntries(es) && Ascending(s) && OneKeyKind(s) && SameCode(c, s)
    ensures Encode(Dict(c)) == Encode(Dict(es))
  {
    hide KeyLess, Comparable, EncodeEntries, Head, Place;
    SameKeys(s, c);
    SortIdle(c);
    EncodeEntriesEqual(c, s);
  }

  lemma {:induction false} CanonImpliesSame(v: Value, w: Value)
    requires Canon(v) == Canon(w)
    ensures Same(v, w)
    decreases Size(v)
  {
    match v
    case List(items) =>
      assert w.List?;
      assert |CanonItems(items)| == |CanonItems(w.items)|;
      forall i | 0 <= i < |items|
        ensures Same(items[i], w.items[i])
      {
        hide Same;
        CanonItemsAt(items, i);
        CanonItemsAt(w.items, i);
        ItemsSizeSplit(items, i);
        CanonImpliesSame(items[i], w.items[i]);
      }
    case Dict(es) =>
      assert w.Dict?;
      var s, t := SortEntries(es), SortEntries(w.entries);
      assert CanonEntries(s) == CanonEntries(t);
      forall i | 0 <= i < |es|
        ensures HasEntry(es[i], w.entries)
      {
        SortedFrom(es, es[i]);
        var p :| 0 <= p < |s| && s[p] == es[i];
        CanonEntriesAt(s, p);
        CanonEntriesAt(t, p);
        EntriesSizeSplit(es, i);
        CanonImpliesSame(es[i].value, t[p].value);
        SortedFrom(w.entries, t[p]);
        var j :| 0 <= j < |w.entries| && w.entries[j] == t[p];
      }
    case _ =>
  }

  /** Strictly increasing indices into a sequence of their own length are the identity. */
  lemma {:induction false} IndicesAreIdentity(f: seq<nat>, i: nat)
    requires forall a, b :: 0 <= a < b < |f| ==> f[a] < f[b]
    requires forall a :: 0 <= a < |f| ==> f[a] < |f|
    requires i < |f|
    ensures f[i] == i
  {
    AtLeast(f, i);
    AtMost(f, i);
  }

  lemma {:induction false} AtLeast(f: seq<nat>, i: nat)
    requires forall a, b :: 0 <= a < b < |f| ==> f[a] < f[b]
    requires i < |f|
    ensures i <= f[i]
  {
    if i > 0 {
      AtLeast(f, i - 1);
    }
  }

  lemma {:induction false} AtMost(f: seq<nat>, i: nat)
    requires forall a, b :: 0 <= a < b < |f| ==> f[a] < f[b]
    requires forall a :: 0 <= a < |f| ==> f[a] < |f|
    requires i < |f|
    ensures f[i] <= i
    decreases |f| - i
  {
    if i + 1 < |f| {
      AtMost(f, i + 1);
    }
  }

  /** In two ascending sequences of one length, keys that all occur stand at the same place. */
  lemma KeysAlign(s: seq<Entry>, t: seq<Entry>, f: seq<nat>)
    requires Ascending(s) && Ascending(t) && OneKeyKind(s) && OneKeyKind(t) && |s| == |t| == |f|
    requires forall i :: 0 <= i < |s| ==> f[i] < |t| && t[f[i]].key == s[i].key
    ensures forall i :: 0 <= i < |s| ==> f[i] == i
  {
    hide KeyLess, Comparable;
    forall a, b | 0 <= a < b < |f|
      ensures f[a] < f[b]
    {
      assert KeyLess(s[a].key, s[b].key);
      if f[b] < f[a] {
        assert KeyLess(t[f[b]].key, t[f[a]].key);
        KeyTrichotomy(s[a].key, s[b].key);
      } else if f[a] == f[b] {
        KeyTrichotomy(s[a].key, s[a].key);
      }
    }
    forall i | 0 <= i < |s|
      ensures f[i] == i
    {
      IndicesAreIdentity(f, i);
    }
  }

  lemma {:induction false} SameImpliesCanon(v: Value, w: Value)
    requires PythonValue(v) && Sortable(v) && PythonValue(w) && Sortable(w)
    requires Same(v, w)
    ensures Canon(v) == Canon(w)
    decreases Size(v)
  {
    match v
    case List(items) =>
      forall i | 0 <= i < |items|
        ensures CanonItems(items)[i] == CanonItems(w.items)[i]
      {
        CanonItemsAt(items, i);
        CanonItemsAt(w.items, i);
        ItemsSizeSplit(items, i);
        SameImpliesCanon(items[i], w.items[i]);
      }
      assert CanonItems(items) == CanonItems(w.items);
    case Dict(es) =>
      SameDicts(es, w.entries);
    case _ =>
  }

  lemma {:induction false} SameDicts(a: seq<Entry>, b: seq<Entry>)
    requires PythonValue(Dict(a)) && Sortable(Dict(a)) && PythonValue(Dict(b)) && Sortable(Dict(b))
    requires Same(Dict(a), Dict(b))
    ensures CanonEntries(SortEntries(a)) == CanonEntries(SortEntries(b))
    decreases EntriesSize(a), 1
  {
    var s, t := SortEntries(a), SortEntries(b);
    SortedDict(a);
    SortedDict(b);
    forall i | 0 <= i < |s|
      ensures HasEntry(s[i], t)
    {
      HasSorted(a, b, s[i]);
    }
    var f := seq(|s|, i requires 0 <= i < |s| => Witness(s[i], t));
    KeysAlign(s, t, f);
    forall i | 0 <= i < |s|
      ensures CanonEntries(s)[i] == CanonEntries(t)[i]
    {
      CanonEntriesAt(s, i);
      CanonEntriesAt(t, i);
      assert f[i] == i && Same(s[i].value, t[i].value);
      SortedSmaller(a, i);
      SortedSmaller(b, i);
      SameImpliesCanon(s[i].value, t[i].value);
    }
  }

  ghost function Witness(e: Entry, others: seq<Entry>): (j: nat)
    requires HasEntry(e, others)
    ensures j < |others| && others[j].key == e.key && Same(e.value, others[j].value)
  {
    var j :| 0 <= j < |others| && others[j].key == e.key && Same(e.value, others[j].value);
    j
  }

  lemma HasSorted(a: seq<Entry>, b: seq<Entry>, e: Entry)
    requires Same(Dict(a), Dict(b)) && e in a
    ensures HasEntry(e, SortEntries(b))
  {
    var i :| 0 <= i < |a| && a[i] == e;
    var j := Witness(e, b);
    SortedFrom(b, b[j]);
    var q :| 0 <= q < |b| && SortEntries(b)[q] == b[j];
  }

  // ---------- The main result ----------

  /** Insertion order never shows on the wire, and nothing else is ever lost. */
  lemma EncodeSame(v: Value, w: Value)
    requires PythonValue(v) && Encodable(v) && PythonValue(w) && Encodable(w)
    ensures Encode(v) == Encode(w) <==> Same(v, w)
  {
    hide Same, Encode, Canon;
    if Encode(v) == Encode(w) {
      PrefixFree(v, w);
      CanonImpliesSame(v, w);
    }
    if Same(v, w) {
      SameImpliesCanon(v, w);
      CanonKeeps(v);
      CanonKeeps(w);
    }
  }

  /** What comes back from the wire is what was sent. */
  lemma RoundTripSame(v: Value)
    requires PythonValue(v) && Encodable(v)
    ensures Decode(Encode(v)).Ok? && Same(v, Decode(Encode(v)).value)
  {
    RoundTrip(v);
    CanonKeeps(v);
    EncodeSame(v, Canon(v));
  }

  lemma CanonIdempotent(v: Value)
    requires PythonValue(v) && Encodable(v)
    ensures Canon(Canon(v)) == Canon(v)
  {
    hide Encode, Canon, PythonValue, Encodable;
    CanonKeeps(v);
    PrefixFree(v, Canon(v));
  }

  lemma {:induction false} SameTransitive(v: Value, w: Value, x: Value)
    requires Same(v, w) && Same(w, x)
    ensures Same(v, x)
    decreases v
  {
    match v
    case List(items) =>
      forall i | 0 <= i < |items|
        ensures Same(items[i], x.items[i])
      {
        SameTransitive(items[i], w.items[i], x.items[i]);
      }
    case Dict(es) =>
      forall i | 0 <= i < |es|
        ensures HasEntry(es[i], x.entries)
      {
        var j := Witness(es[i], w.entries);
        var k := Witness(w.entries[j], x.entries);
        assert es[i].value < es[i];
        SameTransitive(es[i].value, w.entries[j].value, x.entries[k].value);
      }
    case _ =>
  }
}
