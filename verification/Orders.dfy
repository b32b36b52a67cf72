/** Orders shared by the model: lexicographic comparison of integer sequences,
    which is how bytes compare and, through code points, how text compares. */
module Orders {

  /** The strict lexicographic order; a proper prefix comes first. */
  predicate LexLess(a: seq<int>, b: seq<int>)
    decreases |a|
  {
    if b == [] then false
    else if a == [] then true
    else if a[0] != b[0] then a[0] < b[0]
    else LexLess(a[1..], b[1..])
  }

  lemma {:induction false} LexIrreflexive(a: seq<int>)
    ensures !LexLess(a, a)
    decreases |a|
  {
    if a == [] {
    } else {
      LexIrreflexive(a[1..]);
    }
  }

  lemma {:induction false} LexTransitive(a: seq<int>, b: seq<int>, c: seq<int>)
    requires LexLess(a, b) && LexLess(b, c)
    ensures LexLess(a, c)
    decreases |a|
  {
    if a == [] {
    } else if a[0] == b[0] == c[0] {
      LexTransitive(a[1..], b[1..], c[1..]);
    }
  }

  lemma {:induction false} LexTotal(a: seq<int>, b: seq<int>)
    ensures a == b || LexLess(a, b) || LexLess(b, a)
    decreases |a|
  {
    if a == [] || b == [] {
    } else if a[0] == b[0] {
      LexTotal(a[1..], b[1..]);
      if a[1..] == b[1..] {
        assert a == [a[0]] + a[1..] == b;
      }
    }
  }

  lemma LexAsymmetric(a: seq<int>, b: seq<int>)
    requires LexLess(a, b)
    ensures !LexLess(b, a) && a != b
  {
    LexIrreflexive(a);
    if LexLess(b, a) {
      LexTransitive(a, b, a);
    }
  }

  /** A common prefix does not matter. */
  lemma {:induction false} LexPrefix(p: seq<int>, a: seq<int>, b: seq<int>)
    ensures LexLess(p + a, p + b) == LexLess(a, b)
    decreases |p|
  {
    if p == [] {
      assert p + a == a && p + b == b;
    } else {
      assert (p + a)[1..] == p[1..] + a && (p + b)[1..] == p[1..] + b;
      LexPrefix(p[1..], a, b);
    }
  }

  /** The first position where two sequences differ decides. */
  lemma {:induction false} LexFirstDifference(a: seq<int>, b: seq<int>, i: nat)
    requires i < |a| && i < |b| && a[..i] == b[..i] && a[i] < b[i]
    ensures LexLess(a, b)
    decreases i
  {
    if i == 0 {
    } else {
      assert a[0] == a[..i][0] == b[..i][0] == b[0];
      assert a[1..][..i - 1] == a[..i][1..] == b[..i][1..] == b[1..][..i - 1];
      LexFirstDifference(a[1..], b[1..], i - 1);
    }
  }

  /** The code points of a text. */
  function Codes(s: string): (r: seq<int>)
    ensures |r| == |s| && forall i :: 0 <= i < |s| ==> r[i] == s[i] as int
  {
    seq(|s|, i requires 0 <= i < |s| => s[i] as int)
  }

  /** Text compares by code points. */
  predicate TextLess(a: string, b: string) {
    LexLess(Codes(a), Codes(b))
  }

  lemma TextTotal(a: string, b: string)
    ensures a == b || TextLess(a, b) || TextLess(b, a)
  {
    LexTotal(Codes(a), Codes(b));
    if Codes(a) == Codes(b) {
      forall i | 0 <= i < |a|
        ensures a[i] == b[i]
      {
        assert Codes(a)[i] == Codes(b)[i];
      }
    }
  }

  /** What sorting by text needs: asymmetry, transitivity of "not less", totality. */
  lemma TextOrder(a: string, b: string, c: string)
    ensures TextLess(a, b) ==> !TextLess(b, a) && a != b
    ensures !TextLess(b, a) && !TextLess(c, b) ==> !TextLess(c, a)
    ensures a == b || TextLess(a, b) || TextLess(b, a)
  {
    TextTotal(a, b);
    TextTotal(b, c);
    if TextLess(a, b) {
      LexAsymmetric(Codes(a), Codes(b));
    }
    if TextLess(c, a) && TextLess(a, b) {
      LexTransitive(Codes(c), Codes(a), Codes(b));
    }
  }

  /** The first texts decide, and the second ones if those are equal. */
  predicate PairLess(a: (string, string), b: (string, string)) {
    TextLess(a.0, b.0) || (a.0 == b.0 && TextLess(a.1, b.1))
  }

  lemma PairOrder(a: (string, string), b: (string, string), c: (string, string))
    ensures PairLess(a, b) ==> !PairLess(b, a)
    ensures !PairLess(b, a) && !PairLess(c, b) ==> !PairLess(c, a)
    ensures a == b || PairLess(a, b) || PairLess(b, a)
  {
    hide TextLess;
    TextOrder(a.0, b.0, c.0);
    TextOrder(b.0, c.0, a.0);
    TextOrder(a.1, b.1, c.1);
  }
}
