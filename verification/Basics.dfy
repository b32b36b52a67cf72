/** Small operations the whole model shares. */
module Basics {
  /** Python's "a or b" on texts. */
  function OrElse(a: string, b: string): string {
    if a != "" then a else b
  }

  /** max(0, a - b). */
  function Monus(a: nat, b: nat): nat {
    if a < b then 0 else a - b
  }

  /** max(min, min(max, v)). */
  function Clamp(v: int, min: int, max: int): int {
    var low := if max < v then max else v;
    if min > low then min else low
  }

  function Decimal(n: nat): string {
    if n < 10 then [(('0' as int) + n) as char] else Decimal(n / 10) + [(('0' as int) + n % 10) as char]
  }

  /** What a list comprehension with a condition keeps. */
  function Filter<T>(xs: seq<T>, keep: T -> bool): seq<T> {
    if xs == [] then [] else (if keep(xs[0]) then [xs[0]] else []) + Filter(xs[1..], keep)
  }

  lemma {:induction false} FilterMembers<T(!new)>(xs: seq<T>, keep: T -> bool)
    ensures forall x :: x in Filter(xs, keep) <==> x in xs && keep(x)
    decreases |xs|
  {
    if xs != [] {
      FilterMembers(xs[1..], keep);
      assert xs == [xs[0]] + xs[1..];
    }
  }
}
