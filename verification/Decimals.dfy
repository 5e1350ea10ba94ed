/** Decimals as Python keeps them: a whole coefficient and a number of decimal
    places. 1.5 and 1.50 are equal numbers but print differently. */
module Decimals {
  import opened Sums
  import opened Permutations

  datatype Dec = Dec(coef: int, scale: nat)

  const ZERO := Dec(0, 0)

  function Pow10(n: nat): nat
    ensures Pow10(n) > 0
  {
    if n == 0 then 1 else 10 * Pow10(n - 1)
  }

  function Max(a: nat, b: nat): nat { if a >= b then a else b }

  /** The coefficient of d at a finer scale. */
  function At(d: Dec, scale: nat): int
    requires scale >= d.scale
  {
    d.coef * Pow10(scale - d.scale)
  }

  /** The sum keeps the finer scale of the two. */
  function Add(a: Dec, b: Dec): Dec {
    var s := Max(a.scale, b.scale);
    Dec(At(a, s) + At(b, s), s)
  }

  /** Numeric order. */
  predicate Below(a: Dec, b: Dec) {
    var s := Max(a.scale, b.scale);
    At(a, s) < At(b, s)
  }

  /** Left to right from zero, as a running total adds up. */
  function Total(s: seq<Dec>): Dec {
    if s == [] then ZERO else Add(Total(s[..|s| - 1]), s[|s| - 1])
  }

  lemma {:induction false} Pow10Add(m: nat, n: nat)
    ensures Pow10(m + n) == Pow10(m) * Pow10(n)
  {
    if m > 0 {
      Pow10Add(m - 1, n);
    }
  }

  lemma AtTwice(d: Dec, s: nat, t: nat)
    requires d.scale <= s <= t
    ensures At(Dec(At(d, s), s), t) == At(d, t)
  {
    Pow10Add(s - d.scale, t - s);
  }

  lemma SumAt(a: Dec, b: Dec, t: nat)
    requires a.scale <= t && b.scale <= t
    ensures At(Add(a, b), t) == At(a, t) + At(b, t)
  {
    var s := Max(a.scale, b.scale);
    AtTwice(a, s, t);
    AtTwice(b, s, t);
    assert (At(a, s) + At(b, s)) * Pow10(t - s) == At(a, s) * Pow10(t - s) + At(b, s) * Pow10(t - s);
  }

  /** Below compares the numbers, whatever their scales. */
  lemma BelowIsOrder(a: Dec, b: Dec, t: nat)
    requires a.scale <= t && b.scale <= t
    ensures Below(a, b) <==> At(a, t) < At(b, t)
  {
    var s := Max(a.scale, b.scale);
    AtTwice(a, s, t);
    AtTwice(b, s, t);
    ScaledOrder(At(a, s), At(b, s), Pow10(t - s));
  }

  lemma ScaledOrder(x: int, y: int, p: int)
    requires p > 0
    ensures x < y <==> x * p < y * p
  {
    assert (y - x) * p == y * p - x * p;
  }

  /** Adding in another order gives the same digits, not just the same number. */
  lemma AddExchange(a: Dec, b: Dec, c: Dec)
    ensures Add(Add(a, b), c) == Add(Add(a, c), b)
  {
    var t := Max(a.scale, Max(b.scale, c.scale));
    SumAt(a, b, t);
    SumAt(a, c, t);
  }

  lemma {:induction false} TotalWithout(s: seq<Dec>, i: nat)
    requires i < |s|
    ensures Total(s) == Add(Total(Without(s, i)), s[i])
  {
    var n := |s| - 1;
    if i == n {
      assert Without(s, i) == s[..n];
    } else {
      TotalWithout(s[..n], i);
      assert Without(s, i)[..n - 1] == Without(s[..n], i);
      AddExchange(Total(Without(s[..n], i)), s[i], s[n]);
    }
  }

  /** A total, digits included, does not depend on the order of its terms. */
  lemma {:induction false} TotalPermutes(s: seq<Dec>, t: seq<Dec>)
    requires multiset(s) == multiset(t)
    ensures Total(s) == Total(t)
  {
    SameLength(s, t);
    if s != [] {
      var i := MatchLast(s, t);
      TotalPermutes(s[..|s| - 1], Without(t, i));
      TotalWithout(t, i);
    }
  }

  predicate Covers(scale: nat, s: seq<Dec>) {
    forall i :: 0 <= i < |s| ==> s[i].scale <= scale
  }

  function Terms(s: seq<Dec>, scale: nat): seq<int>
    requires Covers(scale, s)
  {
    seq(|s|, i requires 0 <= i < |s| => At(s[i], scale))
  }

  /** At any scale fine enough for every term, the total is the exact sum. */
  lemma {:induction false} TotalIsExact(s: seq<Dec>, scale: nat)
    requires Covers(scale, s)
    ensures Total(s).scale <= scale && At(Total(s), scale) == Sum(Terms(s, scale))
  {
    if s != [] {
      var n := |s| - 1;
      TotalIsExact(s[..n], scale);
      SumAt(Total(s[..n]), s[n], scale);
      assert Terms(s, scale)[..n] == Terms(s[..n], scale);
    }
  }
}
