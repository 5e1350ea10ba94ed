/** Rounding of an exact quotient to a whole number, ties to the even neighbour
    (roundTiesToEven, section 4.3.1 of IEEE 754-2008): what Python's
    Decimal.quantize does by default. */
module Rounding {
  import opened Division

  /** n/d rounded to the nearest integer, ties to even. */
  function RoundHalfEven(n: int, d: int): int
    requires d > 0
  {
    var q, rem := n / d, n % d;
    if 2 * rem < d || (2 * rem == d && q % 2 == 0) then q else q + 1
  }

  /** The defining property of the rounded value: no integer is closer to n/d,
      and on a tie it is the even one. */
  ghost predicate IsNearestEven(r: int, n: int, d: int)
    requires d > 0
  {
    && -d <= 2 * (r * d - n) <= d
    && (2 * (r * d - n) == d || 2 * (r * d - n) == -d ==> r % 2 == 0)
  }

  lemma RoundIsNearestEven(n: int, d: int)
    requires d > 0
    ensures IsNearestEven(RoundHalfEven(n, d), n, d)
  {
    QuotientBounds(n, d);
  }

  /** Two multiples of d no further apart than d are neighbours. */
  lemma Neighbours(r: int, s: int, d: int)
    requires d > 0 && r < s && s * d - r * d <= d
    ensures s == r + 1 && s * d == r * d + d
  {
    assert (s - r) * d == s * d - r * d;
    if s - r >= 2 {
      ScaledAtMost(2, s - r, d);
      assert false;
    }
    assert (r + 1) * d == r * d + d;
  }

  /** Rounding is monotone whatever function does it: nearest-even alone forces it. */
  lemma NearestEvenMonotone(r: int, s: int, n: int, m: int, d: int)
    requires d > 0 && n <= m && IsNearestEven(r, n, d) && IsNearestEven(s, m, d)
    ensures r <= s
  {
    if s < r {
      Neighbours(s, r, d);
    }
  }

  /** Nearest-even determines the result, so RoundHalfEven is the only such function. */
  lemma NearestEvenUnique(r: int, s: int, n: int, d: int)
    requires d > 0 && IsNearestEven(r, n, d) && IsNearestEven(s, n, d)
    ensures r == s
  {
    NearestEvenMonotone(r, s, n, n, d);
    NearestEvenMonotone(s, r, n, n, d);
  }

  lemma RoundMonotone(n: int, m: int, d: int)
    requires d > 0 && n <= m
    ensures RoundHalfEven(n, d) <= RoundHalfEven(m, d)
  {
    RoundIsNearestEven(n, d);
    RoundIsNearestEven(m, d);
    NearestEvenMonotone(RoundHalfEven(n, d), RoundHalfEven(m, d), n, m, d);
  }

  /** A whole quotient is left alone. */
  lemma RoundExact(q: int, d: int)
    requires d > 0
    ensures RoundHalfEven(q * d, d) == q
  {
    RoundIsNearestEven(q * d, d);
    NearestEvenUnique(RoundHalfEven(q * d, d), q, q * d, d);
  }

  lemma HalfOf(e: real, d: real, k: real)
    requires d > 0.0 && e * d == k && -d <= 2.0 * k <= d
    ensures -0.5 <= e <= 0.5
  {
    assert (0.5 - e) * d == 0.5 * d - k;
    assert (0.5 + e) * d == 0.5 * d + k;
  }

  lemma DifferenceOfQuotient(r: int, n: int, d: int)
    requires d > 0
    ensures (r as real - n as real / d as real) * d as real == (r * d - n) as real
  {
    var x := n as real / d as real;
    assert x * d as real == n as real;
    assert (r * d) as real == r as real * d as real;
    assert (r as real - x) * d as real == r as real * d as real - x * d as real;
  }

  lemma ErrorOf(r: int, n: int, d: int, k: int)
    requires d > 0 && k == r * d - n && -d <= 2 * k <= d
    ensures -0.5 <= r as real - n as real / d as real <= 0.5
  {
    DifferenceOfQuotient(r, n, d);
    HalfOf(r as real - n as real / d as real, d as real, k as real);
  }

  /** The rounding error is at most one half. */
  lemma RoundError(n: int, d: int)
    requires d > 0
    ensures -0.5 <= RoundHalfEven(n, d) as real - n as real / d as real <= 0.5
  {
    var r := RoundHalfEven(n, d);
    RoundIsNearestEven(n, d);
    ErrorOf(r, n, d, r * d - n);
  }
}
