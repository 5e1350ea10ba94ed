/** Whole-number division by a positive divisor. */
module Division {

  lemma QuotientBounds(n: int, d: int)
    requires d > 0
    ensures (n / d) * d <= n < (n / d) * d + d && (n / d + 1) * d == (n / d) * d + d
  {
    assert n == (n / d) * d + n % d;
  }

  lemma ScaledAtMost(p: int, q: int, d: int)
    requires p <= q && d > 0
    ensures p * d <= q * d
  {
    assert (q - p) * d >= 0;
  }

  /** The quotient lies between any whole numbers whose multiples bracket the dividend. */
  lemma QuotientBetween(n: int, d: int, low: int, high: int)
    requires d > 0 && low * d <= n < (high + 1) * d
    ensures low <= n / d <= high
  {
    QuotientBounds(n, d);
    if n / d < low {
      ScaledAtMost(n / d + 1, low, d);
      assert false;
    }
    if n / d > high {
      ScaledAtMost(high + 1, n / d, d);
      assert false;
    }
  }

  lemma QuotientUnique(n: int, d: int, q: int)
    requires d > 0 && q * d <= n < q * d + d
    ensures n / d == q
  {
    assert (q + 1) * d == q * d + d;
    QuotientBetween(n, d, q, q);
  }
}
