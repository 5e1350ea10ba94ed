/** Features of an agent's revenue history. Floats are modelled as reals; a series
    is the daily revenue, most recent day first. */
module Features {
  import opened Wrappers
  import opened Sums
  import opened Vectors

  function Reverse(s: seq<real>): seq<real> {
    seq(|s|, i requires 0 <= i < |s| => s[|s| - 1 - i])
  }

  // ----- Revenue trend -----

  /** The mean of 0..n-1. */
  function MeanIndex(n: nat): real { (n as real - 1.0) / 2.0 }

  function Centered(n: nat): seq<real> {
    seq(n, i requires 0 <= i < n => i as real - MeanIndex(n))
  }

  function Mean(s: seq<real>): real
    requires s != []
  {
    SumR(s) / |s| as real
  }

  /** The fitted slope of y against the day index. */
  function Slope(y: seq<real>): real
    requires |y| >= 2
  {
    var c := Centered(|y|);
    SpreadPositive(|y|);
    Dot(c, y, |y|) / Dot(c, c, |y|)
  }

  const MIN_TREND_DAYS := 7

  function RevenueTrend(series: seq<real>): real {
    if |series| < MIN_TREND_DAYS then 0.0
    else
      var y := Reverse(series);
      var meanY := Mean(y);
      if meanY == 0.0 then 0.0 else Slope(y) / meanY
  }

  lemma {:induction false} SpreadTo(c: seq<real>, m: real, k: nat)
    requires k <= |c| && forall i :: 0 <= i < |c| ==> c[i] == i as real - m
    ensures var r := k as real;
      Dot(c, c, k) == r * (r - 1.0) * (2.0 * r - 1.0) / 6.0 - m * r * (r - 1.0) + r * m * m
  {
    if k > 0 {
      SpreadTo(c, m, k - 1);
      var r := k as real;
      assert (k - 1) as real == r - 1.0;
      var d := r - 1.0 - m;
      assert d * d == (r - 1.0) * (r - 1.0) - 2.0 * m * (r - 1.0) + m * m;
    }
  }

  /** The denominator of the slope is n (n^2 - 1) / 12. */
  lemma SpreadClosedForm(n: nat)
    ensures Dot(Centered(n), Centered(n), n) == n as real * (n as real * n as real - 1.0) / 12.0
  {
    SpreadTo(Centered(n), MeanIndex(n), n);
  }

  lemma SpreadPositive(n: nat)
    requires n >= 2
    ensures Dot(Centered(n), Centered(n), n) > 0.0
  {
    SpreadClosedForm(n);
    assert n as real * n as real >= 4.0;
  }

  lemma CenteredAt(n: nat, i: nat)
    requires i < n
    ensures 2.0 * Centered(n)[i] == (2 * i - n + 1) as real
  {
    assert Centered(n)[i] == i as real - MeanIndex(n);
    assert MeanIndex(n) * 2.0 == n as real - 1.0;
  }

  lemma {:induction false} CenteredSumTo(n: nat, k: nat)
    requires k <= n
    ensures SumR(Centered(n)[..k]) == k as real * (k as real - n as real) / 2.0
  {
    if k > 0 {
      CenteredSumTo(n, k - 1);
      assert Centered(n)[..k][..k - 1] == Centered(n)[..k - 1];
      var r, m := k as real, n as real;
      assert (k - 1) as real == r - 1.0;
      CenteredAt(n, k - 1);
      assert (r - 1.0) * (r - 1.0 - m) == r * (r - m) - 2.0 * r + 1.0 + m;
    }
  }

  lemma CenteredSum(n: nat)
    ensures Dot(Ones(n), Centered(n), n) == 0.0 && Dot(Centered(n), Ones(n), n) == 0.0
  {
    DotOnes(Centered(n), n);
    CenteredSumTo(n, n);
    DotCommutes(Ones(n), Centered(n), n);
  }

  predicate NonDecreasing(s: seq<real>) {
    forall i, j :: 0 <= i < j < |s| ==> s[i] <= s[j]
  }

  predicate NonIncreasing(s: seq<real>) {
    forall i, j :: 0 <= i < j < |s| ==> s[i] >= s[j]
  }

  predicate Constant(s: seq<real>) {
    forall i, j :: 0 <= i < j < |s| ==> s[i] == s[j]
  }

  /** y less its middle value. */
  function FromMiddle(y: seq<real>): seq<real>
    requires y != []
  {
    Plus(y, Scale(-y[|y| / 2], Ones(|y|)))
  }

  /** Centred indices sum to zero, so the middle value can be subtracted from y. */
  lemma DotFromMiddle(y: seq<real>)
    requires y != []
    ensures Dot(Centered(|y|), y, |y|) == Dot(Centered(|y|), FromMiddle(y), |y|)
  {
    var c, n := Centered(|y|), |y|;
    CenteredSum(n);
    assert |c| == n && Dot(c, Ones(n), n) == 0.0;
    DotUnshifted(c, y, -y[n / 2]);
  }

  lemma FromMiddleAt(y: seq<real>, i: nat)
    requires i < |y|
    ensures FromMiddle(y)[i] == y[i] - y[|y| / 2]
  {
  }

  lemma SameSign(y: seq<real>, i: nat)
    requires i < |y| && NonDecreasing(y)
    ensures Centered(|y|)[i] * FromMiddle(y)[i] >= 0.0
    ensures i != |y| / 2 && FromMiddle(y)[i] != 0.0 ==> Centered(|y|)[i] * FromMiddle(y)[i] > 0.0
  {
    var n := |y|;
    var c, z := Centered(n)[i], FromMiddle(y)[i];
    FromMiddleAt(y, i);
    CenteredAt(n, i);
    if i < n / 2 {
      assert 2 * i <= n - 2;
      assert c < 0.0 && z <= 0.0;
    } else if i > n / 2 {
      assert 2 * i >= n + 1;
      assert c > 0.0 && z >= 0.0;
    }
  }

  /** Measured from the middle value of a series that never falls, every term of the
      covariance is the product of two numbers of one sign. */
  lemma TermsAgree(y: seq<real>)
    requires y != [] && NonDecreasing(y)
    ensures Dot(Centered(|y|), FromMiddle(y), |y|) >= 0.0
    ensures (exists i :: 0 <= i < |y| && i != |y| / 2 && FromMiddle(y)[i] != 0.0)
      ==> Dot(Centered(|y|), FromMiddle(y), |y|) > 0.0
  {
    forall i | 0 <= i < |y|
      ensures Centered(|y|)[i] * FromMiddle(y)[i] >= 0.0
    {
      SameSign(y, i);
    }
    DotSign(Centered(|y|), FromMiddle(y), |y|);
    if i :| 0 <= i < |y| && i != |y| / 2 && FromMiddle(y)[i] != 0.0 {
      SameSign(y, i);
    }
  }

  /** Chebyshev: against its index, a series that never falls has a non-negative
      covariance, zero only if the series is constant. */
  lemma ChebyshevRising(y: seq<real>)
    requires |y| >= 2 && NonDecreasing(y)
    ensures Dot(Centered(|y|), y, |y|) >= 0.0
    ensures Dot(Centered(|y|), y, |y|) == 0.0 <==> Constant(y)
  {
    DotFromMiddle(y);
    TermsAgree(y);
    if Constant(y) {
      MiddleOfConstant(y);
      DotZero(Centered(|y|), FromMiddle(y), |y|);
    } else {
      var i := OffMiddleEnd(y);
    }
  }

  lemma MiddleOfConstant(y: seq<real>)
    requires y != [] && Constant(y)
    ensures forall i :: 0 <= i < |y| ==> FromMiddle(y)[i] == 0.0
  {
    forall i | 0 <= i < |y|
      ensures FromMiddle(y)[i] == 0.0
    {
      FromMiddleAt(y, i);
      if i < |y| / 2 { assert y[i] == y[|y| / 2]; }
    }
  }

  /** A monotone series that is not constant differs from its middle at one end. */
  lemma OffMiddleEnd(y: seq<real>) returns (i: nat)
    requires |y| >= 2 && NonDecreasing(y) && !Constant(y)
    ensures i < |y| && i != |y| / 2 && FromMiddle(y)[i] != 0.0
  {
    var n := |y|;
    FromMiddleAt(y, 0);
    FromMiddleAt(y, n - 1);
    if y[0] != y[n / 2] {
      i := 0;
    } else {
      var j, k :| 0 <= j < k < n && y[j] != y[k];
      assert y[0] <= y[j] <= y[k] <= y[n - 1] by {
        assert j == 0 || y[0] <= y[j];
        assert k == n - 1 || y[k] <= y[n - 1];
      }
      i := n - 1;
    }
  }

  /** From oldest to newest, which is last to first: revenue never falls. */
  ghost predicate Growing(series: seq<real>) { NonIncreasing(series) }

  ghost predicate Shrinking(series: seq<real>) { NonDecreasing(series) }

  lemma ReverseOrder(series: seq<real>)
    ensures Growing(series) <==> NonDecreasing(Reverse(series))
    ensures Shrinking(series) <==> NonIncreasing(Reverse(series))
  {
    var y, n := Reverse(series), |series|;
    assert forall i :: 0 <= i < n ==> series[i] == y[n - 1 - i];
  }

  /** The trend has the sign of the growth times the sign of the mean it is divided
      by, so for a positive mean it tells growth from decline; and for monotone
      revenue it is zero only when the mean is or when revenue is constant. */
  lemma TrendSign(series: seq<real>)
    requires |series| >= MIN_TREND_DAYS
    ensures var trend, mean := RevenueTrend(series), Mean(Reverse(series));
      && (Growing(series) ==> trend * mean >= 0.0 && (mean > 0.0 ==> trend >= 0.0))
      && (Shrinking(series) ==> trend * mean <= 0.0 && (mean > 0.0 ==> trend <= 0.0))
      && (Growing(series) || Shrinking(series) ==> (trend == 0.0 <==> mean == 0.0 || Constant(Reverse(series))))
  {
    var y := Reverse(series);
    var n := |y|;
    ReverseOrder(series);
    SpreadPositive(n);
    if Mean(y) != 0.0 {
      QuotientSign(Dot(Centered(n), y, n), Dot(Centered(n), Centered(n), n), Mean(y));
      if Growing(series) {
        ChebyshevRising(y);
      }
      if Shrinking(series) {
        ChebyshevFalling(y);
      }
    }
  }

  /** Read as the documentation reads it, revenue that never falls shows as a trend of
      at least 0 exactly when its mean is not negative or it is constant. */
  lemma GrowthShowsIff(series: seq<real>)
    requires |series| >= MIN_TREND_DAYS && Growing(series)
    ensures RevenueTrend(series) >= 0.0 <==> Mean(Reverse(series)) >= 0.0 || Constant(Reverse(series))
  {
    TrendSign(series);
  }

  lemma {:induction false} LeadingTerm(x: real, n: nat)
    ensures SumR([x] + seq(n, _ => 0.0)) == x
  {
    var s := [x] + seq(n, _ => 0.0);
    if n == 0 {
      assert s == [x] && s[..0] == [];
    } else {
      LeadingTerm(x, n - 1);
      assert s[..n] == [x] + seq(n - 1, _ => 0.0);
    }
  }

  /** A week of shrinking losses, -6 up to 0, shows as decline. */
  lemma ShrinkingLossesShowDecline()
    ensures var series := [0.0, -1.0, -2.0, -3.0, -4.0, -5.0, -6.0];
      Growing(series) && RevenueTrend(series) < 0.0
  {
    var series := [0.0, -1.0, -2.0, -3.0, -4.0, -5.0, -6.0];
    var y := Reverse(series);
    assert y == [-6.0, -5.0, -4.0, -3.0, -2.0, -1.0, 0.0];
    SumRMonotone(y, [-6.0] + seq(6, _ => 0.0));
    assert SumR([-6.0] + seq(6, _ => 0.0)) == -6.0 by {
      LeadingTerm(-6.0, 6);
    }
    assert y[0] != y[1];
    GrowthShowsIff(series);
  }

  lemma QuotientSign(cov: real, spread: real, mean: real)
    requires spread > 0.0 && mean != 0.0
    ensures cov >= 0.0 ==> cov / spread / mean * mean >= 0.0 && (mean > 0.0 ==> cov / spread / mean >= 0.0)
    ensures cov <= 0.0 ==> cov / spread / mean * mean <= 0.0 && (mean > 0.0 ==> cov / spread / mean <= 0.0)
    ensures cov / spread / mean == 0.0 <==> cov == 0.0
  {
    var q := cov / spread;
    assert q * spread == cov;
    var t := q / mean;
    assert t * mean == q;
  }

  lemma ChebyshevFalling(y: seq<real>)
    requires |y| >= 2 && NonIncreasing(y)
    ensures Dot(Centered(|y|), y, |y|) <= 0.0
    ensures Dot(Centered(|y|), y, |y|) == 0.0 <==> Constant(y)
  {
    var up := Scale(-1.0, y);
    ChebyshevRising(up);
    DotScale(Centered(|y|), -1.0, y, |y|);
    assert Constant(up) <==> Constant(y) by {
      assert forall i :: 0 <= i < |y| ==> up[i] == -y[i];
    }
  }

  // ----- The slope is the least-squares slope -----

  function Days(n: nat): seq<real> {
    seq(n, i requires 0 <= i < n => i as real)
  }

  /** What the line a + b * i leaves unexplained of y, day by day. */
  function Residuals(y: seq<real>, a: real, b: real): seq<real> {
    Plus(y, Plus(Scale(-a, Ones(|y|)), Scale(-b, Days(|y|))))
  }

  function SquaredError(y: seq<real>, a: real, b: real): real {
    Dot(Residuals(y, a, b), Residuals(y, a, b), |y|)
  }

  lemma ResidualAt(y: seq<real>, a: real, b: real, i: nat)
    requires i < |y|
    ensures Residuals(y, a, b)[i] == y[i] - (a + b * i as real)
  {
  }

  /** The residuals of one line, from those of another. */
  lemma ResidualsShift(y: seq<real>, a: real, b: real, p: real, q: real)
    ensures Residuals(y, a, b)
      == Plus(Residuals(y, p, q), Plus(Scale(p - a, Ones(|y|)), Scale(q - b, Days(|y|))))
  {
    var other := Plus(Residuals(y, p, q), Plus(Scale(p - a, Ones(|y|)), Scale(q - b, Days(|y|))));
    forall i | 0 <= i < |y|
      ensures Residuals(y, a, b)[i] == other[i]
    {
      ResidualAt(y, a, b, i);
      ResidualAt(y, p, q, i);
      LinesDiffer(y[i], a, b, p, q, i as real);
    }
  }

  lemma LinesDiffer(y: real, a: real, b: real, p: real, q: real, i: real)
    ensures y - (a + b * i) == y - (p + q * i) + ((p - a) * 1.0 + (q - b) * i)
  {
    assert (q - b) * i == q * i - b * i;
  }

  /** A line whose residuals sum to zero and do not vary with the day is best. */
  lemma NormalLineIsBest(y: seq<real>, p: real, q: real, a: real, b: real)
    requires Dot(Ones(|y|), Residuals(y, p, q), |y|) == 0.0 && Dot(Days(|y|), Residuals(y, p, q), |y|) == 0.0
    ensures SquaredError(y, p, q) <= SquaredError(y, a, b)
  {
    var n, r, u, v := |y|, Residuals(y, p, q), Ones(|y|), Days(|y|);
    ResidualsShift(y, a, b, p, q);
    DotCommutes(u, r, n);
    DotCommutes(v, r, n);
    DotPlus(r, Scale(p - a, u), Scale(q - b, v), n);
    DotScale(r, p - a, u, n);
    DotScale(r, q - b, v, n);
    OrthogonalAddition(r, Plus(Scale(p - a, u), Scale(q - b, v)));
  }

  /** Centred indices are the days less their mean. */
  lemma CenteredFromDays(n: nat)
    ensures Centered(n) == Plus(Days(n), Scale(-MeanIndex(n), Ones(n)))
  {
    assert |Centered(n)| == |Plus(Days(n), Scale(-MeanIndex(n), Ones(n)))|;
  }

  /** A line in centred form: mean plus slope times the centred index. */
  lemma CenteredResiduals(y: seq<real>, mean: real, s: real)
    ensures Residuals(y, mean - s * MeanIndex(|y|), s)
      == Plus(y, Plus(Scale(-mean, Ones(|y|)), Scale(-s, Centered(|y|))))
  {
    var other := Plus(y, Plus(Scale(-mean, Ones(|y|)), Scale(-s, Centered(|y|))));
    forall i | 0 <= i < |y|
      ensures Residuals(y, mean - s * MeanIndex(|y|), s)[i] == other[i]
    {
      ResidualAt(y, mean - s * MeanIndex(|y|), s, i);
      CenteredLine(mean, s, MeanIndex(|y|), i as real);
    }
  }

  lemma CenteredLine(mean: real, s: real, m: real, i: real)
    ensures (mean - s * m) + s * i == mean + s * (i - m)
  {
  }

  lemma MeanIsComponent(y: seq<real>)
    requires y != []
    ensures Component(Mean(y), Ones(|y|), y)
  {
    DotOnes(y, |y|);
    assert y[..|y|] == y;
    OnesDotOnes(|y|, |y|);
    DotScale(Ones(|y|), Mean(y), Ones(|y|), |y|);
  }

  lemma SlopeIsComponent(y: seq<real>)
    requires |y| >= 2
    ensures Component(Slope(y), Centered(|y|), y)
  {
    SpreadPositive(|y|);
    DotScale(Centered(|y|), Slope(y), Centered(|y|), |y|);
  }

  /** What is orthogonal to the ones and the centred indices is orthogonal to the days. */
  lemma OrthogonalToDays(r: seq<real>)
    requires Dot(Ones(|r|), r, |r|) == 0.0 && Dot(Centered(|r|), r, |r|) == 0.0
    ensures Dot(Days(|r|), r, |r|) == 0.0
  {
    var n, u := |r|, Ones(|r|);
    CenteredFromDays(n);
    DotCommutes(Centered(n), r, n);
    DotPlus(r, Days(n), Scale(-MeanIndex(n), u), n);
    DotScale(r, -MeanIndex(n), u, n);
    DotCommutes(r, u, n);
    DotCommutes(r, Days(n), n);
  }

  /** The normal equations: take out of y its mean and its slope, and what is left
      sums to zero and does not vary with the day. */
  lemma NormalEquations(y: seq<real>, mean: real, s: real, r: seq<real>)
    requires Component(mean, Ones(|y|), y) && Component(s, Centered(|y|), y)
    requires r == Plus(y, Plus(Scale(-mean, Ones(|y|)), Scale(-s, Centered(|y|))))
    ensures Dot(Ones(|y|), r, |y|) == 0.0 && Dot(Days(|y|), r, |y|) == 0.0
  {
    CenteredSum(|y|);
    ProjectionLeavesOrthogonal(Ones(|y|), y, mean, Centered(|y|), s);
    ProjectionLeavesOrthogonal(Centered(|y|), y, s, Ones(|y|), mean);
    OrthogonalToDays(r);
  }

  /** The line of mean and slope, crossing the axis at intercept, has the least error. */
  lemma FittedLineIsBest(y: seq<real>, mean: real, s: real, intercept: real, a: real, b: real)
    requires Component(mean, Ones(|y|), y) && Component(s, Centered(|y|), y)
    requires intercept == mean - s * MeanIndex(|y|)
    ensures SquaredError(y, intercept, s) <= SquaredError(y, a, b)
  {
    CenteredResiduals(y, mean, s);
    NormalEquations(y, mean, s, Residuals(y, intercept, s));
    NormalLineIsBest(y, intercept, s, a, b);
  }

  /** Where the line of slope s through the mean day and the mean revenue crosses the axis. */
  function Intercept(y: seq<real>, s: real): real
    requires y != []
  {
    Mean(y) - s * MeanIndex(|y|)
  }

  /** The squared error of the line of slope s through the mean day and the mean revenue. */
  function ErrorThroughMean(y: seq<real>, s: real): real
    requires y != []
  {
    SquaredError(y, Intercept(y, s), s)
  }

  /** No line fits the series better than one with the extracted slope. */
  lemma SlopeIsLeastSquares(y: seq<real>, a: real, b: real)
    requires |y| >= 2
    ensures ErrorThroughMean(y, Slope(y)) <= SquaredError(y, a, b)
  {
    MeanIsComponent(y);
    SlopeIsComponent(y);
    FittedLineIsBest(y, Mean(y), Slope(y), Intercept(y, Slope(y)), a, b);
  }

  /** The change per day that the trend gives as a fraction of the mean. */
  function DailyChange(series: seq<real>): real
    requires series != []
  {
    RevenueTrend(series) * Mean(Reverse(series))
  }

  /** The trend is the least-squares slope as a fraction of the mean: no line fits the
      series better than the one through its mean whose slope is trend times mean. With
      under a week of days, or a mean of 0, it is 0. */
  lemma TrendIsRelativeSlope(series: seq<real>, a: real, b: real)
    ensures |series| < 7 ==> RevenueTrend(series) == 0.0
    ensures |series| >= 7 ==> var y := Reverse(series);
      if Mean(y) == 0.0 then RevenueTrend(series) == 0.0
      else ErrorThroughMean(y, DailyChange(series)) <= SquaredError(y, a, b)
  {
    if |series| >= 7 {
      var y := Reverse(series);
      if Mean(y) != 0.0 {
        QuotientTimes(Slope(y), Mean(y));
        assert DailyChange(series) == Slope(y);
        SlopeIsLeastSquares(y, a, b);
      }
    }
  }

  lemma QuotientTimes(x: real, d: real)
    requires d != 0.0
    ensures x / d * d == x
  {
  }

  // ----- Maximum drawdown -----

  /** Running total up to and including day j. */
  function Cum(y: seq<real>, j: nat): real
    requires j < |y|
  {
    if j == 0 then y[0] else Cum(y, j - 1) + y[j]
  }

  /** Largest running total up to day j. */
  function Peak(y: seq<real>, j: nat): real
    requires j < |y|
  {
    if j == 0 then Cum(y, 0)
    else if Cum(y, j) >= Peak(y, j - 1) then Cum(y, j) else Peak(y, j - 1)
  }

  /** The fall to low as a fraction of high. */
  function Fall(high: real, low: real): real {
    if high > 0.0 then (high - low) / high else 0.0
  }

  /** Largest fall from the running peak, up to day j. */
  function DrawdownTo(y: seq<real>, j: nat): real
    requires j < |y|
  {
    var here := Fall(Peak(y, j), Cum(y, j));
    if j == 0 || here >= DrawdownTo(y, j - 1) then here else DrawdownTo(y, j - 1)
  }

  function MaxDrawdown(series: seq<real>): real {
    if |series| < 2 then 0.0 else DrawdownTo(Reverse(series), |series| - 1)
  }

  /** v is the largest relative fall of the running total from any day to any later
      day, over days with a positive total; 0 if there is none. */
  ghost predicate LargestFall(y: seq<real>, v: real) {
    && (forall i, j :: 0 <= i <= j < |y| && Cum(y, i) > 0.0 ==> Fall(Cum(y, i), Cum(y, j)) <= v)
    && ((exists i, j :: 0 <= i <= j < |y| && Cum(y, i) > 0.0 && Fall(Cum(y, i), Cum(y, j)) == v)
        || (v == 0.0 && forall i :: 0 <= i < |y| ==> Cum(y, i) <= 0.0))
  }

  lemma {:induction false} PeakIsLargest(y: seq<real>, j: nat) returns (i: nat)
    requires j < |y|
    ensures i <= j && Peak(y, j) == Cum(y, i)
    ensures forall k :: 0 <= k <= j ==> Cum(y, k) <= Peak(y, j)
  {
    if j == 0 {
      i := 0;
    } else {
      i := PeakIsLargest(y, j - 1);
      if Cum(y, j) >= Peak(y, j - 1) {
        i := j;
      }
    }
  }

  lemma {:induction false} DrawdownIsLargest(y: seq<real>, j: nat) returns (k: nat)
    requires j < |y|
    ensures k <= j && DrawdownTo(y, j) == Fall(Peak(y, k), Cum(y, k))
    ensures forall m :: 0 <= m <= j ==> Fall(Peak(y, m), Cum(y, m)) <= DrawdownTo(y, j)
  {
    if j == 0 {
      k := 0;
    } else {
      k := DrawdownIsLargest(y, j - 1);
      if Fall(Peak(y, j), Cum(y, j)) >= DrawdownTo(y, j - 1) {
        k := j;
      }
    }
  }

  /** Falls compared without division. */
  lemma FallsCompare(high: real, low: real, otherHigh: real, otherLow: real)
    requires high > 0.0 && otherHigh > 0.0
    ensures Fall(high, low) <= Fall(otherHigh, otherLow) <==> low * otherHigh >= otherLow * high
  {
    var f, g := Fall(high, low), Fall(otherHigh, otherLow);
    assert f * high == high - low && g * otherHigh == otherHigh - otherLow;
    assert (1.0 - f) * high == low && (1.0 - g) * otherHigh == otherLow;
    RatiosCompare(1.0 - f, high, low, 1.0 - g, otherHigh, otherLow);
  }

  lemma RatiosCompare(p: real, high: real, low: real, q: real, otherHigh: real, otherLow: real)
    requires high > 0.0 && otherHigh > 0.0 && p * high == low && q * otherHigh == otherLow
    ensures p >= q <==> low * otherHigh >= otherLow * high
  {
    var scale := high * otherHigh;
    assert scale > 0.0;
    assert low * otherHigh == p * scale && otherLow * high == q * scale;
    ScaleKeepsOrder(p, q, scale);
  }

  lemma ScaleKeepsOrder(p: real, q: real, scale: real)
    requires scale > 0.0
    ensures p >= q <==> p * scale >= q * scale
  {
    assert (p - q) * scale == p * scale - q * scale;
  }

  /** A higher start makes a larger fall to a total that is not negative. */
  lemma FallGrows(high: real, higher: real, low: real)
    requires 0.0 < high <= higher && 0.0 <= low
    ensures Fall(high, low) <= Fall(higher, low)
  {
    assert low * (higher - high) >= 0.0;
    FallsCompare(high, low, higher, low);
  }

  /** And a smaller fall to a negative one. */
  lemma FallShrinks(high: real, higher: real, low: real)
    requires 0.0 < high <= higher && low < 0.0
    ensures Fall(higher, low) <= Fall(high, low)
    ensures Fall(higher, low) == Fall(high, low) ==> high == higher
  {
    assert low * (higher - high) <= 0.0;
    FallsCompare(higher, low, high, low);
    FallsCompare(high, low, higher, low);
    if high < higher {
      assert low * (higher - high) < 0.0;
    }
  }

  /** The running total never goes negative once it has been positive. */
  predicate StaysAbove(y: seq<real>) {
    forall j :: 0 <= j < |y| ==> Cum(y, j) >= 0.0 || Peak(y, j) <= 0.0
  }

  /** Smallest positive running total up to day j; 0 if there is none. */
  function Low(y: seq<real>, j: nat): real
    requires j < |y|
  {
    var before := if j == 0 then 0.0 else Low(y, j - 1);
    if Cum(y, j) > 0.0 && (before == 0.0 || Cum(y, j) < before) then Cum(y, j) else before
  }

  lemma {:induction false} LowIsLeast(y: seq<real>, j: nat) returns (i: nat)
    requires j < |y|
    ensures i <= j && Low(y, j) >= 0.0 && (Low(y, j) > 0.0 ==> Cum(y, i) == Low(y, j))
    ensures forall k :: 0 <= k <= j && Cum(y, k) > 0.0 ==> 0.0 < Low(y, j) <= Cum(y, k)
  {
    if j == 0 {
      i := 0;
    } else {
      i := LowIsLeast(y, j - 1);
      if Cum(y, j) > 0.0 && (Low(y, j - 1) == 0.0 || Cum(y, j) < Low(y, j - 1)) {
        i := j;
      }
    }
  }

  /** Underwater: the running total is negative after having been positive. */
  predicate Underwater(y: seq<real>, j: nat)
    requires j < |y|
  {
    Cum(y, j) < 0.0 < Peak(y, j)
  }

  lemma LowUnderwater(y: seq<real>, j: nat) returns (i: nat)
    requires j < |y| && Underwater(y, j)
    ensures i <= j && 0.0 < Low(y, j) == Cum(y, i) <= Peak(y, j)
  {
    i := LowIsLeast(y, j);
    var p := PeakIsLargest(y, j);
  }

  /** Day k is underwater after positive totals that were all equal, and no day is
      further underwater, measured from the smallest positive total before it. */
  predicate DeepestUnderwater(y: seq<real>, k: nat)
    requires k < |y|
  {
    && Underwater(y, k) && Low(y, k) == Peak(y, k)
    && forall j :: 0 <= j < |y| && Underwater(y, j) ==> Fall(Low(y, j), Cum(y, j)) <= Fall(Low(y, k), Cum(y, k))
  }

  /** The one-pass drawdown against the running peak is the largest fall over all
      pairs of days exactly when the running total never goes negative after having
      been positive, or is furthest below zero, measured so, on a day before which all
      positive totals were equal. */
  lemma RunningPeakIsAllPairs(series: seq<real>)
    ensures var y := Reverse(series);
      LargestFall(y, MaxDrawdown(series)) <==> StaysAbove(y) || exists k :: 0 <= k < |y| && DeepestUnderwater(y, k)
  {
    var y := Reverse(series);
    if |series| >= 2 {
      if StaysAbove(y) {
        LargestFallOfPeaks(y);
      } else {
        DrawdownRange(series);
        if k :| 0 <= k < |y| && DeepestUnderwater(y, k) {
          LargestFallUnderwater(y, k);
        }
        if LargestFall(y, MaxDrawdown(series)) {
          var k := DrawdownIsLargest(y, |y| - 1);
          DeepestIfLargest(y, k);
        }
      }
    } else if |series| == 1 {
      assert Cum(y, 0) > 0.0 ==> Fall(Cum(y, 0), Cum(y, 0)) == 0.0;
    }
  }

  /** It never overstates: no largest fall over all pairs is below it. */
  lemma RunningPeakNeverOverstates(series: seq<real>, v: real)
    requires LargestFall(Reverse(series), v)
    ensures MaxDrawdown(series) <= v
  {
    var y := Reverse(series);
    if |series| >= 2 {
      var k := DrawdownIsLargest(y, |y| - 1);
      var i := PeakIsLargest(y, k);
      if Peak(y, k) <= 0.0 {
        LargestFallNonNegative(y, v);
      }
    } else {
      LargestFallNonNegative(y, v);
    }
  }

  lemma LargestFallNonNegative(y: seq<real>, v: real)
    requires LargestFall(y, v)
    ensures v >= 0.0
  {
    if i :| 0 <= i < |y| && Cum(y, i) > 0.0 {
      assert Fall(Cum(y, i), Cum(y, i)) == 0.0;
    }
  }

  /** No fall exceeds the fall to a deepest day. */
  lemma LargestFallUnderwater(y: seq<real>, k: nat)
    requires k < |y| && DeepestUnderwater(y, k)
    ensures LargestFall(y, DrawdownTo(y, |y| - 1))
  {
    var v := DrawdownTo(y, |y| - 1);
    var m := DrawdownIsLargest(y, |y| - 1);
    FallRange(Peak(y, k), Cum(y, k));
    forall i, j | 0 <= i <= j < |y| && Cum(y, i) > 0.0
      ensures Fall(Cum(y, i), Cum(y, j)) <= v
    {
      FallNoDeeper(y, i, j, k);
    }
    var i := PeakIsLargest(y, m);
    assert Fall(Cum(y, i), Cum(y, m)) == v;
  }

  lemma FallNoDeeper(y: seq<real>, i: nat, j: nat, k: nat)
    requires i <= j < |y| && k < |y| && Cum(y, i) > 0.0 && DeepestUnderwater(y, k)
    ensures Fall(Cum(y, i), Cum(y, j)) <= Fall(Peak(y, k), Cum(y, k))
  {
    if Cum(y, j) >= 0.0 {
      FallWithin(Cum(y, i), Cum(y, j));
      FallBeyond(Peak(y, k), Cum(y, k));
    } else {
      var p := PeakIsLargest(y, j);
      var l := LowIsLeast(y, j);
      FallShrinks(Low(y, j), Cum(y, i), Cum(y, j));
      assert Underwater(y, j);
    }
  }

  lemma FallWithin(high: real, low: real)
    requires high > 0.0 && low >= 0.0
    ensures Fall(high, low) <= 1.0
  {
    assert Fall(high, low) * high == high - low;
    ScaleKeepsOrder(1.0, Fall(high, low), high);
  }

  lemma FallBeyond(high: real, low: real)
    requires high > 0.0 && low < 0.0
    ensures Fall(high, low) > 1.0
  {
    assert Fall(high, low) * high == high - low;
    ScaleKeepsOrder(1.0, Fall(high, low), high);
  }

  /** If the fall to day k from its peak, beyond the whole peak, is the largest of
      all, day k is a deepest one. */
  lemma DeepestIfLargest(y: seq<real>, k: nat)
    requires k < |y| && LargestFall(y, Fall(Peak(y, k), Cum(y, k))) && Fall(Peak(y, k), Cum(y, k)) > 1.0
    ensures DeepestUnderwater(y, k)
  {
    if Peak(y, k) > 0.0 && Cum(y, k) >= 0.0 {
      FallWithin(Peak(y, k), Cum(y, k));
    }
    var i := LowUnderwater(y, k);
    FallShrinks(Low(y, k), Peak(y, k), Cum(y, k));
    forall j | 0 <= j < |y| && Underwater(y, j)
      ensures Fall(Low(y, j), Cum(y, j)) <= Fall(Low(y, k), Cum(y, k))
    {
      var l := LowUnderwater(y, j);
    }
  }

  /** A series the two differ on: totals 1, 3, -1 fall by 4/3 of the peak, but by twice
      the first day's total. */
  lemma RunningPeakMissesPairs()
    ensures var series := [-4.0, 2.0, 1.0]; var y := Reverse(series);
      !LargestFall(y, MaxDrawdown(series)) && !StaysAbove(y) && Low(y, 2) == 1.0 && Peak(y, 2) == 3.0
  {
    var y := Reverse([-4.0, 2.0, 1.0]);
    assert y == [1.0, 2.0, -4.0];
    assert Cum(y, 0) == 1.0 && Cum(y, 1) == 3.0 && Cum(y, 2) == -1.0;
    assert Peak(y, 0) == 1.0 && Peak(y, 1) == 3.0 && Peak(y, 2) == 3.0;
    assert Low(y, 0) == 1.0 && Low(y, 1) == 1.0 && Low(y, 2) == 1.0;
    RunningPeakIsAllPairs([-4.0, 2.0, 1.0]);
  }

  lemma LargestFallOfPeaks(y: seq<real>)
    requires y != [] && StaysAbove(y)
    ensures LargestFall(y, DrawdownTo(y, |y| - 1))
  {
    var n := |y|;
    var k := DrawdownIsLargest(y, n - 1);
    var top := PeakIsLargest(y, k);
    forall i, j | 0 <= i <= j < n && Cum(y, i) > 0.0
      ensures Fall(Cum(y, i), Cum(y, j)) <= DrawdownTo(y, n - 1)
    {
      var p := PeakIsLargest(y, j);
      FallGrows(Cum(y, i), Peak(y, j), Cum(y, j));
    }
    if Cum(y, top) <= 0.0 && exists i :: 0 <= i < n && Cum(y, i) > 0.0 {
      var i :| 0 <= i < n && Cum(y, i) > 0.0;
      assert Fall(Cum(y, i), Cum(y, i)) == 0.0;
    }
  }

  /** For any series the drawdown is non-negative, and it stays within 1 exactly when
      the running total never goes negative after having been positive. */
  lemma DrawdownRange(series: seq<real>)
    ensures 0.0 <= MaxDrawdown(series)
    ensures MaxDrawdown(series) <= 1.0 <==> StaysAbove(Reverse(series))
  {
    if |series| >= 2 {
      var y := Reverse(series);
      var k := DrawdownIsLargest(y, |y| - 1);
      forall j | 0 <= j < |y|
        ensures 0.0 <= Fall(Peak(y, j), Cum(y, j)) <= MaxDrawdown(series)
        ensures Fall(Peak(y, j), Cum(y, j)) <= 1.0 <==> Cum(y, j) >= 0.0 || Peak(y, j) <= 0.0
      {
        var i := PeakIsLargest(y, j);
        FallRange(Peak(y, j), Cum(y, j));
      }
    }
  }

  lemma FallRange(high: real, low: real)
    requires low <= high
    ensures 0.0 <= Fall(high, low)
    ensures Fall(high, low) <= 1.0 <==> low >= 0.0 || high <= 0.0
  {
    if high > 0.0 {
      var f := (high - low) / high;
      assert f * high == high - low;
      assert f >= 0.0;
      assert (1.0 - f) * high == low;
    }
  }

  /** An agent without a losing day has no drawdown. */
  lemma NoLossNoDrawdown(series: seq<real>)
    requires forall i :: 0 <= i < |series| ==> series[i] >= 0.0
    ensures MaxDrawdown(series) == 0.0
  {
    if |series| >= 2 {
      var y := Reverse(series);
      var k := DrawdownIsLargest(y, |y| - 1);
      PeakIsTotal(y, k);
    }
  }

  lemma {:induction false} PeakIsTotal(y: seq<real>, j: nat)
    requires j < |y| && forall i :: 0 <= i < |y| ==> y[i] >= 0.0
    ensures Peak(y, j) == Cum(y, j)
  {
    if j > 0 {
      PeakIsTotal(y, j - 1);
    }
  }

  // ----- Payment consistency -----

  /** Due date, and repayment date if repaid. */
  type Repaid = (int, Option<int>)

  predicate OnTime(p: Repaid) {
    p.1.Some? && p.1.value <= p.0
  }

  function OnTimeIn(history: seq<Repaid>): set<int> {
    set i | 0 <= i < |history| && OnTime(history[i])
  }

  lemma {:induction false} OnTimeCount(history: seq<Repaid>)
    ensures |OnTimeIn(history)| <= |history|
    ensures |OnTimeIn(history)| == |history| <==> forall i :: 0 <= i < |history| ==> OnTime(history[i])
  {
    if history != [] {
      var n := |history| - 1;
      OnTimeCount(history[..n]);
      OnTimeSnoc(history[..n], history[n]);
      assert history == history[..n] + [history[n]];
    }
  }

  lemma OnTimeSnoc(history: seq<Repaid>, p: Repaid)
    ensures |OnTimeIn(history + [p])| == |OnTimeIn(history)| + (if OnTime(p) then 1 else 0)
  {
    var all := history + [p];
    assert all[|history|] == p && forall i :: 0 <= i < |history| ==> all[i] == history[i];
    assert OnTimeIn(all) == OnTimeIn(history) + (if OnTime(p) then {|history|} else {});
  }

  /** The fraction of past repayments made by their due date; 0.5 without history. */
  method PaymentConsistency(history: seq<Repaid>) returns (score: real)
    ensures history == [] ==> score == 0.5
    ensures history != [] ==> score == |OnTimeIn(history)| as real / |history| as real
  {
    if history == [] {
      return 0.5;
    }
    var onTime, total := 0, 0;
    while total < |history|
      invariant 0 <= total <= |history|
      invariant onTime == |OnTimeIn(history[..total])|
    {
      OnTimeSnoc(history[..total], history[total]);
      assert history[..total + 1] == history[..total] + [history[total]];
      var (dueDate, repaidDate) := history[total];
      total := total + 1;
      if repaidDate.Some? && repaidDate.value <= dueDate {
        onTime := onTime + 1;
      }
    }
    assert history[..total] == history;
    score := onTime as real / total as real;
  }

  /** A perfect score means every repayment was on time, and no score exceeds it. */
  lemma ConsistencyRange(history: seq<Repaid>)
    requires history != []
    ensures var score := |OnTimeIn(history)| as real / |history| as real;
      && 0.0 <= score <= 1.0
      && (score == 1.0 <==>
            forall i :: 0 <= i < |history| ==> history[i].1.Some? && history[i].1.value <= history[i].0)
  {
    OnTimeCount(history);
  }
}
