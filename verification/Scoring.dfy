/** The credit scoring algorithm: from revenue, consistency, reputation and
    verification to a score and the credit terms it buys. */
module Scoring {
  import opened Rounding
  import Decimals

  const MICRO := 1_000_000
  const MIN_REVENUE_30D := 100 * MICRO

  /** revenue30d is in micro-units. The 60 and 90 day totals are not read by the algorithm. */
  datatype CreditScoreInput = CreditScoreInput(
    revenue30d: int,
    consistency: real,
    reputation: int,
    codeVerified: bool)

  /** creditLine is in cents. */
  datatype CreditScoreResult = CreditScoreResult(
    creditScore: int,
    creditLine: int,
    interestRateBps: int,
    repaymentRateBps: int)

  type Tiers = seq<(int, int)>

  /** Multipliers of monthly revenue, in halves. */
  const TIER_MULTIPLIERS: Tiers := [(800, 6), (600, 4), (400, 2), (200, 1), (0, 0)]
  const RATE_TIERS: Tiers := [(800, 500), (600, 800), (400, 1200), (200, 1800), (0, 2500)]
  const REPAYMENT_TIERS: Tiers := [(800, 3000), (600, 4000), (400, 5000), (200, 6000), (0, 7500)]

  /** The first tier whose threshold the score reaches; the last tier otherwise. */
  function TierLookup(score: int, tiers: Tiers): int
    requires tiers != []
  {
    if score >= tiers[0].0 || |tiers| == 1 then tiers[0].1 else TierLookup(score, tiers[1..])
  }

  function Max(x: real, y: real): real { if x >= y then x else y }

  function Min(x: real, y: real): real { if x <= y then x else y }

  function RevenueScore(log10: real -> real, revenue30d: int): real {
    if revenue30d <= 0 then 0.0
    else Min(1000.0, Max(0.0, 200.0 * log10(Max(revenue30d as real / MICRO as real, 1.0) / 10.0)))
  }

  function Weighted(log10: real -> real, inp: CreditScoreInput): real {
    RevenueScore(log10, inp.revenue30d) * 0.40
    + inp.consistency * 10.0 * 0.25
    + inp.reputation as real * 0.25
    + (if inp.codeVerified then 1000.0 else 0.0) * 0.10
  }

  function CompositeScore(log10: real -> real, inp: CreditScoreInput): int {
    Min(1000.0, Max(0.0, Weighted(log10, inp))).Floor
  }

  function ComputeCreditScore(log10: real -> real, inp: CreditScoreInput): CreditScoreResult {
    var score := CompositeScore(log10, inp);
    if inp.revenue30d < MIN_REVENUE_30D then
      CreditScoreResult(score, 0, 0, 0)
    else
      // micro-units times halves, to cents: divide by 2 * 10^4
      CreditScoreResult(
        score,
        RoundHalfEven(inp.revenue30d * TierLookup(score, TIER_MULTIPLIERS), 20_000),
        TierLookup(score, RATE_TIERS),
        TierLookup(score, REPAYMENT_TIERS))
  }

  ghost predicate Monotone(f: real -> real) {
    forall x, y :: x <= y ==> f(x) <= f(y)
  }

  /** No input of the second agent is worse. */
  predicate NoWorse(a: CreditScoreInput, b: CreditScoreInput) {
    && a.revenue30d <= b.revenue30d
    && a.consistency <= b.consistency
    && a.reputation <= b.reputation
    && (a.codeVerified ==> b.codeVerified)
  }

  /** Values fall, or rise, as thresholds fall. */
  predicate ValuesFall(tiers: Tiers) {
    forall i, j :: 0 <= i < j < |tiers| ==> tiers[i].1 >= tiers[j].1
  }

  predicate ValuesRise(tiers: Tiers) {
    forall i, j :: 0 <= i < j < |tiers| ==> tiers[i].1 <= tiers[j].1
  }

  /** The lookup finds the tier the score belongs to: the one whose threshold it
      reaches while it misses every earlier threshold. */
  lemma {:induction false} TierLookupFindsTier(score: int, tiers: Tiers) returns (k: nat)
    requires tiers != []
    ensures k < |tiers| && TierLookup(score, tiers) == tiers[k].1
    ensures forall i :: 0 <= i < k ==> score < tiers[i].0
    ensures k == |tiers| - 1 || score >= tiers[k].0
  {
    if score >= tiers[0].0 || |tiers| == 1 {
      k := 0;
    } else {
      var k' := TierLookupFindsTier(score, tiers[1..]);
      k := k' + 1;
    }
  }

  /** A higher score never reaches a later tier. */
  lemma TierLookupMonotone(s: int, t: int, tiers: Tiers)
    requires tiers != [] && s <= t
    ensures ValuesFall(tiers) ==> TierLookup(s, tiers) <= TierLookup(t, tiers)
    ensures ValuesRise(tiers) ==> TierLookup(s, tiers) >= TierLookup(t, tiers)
  {
    var i := TierLookupFindsTier(s, tiers);
    var j := TierLookupFindsTier(t, tiers);
    assert j <= i;
  }

  lemma ScoreMonotone(log10: real -> real, a: CreditScoreInput, b: CreditScoreInput)
    requires Monotone(log10) && NoWorse(a, b)
    ensures 0 <= CompositeScore(log10, a) <= CompositeScore(log10, b) <= 1000
  {
    var x := Max(a.revenue30d as real / MICRO as real, 1.0) / 10.0;
    var y := Max(b.revenue30d as real / MICRO as real, 1.0) / 10.0;
    assert x <= y;
    assert log10(x) <= log10(y);
    assert RevenueScore(log10, a.revenue30d) <= RevenueScore(log10, b.revenue30d);
  }

  /** The composite is a weighted mean: between bounds that all four scaled components
      respect, each on the scale 0 to 1000. */
  lemma ScoreIsWeightedMean(log10: real -> real, inp: CreditScoreInput, low: int, high: int)
    requires 0 <= low <= high <= 1000
    requires low as real <= RevenueScore(log10, inp.revenue30d) <= high as real
    requires low as real <= inp.consistency * 10.0 <= high as real
    requires low <= inp.reputation <= high
    requires if inp.codeVerified then high == 1000 else low == 0
    ensures low <= CompositeScore(log10, inp) <= high
  {
  }

  /** Verified code is worth exactly 100 points to a score it does not push past 1000. */
  lemma VerificationBonus(log10: real -> real, inp: CreditScoreInput)
    requires inp.consistency >= 0.0 && inp.reputation >= 0
    ensures var without, with_ := inp.(codeVerified := false), inp.(codeVerified := true);
      CompositeScore(log10, with_)
      == if CompositeScore(log10, without) + 100 <= 1000 then CompositeScore(log10, without) + 100 else 1000
  {
    var unverified := Weighted(log10, inp.(codeVerified := false));
    assert (unverified + 100.0).Floor == unverified.Floor + 100;
  }

  function Capped(score: int): int { if score > 1000 then 1000 else score }

  /** What the other inputs are worth: n points, to a score they do not push past 1000,
      for 4 n of reputation, for 0.4 n of consistency and for 2.5 n of revenue score. */
  lemma InputsWorth(log10: real -> real, a: CreditScoreInput, b: CreditScoreInput, n: nat)
    requires a.consistency >= 0.0 && a.reputation >= 0
    requires b == a.(reputation := a.reputation + 4 * n)
      || b == a.(consistency := a.consistency + 0.4 * n as real)
      || (b == a.(revenue30d := b.revenue30d)
          && RevenueScore(log10, b.revenue30d) == RevenueScore(log10, a.revenue30d) + 2.5 * n as real)
    ensures CompositeScore(log10, b) == Capped(CompositeScore(log10, a) + n)
  {
    var before, after := Weighted(log10, a), Weighted(log10, b);
    assert after == before + n as real;
    assert after.Floor == before.Floor + n;
  }

  lemma TermsInRange(log10: real -> real, inp: CreditScoreInput)
    ensures var r := ComputeCreditScore(log10, inp);
            && 0 <= r.creditScore <= 1000
            && 0 <= r.creditLine
            && (inp.revenue30d < MIN_REVENUE_30D ==> r.creditLine == r.interestRateBps == r.repaymentRateBps == 0)
            && (inp.revenue30d >= MIN_REVENUE_30D ==>
                  500 <= r.interestRateBps <= 2500 && 3000 <= r.repaymentRateBps <= 7500)
            && (inp.revenue30d >= MIN_REVENUE_30D ==> (r.creditLine == 0 <==> r.creditScore < 200))
  {
    if inp.revenue30d >= MIN_REVENUE_30D {
      var score := CompositeScore(log10, inp);
      var m := TierLookupFindsTier(score, TIER_MULTIPLIERS);
      var r := TierLookupFindsTier(score, RATE_TIERS);
      var p := TierLookupFindsTier(score, REPAYMENT_TIERS);
      var mult := TierLookup(score, TIER_MULTIPLIERS);
      if mult >= 1 {
        assert inp.revenue30d * mult >= inp.revenue30d;
        RoundMonotone(5_000 * 20_000, inp.revenue30d * mult, 20_000);
        RoundExact(5_000, 20_000);
      } else {
        assert m == 4 && score < TIER_MULTIPLIERS[3].0;
        assert inp.revenue30d * mult == 0 * 20_000;
        RoundExact(0, 20_000);
      }
    }
  }

  /** A line of halves / 2 monthly revenues to the nearest cent, and the two rates. */
  ghost predicate Offers(r: CreditScoreResult, revenue30d: int, halves: int, interestBps: int, repaymentBps: int) {
    && IsNearestEven(r.creditLine, revenue30d * halves, 20_000)
    && r.interestRateBps == interestBps && r.repaymentRateBps == repaymentBps
  }

  lemma ByHundreds(score: int, a: int, b: int, c: int, d: int, e: int)
    ensures TierLookup(score, [(800, a), (600, b), (400, c), (200, d), (0, e)])
      == if score >= 800 then a else if score >= 600 then b else if score >= 400 then c
         else if score >= 200 then d else e
  {
    var tiers: Tiers := [(800, a), (600, b), (400, c), (200, d), (0, e)];
    assert tiers[1..] == [(600, b), (400, c), (200, d), (0, e)];
    assert tiers[1..][1..] == [(400, c), (200, d), (0, e)];
    assert tiers[1..][1..][1..] == [(200, d), (0, e)];
    assert tiers[1..][1..][1..][1..] == [(0, e)];
    assert TierLookup(score, [(0, e)]) == e;
    assert TierLookup(score, [(200, d), (0, e)]) == if score >= 200 then d else e;
    assert TierLookup(score, [(400, c), (200, d), (0, e)])
      == if score >= 400 then c else TierLookup(score, [(200, d), (0, e)]);
  }

  /** What each score buys an agent with at least 100 dollars of monthly revenue. */
  lemma TermsOfScore(log10: real -> real, inp: CreditScoreInput)
    requires inp.revenue30d >= 100_000_000
    ensures var r := ComputeCreditScore(log10, inp);
      if r.creditScore >= 800 then Offers(r, inp.revenue30d, 6, 500, 3000)
      else if r.creditScore >= 600 then Offers(r, inp.revenue30d, 4, 800, 4000)
      else if r.creditScore >= 400 then Offers(r, inp.revenue30d, 2, 1200, 5000)
      else if r.creditScore >= 200 then Offers(r, inp.revenue30d, 1, 1800, 6000)
      else Offers(r, inp.revenue30d, 0, 2500, 7500)
  {
    var score := CompositeScore(log10, inp);
    ByHundreds(score, 6, 4, 2, 1, 0);
    ByHundreds(score, 500, 800, 1200, 1800, 2500);
    ByHundreds(score, 3000, 4000, 5000, 6000, 7500);
    RoundIsNearestEven(inp.revenue30d * TierLookup(score, TIER_MULTIPLIERS), 20_000);
  }

  /** Below that an agent is scored but offered nothing. */
  lemma NothingBelowMinimum(log10: real -> real, inp: CreditScoreInput)
    requires inp.revenue30d < 100_000_000
    ensures ComputeCreditScore(log10, inp) == CreditScoreResult(CompositeScore(log10, inp), 0, 0, 0)
  {
  }

  lemma ProductMonotone(x: int, y: int, m: int, n: int)
    requires 0 <= x <= y && 0 <= m <= n
    ensures x * m <= y * n
  {
    assert (y - x) * m >= 0 && y * (n - m) >= 0;
  }

  /** Improving any inputs never lowers the score or the credit line, whatever the revenue. */
  lemma CreditLineMonotone(log10: real -> real, a: CreditScoreInput, b: CreditScoreInput)
    requires Monotone(log10) && NoWorse(a, b)
    ensures ComputeCreditScore(log10, a).creditScore <= ComputeCreditScore(log10, b).creditScore
    ensures ComputeCreditScore(log10, a).creditLine <= ComputeCreditScore(log10, b).creditLine
  {
    ScoreMonotone(log10, a, b);
    TermsInRange(log10, b);
    if a.revenue30d >= MIN_REVENUE_30D {
      var s, t := CompositeScore(log10, a), CompositeScore(log10, b);
      TierLookupMonotone(s, t, TIER_MULTIPLIERS);
      var m, n := TierLookup(s, TIER_MULTIPLIERS), TierLookup(t, TIER_MULTIPLIERS);
      var k := TierLookupFindsTier(s, TIER_MULTIPLIERS);
      ProductMonotone(a.revenue30d, b.revenue30d, m, n);
      RoundMonotone(a.revenue30d * m, b.revenue30d * n, 20_000);
    }
  }

  lemma RatesFall(log10: real -> real, a: CreditScoreInput, b: CreditScoreInput)
    requires Monotone(log10) && NoWorse(a, b) && a.revenue30d >= MIN_REVENUE_30D
    ensures ComputeCreditScore(log10, b).interestRateBps <= ComputeCreditScore(log10, a).interestRateBps
    ensures ComputeCreditScore(log10, b).repaymentRateBps <= ComputeCreditScore(log10, a).repaymentRateBps
  {
    ScoreMonotone(log10, a, b);
    var s, t := CompositeScore(log10, a), CompositeScore(log10, b);
    TierLookupMonotone(s, t, RATE_TIERS);
    TierLookupMonotone(s, t, REPAYMENT_TIERS);
  }

  /** Improving inputs never raises a rate, exactly unless it lifts the agent over
      the minimum revenue: below it both rates are reported as 0. */
  lemma RatesMonotoneUnlessQualifying(log10: real -> real, a: CreditScoreInput, b: CreditScoreInput)
    requires Monotone(log10) && NoWorse(a, b)
    ensures (&& ComputeCreditScore(log10, b).interestRateBps <= ComputeCreditScore(log10, a).interestRateBps
             && ComputeCreditScore(log10, b).repaymentRateBps <= ComputeCreditScore(log10, a).repaymentRateBps)
            <==> !(a.revenue30d < MIN_REVENUE_30D <= b.revenue30d)
  {
    if a.revenue30d >= MIN_REVENUE_30D {
      RatesFall(log10, a, b);
    } else {
      TermsInRange(log10, a);
      TermsInRange(log10, b);
    }
  }

  /** A monotone function that is exact on the powers of ten. */
  ghost predicate IsLog10(f: real -> real) {
    Monotone(f) && forall k: nat :: f(Decimals.Pow10(k) as real) == k as real
  }

  /** Up to ten dollars of monthly revenue score nothing. */
  lemma TenDollarsScoreNothing(log10: real -> real, revenue30d: int)
    requires IsLog10(log10) && revenue30d <= 10 * MICRO
    ensures RevenueScore(log10, revenue30d) == 0.0
  {
    if revenue30d > 0 {
      var x := Max(revenue30d as real / MICRO as real, 1.0) / 10.0;
      assert x <= 1.0 && log10(Decimals.Pow10(0) as real) == 0.0;
      assert log10(x) <= 0.0;
    }
  }

  function Clipped(points: int): int {
    if points < 0 then 0 else if points > 1000 then 1000 else points
  }

  /** Each tenfold of monthly revenue is worth 200 points: from 10^k to 10^(k+1) dollars
      the revenue score runs from 200 (k - 1) to 200 k, capped at 1000. So 1000 dollars
      score 400, 10000 score 600 and the cap is reached at a million. */
  lemma TenfoldIsTwoHundred(log10: real -> real, k: nat, revenue30d: int)
    requires IsLog10(log10) && k > 0 && Decimals.Pow10(k) * MICRO <= revenue30d <= Decimals.Pow10(k + 1) * MICRO
    ensures Clipped(200 * (k - 1)) as real <= RevenueScore(log10, revenue30d) <= Clipped(200 * k) as real
    ensures revenue30d == Decimals.Pow10(k) * MICRO ==>
      RevenueScore(log10, revenue30d) == Clipped(200 * (k - 1)) as real
  {
    var dollars := revenue30d as real / MICRO as real;
    var low, high := Decimals.Pow10(k - 1), Decimals.Pow10(k);
    assert low >= 1;
    assert dollars * MICRO as real == revenue30d as real;
    assert 10.0 * low as real <= dollars <= 10.0 * high as real;
    assert low as real <= Max(dollars, 1.0) / 10.0 <= high as real;
    var log := log10(Max(dollars, 1.0) / 10.0);
    assert log10(low as real) == (k - 1) as real && log10(high as real) == k as real;
    assert (k - 1) as real <= log <= k as real;
    assert RevenueScore(log10, revenue30d) == Min(1000.0, Max(0.0, 200.0 * log));
  }
}
