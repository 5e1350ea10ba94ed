/** The wallet agent's USDT codec: raw amounts in units of 10^-6 to and from
    decimal strings. */
module Usdt {
  import opened Wrappers
  import opened Decimals
  import opened Division

  const USDT_DECIMALS := 6
  const UNIT := 1_000_000

  // ----- Digits -----

  predicate IsDigit(c: char) { '0' <= c <= '9' }

  predicate AllDigits(s: string) {
    forall i :: 0 <= i < |s| ==> IsDigit(s[i])
  }

  function DigitValue(c: char): nat
    requires IsDigit(c)
  {
    (c - '0') as nat
  }

  function DigitChar(d: nat): char
    requires d < 10
  {
    '0' + d as char
  }

  /** The number a digit string denotes; 0 for the empty one. */
  function Value(s: string): nat
    requires AllDigits(s)
  {
    if s == "" then 0 else 10 * Value(s[..|s| - 1]) + DigitValue(s[|s| - 1])
  }

  /** BigInt's toString for a natural. */
  function Digits(n: nat): string
    ensures AllDigits(Digits(n)) && |Digits(n)| >= 1
  {
    if n < 10 then [DigitChar(n)] else Digits(n / 10) + [DigitChar(n % 10)]
  }

  function ToString(n: int): string {
    if n < 0 then "-" + Digits(-n) else Digits(n)
  }

  /** The BigInt constructor on a string: an empty string is 0, a decimal may be
      signed, anything else is a SyntaxError. */
  function BigInt(s: string): Option<int> {
    if s == "" then Some(0)
    else if (s[0] == '-' || s[0] == '+') && |s| > 1 && AllDigits(s[1..])
    then
      var v: int := Value(s[1..]);
      Some(if s[0] == '-' then -v else v)
    else if AllDigits(s) then Some(Value(s))
    else None
  }

  // ----- Padding and splitting -----

  function Zeros(n: nat): string { seq(n, _ => '0') }

  function PadStart(s: string, n: nat): string {
    if |s| >= n then s else Zeros(n - |s|) + s
  }

  function PadEnd(s: string, n: nat): string {
    if |s| >= n then s else s + Zeros(n - |s|)
  }

  function Take(s: string, n: nat): string {
    if |s| >= n then s[..n] else s
  }

  /** split('.'). */
  function Split(s: string): seq<string>
    ensures Split(s) != []
  {
    if s == "" then [""]
    else
      var rest := Split(s[1..]);
      if s[0] == '.' then [""] + rest else [[s[0]] + rest[0]] + rest[1..]
  }

  function OrZero(s: string): string { if s == "" then "0" else s }

  // ----- The codec -----

  /** The fraction digits, padded or cut to six. */
  function ReadFraction(f: string): Option<int> {
    BigInt(Take(PadEnd(OrZero(f), USDT_DECIMALS), USDT_DECIMALS))
  }

  /** None is a SyntaxError. Parts after a second point are ignored. */
  function ParseParts(parts: seq<string>): Option<int>
    requires parts != []
  {
    match BigInt(OrZero(parts[0]))
    case None => None
    case Some(whole) =>
      if |parts| == 1 then Some(whole * UNIT)
      else match ReadFraction(parts[1])
        case None => None
        case Some(frac) => Some(whole * UNIT + frac)
  }

  function ParseUSDT(amount: string): Option<int> {
    ParseParts(Split(amount))
  }

  /** BigInt division and remainder truncate towards zero. */
  function Quotient(n: int, d: int): int
    requires d > 0
  {
    if n >= 0 then n / d else -((-n) / d)
  }

  function Remainder(n: int, d: int): int
    requires d > 0
  {
    n - Quotient(n, d) * d
  }

  function FormatUSDT(raw: int): string {
    ToString(Quotient(raw, UNIT)) + "." + PadStart(ToString(Remainder(raw, UNIT)), USDT_DECIMALS)
  }

  // ----- Lemmas on digits -----

  lemma {:induction false} DigitsValue(n: nat)
    ensures Value(Digits(n)) == n
  {
    if n >= 10 {
      DigitsValue(n / 10);
      assert Digits(n)[..|Digits(n)| - 1] == Digits(n / 10);
    } else {
      assert [DigitChar(n)][..0] == "";
    }
  }

  lemma {:induction false} DigitsLength(n: nat, k: nat)
    requires k >= 1
    ensures |Digits(n)| <= k <==> n < Pow10(k)
  {
    if n >= 10 {
      if k == 1 {
        assert Pow10(1) == 10 * Pow10(0);
      } else {
        DigitsLength(n / 10, k - 1);
      }
    } else {
      Pow10AtLeast(k);
    }
  }

  lemma {:induction false} Pow10AtLeast(k: nat)
    requires k >= 1
    ensures Pow10(k) >= 10
  {
    if k > 1 {
      Pow10AtLeast(k - 1);
    }
  }

  lemma TimesTen(v: nat, p: nat, r: nat)
    ensures 10 * (v * p + r) == v * (10 * p) + 10 * r
  {
  }

  lemma {:induction false} ValueConcat(s: string, t: string)
    requires AllDigits(s) && AllDigits(t)
    ensures AllDigits(s + t) && Value(s + t) == Value(s) * Pow10(|t|) + Value(t)
  {
    if t == "" {
      assert s + t == s;
    } else {
      var n := |t| - 1;
      ValueConcat(s, t[..n]);
      assert (s + t)[..|s + t| - 1] == s + t[..n];
      TimesTen(Value(s), Pow10(n), Value(t[..n]));
    }
  }

  lemma {:induction false} ValueBound(s: string)
    requires AllDigits(s)
    ensures Value(s) < Pow10(|s|)
  {
    if s != "" {
      ValueBound(s[..|s| - 1]);
    }
  }

  lemma {:induction false} ZerosValue(n: nat)
    ensures AllDigits(Zeros(n)) && Value(Zeros(n)) == 0
  {
    if n > 0 {
      ZerosValue(n - 1);
      assert Zeros(n)[..n - 1] == Zeros(n - 1);
    }
  }

  /** The six fraction digits hold the first six of f: value(f) * 10^6 / 10^|f|, rounded down. */
  lemma FractionValue(f: string)
    requires AllDigits(f)
    ensures var six := Take(PadEnd(f, 6), 6);
      AllDigits(six) && |six| == 6 && Value(six) == Value(f) * UNIT / Pow10(|f|)
  {
    if |f| >= 6 {
      LongFraction(f);
    } else {
      ShortFraction(f);
      assert PadEnd(f, 6)[..6] == PadEnd(f, 6);
    }
  }

  lemma LongFraction(f: string)
    requires AllDigits(f) && |f| >= 6
    ensures Value(f[..6]) == Value(f) * UNIT / Pow10(|f|)
  {
    var head, tail := f[..6], f[6..];
    assert f == head + tail;
    SixIsUnit();
    ValueConcat(head, tail);
    ValueBound(tail);
    Pow10Add(6, |tail|);
    Truncates(Value(head), Value(tail), Pow10(|tail|));
  }

  lemma ShortFraction(f: string)
    requires AllDigits(f) && |f| < 6
    ensures AllDigits(f + Zeros(6 - |f|)) && Value(f + Zeros(6 - |f|)) == Value(f) * UNIT / Pow10(|f|)
  {
    SixIsUnit();
    ZerosValue(6 - |f|);
    ValueConcat(f, Zeros(6 - |f|));
    Pow10Add(|f|, 6 - |f|);
    Divides(Value(f), Pow10(|f|), Pow10(6 - |f|));
  }

  lemma SixIsUnit()
    ensures Pow10(6) == UNIT && Pow10(5) == 100_000
  {
    assert Pow10(1) == 10 && Pow10(2) == 100 && Pow10(3) == 1000;
    assert Pow10(4) == 10_000;
  }

  lemma Truncates(head: nat, tail: nat, p: nat)
    requires tail < p
    ensures UNIT * p > 0 && (head * p + tail) * UNIT / (UNIT * p) == head
  {
    var d := UNIT * p;
    assert head * d == head * p * UNIT;
    QuotientUnique((head * p + tail) * UNIT, d, head);
  }

  lemma Divides(v: nat, p: nat, q: nat)
    requires p > 0 && p * q == UNIT
    ensures v * UNIT / p == v * q
  {
    assert v * (p * q) == (v * q) * p;
    QuotientUnique(v * UNIT, p, v * q);
  }

  lemma {:induction false} SplitWhole(s: string)
    requires '.' !in s
    ensures Split(s) == [s]
  {
    if s != "" {
      SplitWhole(s[1..]);
      assert s == [s[0]] + s[1..];
    }
  }

  lemma {:induction false} SplitPoint(w: string, f: string)
    requires '.' !in w && '.' !in f
    ensures Split(w + "." + f) == [w, f]
  {
    var s := w + "." + f;
    if w == "" {
      SplitWhole(f);
      assert s[1..] == f;
    } else {
      SplitPoint(w[1..], f);
      assert s[1..] == w[1..] + "." + f;
      assert w == [w[0]] + w[1..];
    }
  }

  // ----- Parsing -----

  /** An optional whole part, and after a point an optional fraction, in decimal digits. */
  datatype Decimal = Whole(w: string) | Point(w: string, f: string)

  predicate WellFormed(d: Decimal) {
    AllDigits(d.w) && (d.Point? ==> AllDigits(d.f))
  }

  function Text(d: Decimal): string {
    match d
    case Whole(w) => w
    case Point(w, f) => w + "." + f
  }

  /** The decimal's value is numerator / 10^|f|. */
  function Numerator(d: Decimal): nat
    requires WellFormed(d)
  {
    match d
    case Whole(w) => Value(w)
    case Point(w, f) => Value(w) * Pow10(|f|) + Value(f)
  }

  function Denominator(d: Decimal): nat
    ensures Denominator(d) > 0
  {
    if d.Whole? then 1 else Pow10(|d.f|)
  }

  lemma BigIntDigits(s: string)
    requires AllDigits(s)
    ensures BigInt(s) == Some(Value(s)) && BigInt(OrZero(s)) == Some(Value(s))
  {
    ZeroString();
  }

  lemma ZeroString()
    ensures AllDigits("0") && Value("0") == 0
  {
    assert "0"[..0] == "";
  }

  lemma FractionReads(f: string) returns (frac: int)
    requires AllDigits(f)
    ensures ReadFraction(f) == Some(frac) && frac == Value(f) * UNIT / Pow10(|f|)
  {
    frac := Value(f) * UNIT / Pow10(|f|);
    if f == "" {
      ZeroString();
      FractionValue("0");
      BigIntDigits(Take(PadEnd("0", 6), 6));
    } else {
      FractionValue(f);
      BigIntDigits(Take(PadEnd(f, 6), 6));
    }
  }

  lemma DigitsHaveNoPoint(s: string)
    requires AllDigits(s)
    ensures '.' !in s
  {
  }

  lemma PartsOfPoint(w: string, f: string, frac: int)
    requires AllDigits(w) && ReadFraction(f) == Some(frac)
    ensures ParseParts([w, f]) == Some(Value(w) * UNIT + frac)
  {
    BigIntDigits(w);
  }

  lemma ParseSplit(w: string, f: string)
    requires '.' !in w && '.' !in f
    ensures ParseUSDT(w + "." + f) == ParseParts([w, f])
  {
    SplitPoint(w, f);
  }

  lemma ParseWhole(w: string)
    requires AllDigits(w)
    ensures ParseUSDT(w) == Some(Value(w) * UNIT)
  {
    SplitWhole(w);
    BigIntDigits(w);
  }

  lemma PointValue(w: string, f: string)
    requires AllDigits(w) && AllDigits(f)
    ensures ParseParts([w, f]) == Some((Value(w) * Pow10(|f|) + Value(f)) * UNIT / Pow10(|f|))
  {
    var frac := FractionReads(f);
    PartsOfPoint(w, f, frac);
    WholePlusFraction(Value(w), Value(f), Pow10(|f|), frac);
  }

  lemma PointIsFloor(w: string, f: string)
    requires AllDigits(w) && AllDigits(f)
    ensures ParseUSDT(w + "." + f) == Some((Value(w) * Pow10(|f|) + Value(f)) * UNIT / Pow10(|f|))
  {
    DigitsHaveNoPoint(w);
    DigitsHaveNoPoint(f);
    ParseSplit(w, f);
    PointValue(w, f);
  }

  /** Every well-formed non-negative decimal parses to its value times 10^6, rounded down. */
  lemma ParseIsFloor(d: Decimal)
    requires WellFormed(d)
    ensures ParseUSDT(Text(d)) == Some(Numerator(d) * UNIT / Denominator(d))
  {
    match d
    case Whole(w) => ParseWhole(w);
    case Point(w, f) => PointIsFloor(w, f);
  }

  lemma WholePlusFraction(w: nat, f: nat, p: nat, q: int)
    requires p > 0 && q == f * UNIT / p
    ensures (w * p + f) * UNIT / p == w * UNIT + q
  {
    QuotientBounds(f * UNIT, p);
    assert (w * UNIT + q) * p == w * p * UNIT + q * p;
    QuotientUnique((w * p + f) * UNIT, p, w * UNIT + q);
  }

  lemma {:induction false} SplitTwoPoints(w: string, f: string, rest: string)
    requires '.' !in w && '.' !in f
    ensures |Split(w + "." + f + "." + rest)| > 2 && Split(w + "." + f + "." + rest)[..2] == [w, f]
  {
    var s, tail := w + "." + f + "." + rest, f + "." + rest;
    if w == "" {
      SplitFirst(f, rest);
      assert s[1..] == tail;
    } else {
      SplitTwoPoints(w[1..], f, rest);
      assert s[1..] == w[1..] + "." + f + "." + rest;
      assert w == [w[0]] + w[1..];
    }
  }

  lemma {:induction false} SplitFirst(f: string, rest: string)
    requires '.' !in f
    ensures |Split(f + "." + rest)| > 1 && Split(f + "." + rest)[0] == f
  {
    var s := f + "." + rest;
    if f == "" {
      assert s[1..] == rest;
    } else {
      SplitFirst(f[1..], rest);
      assert s[1..] == f[1..] + "." + rest;
      assert f == [f[0]] + f[1..];
    }
  }

  /** What follows a second point is ignored. */
  lemma SecondPointIgnored(w: string, f: string, rest: string)
    requires '.' !in w && '.' !in f
    ensures ParseUSDT(w + "." + f + "." + rest) == ParseUSDT(w + "." + f)
  {
    SplitTwoPoints(w, f, rest);
    SplitPoint(w, f);
    var parts := Split(w + "." + f + "." + rest);
    assert parts[0] == parts[..2][0] && parts[1] == parts[..2][1];
  }

  lemma NegativeParts(w: string, f: string, frac: int)
    requires AllDigits(w) && w != "" && ReadFraction(f) == Some(frac)
    ensures ParseParts(["-" + w, f]) == Some(-(Value(w) * UNIT) + frac)
  {
    BigIntNegative(w);
  }

  lemma SignedSplit(w: string, f: string)
    requires AllDigits(w) && AllDigits(f)
    ensures ParseUSDT("-" + w + "." + f) == ParseParts(["-" + w, f])
  {
    DigitsHaveNoPoint(w);
    DigitsHaveNoPoint(f);
    ParseSplit("-" + w, f);
  }

  /** A minus sign reaches the whole part only: a negative decimal parses to its value
      exactly when its first six decimals, frac, are zero. */
  lemma NegativeDecimal(w: string, f: string) returns (frac: int)
    requires AllDigits(w) && w != "" && AllDigits(f)
    ensures frac == Value(f) * UNIT / Pow10(|f|) && ParseUSDT("-" + w + "." + f) == Some(-(Value(w) * UNIT) + frac)
    ensures ParseUSDT("-" + w + "." + f) == Some(-(Value(w) * UNIT + frac)) <==> frac == 0
  {
    frac := FractionReads(f);
    NegativeParts(w, f, frac);
    SignedSplit(w, f);
  }

  // ----- Round trip -----

  lemma BigIntNegative(d: string)
    requires AllDigits(d) && d != ""
    ensures BigInt("-" + d) == Some(-(Value(d) as int))
  {
    assert ("-" + d)[1..] == d;
  }

  lemma NegativeDigits(n: int)
    requires n < 0
    ensures BigInt("-" + Digits(-n)) == Some(n)
  {
    var d := Digits(-n);
    DigitsValue(-n);
    BigIntNegative(d);
  }

  lemma BigIntToString(n: int)
    ensures BigInt(ToString(n)) == Some(n)
  {
    if n < 0 {
      NegativeDigits(n);
    } else {
      DigitsValue(n);
    }
  }

  /** What parsing makes of a formatted amount: its whole part always reads back. */
  function Reread(raw: int): Option<int> {
    match ReadFraction(PadStart(ToString(Remainder(raw, UNIT)), USDT_DECIMALS))
    case None => None
    case Some(frac) => Some(Quotient(raw, UNIT) * UNIT + frac)
  }

  lemma PrintedPart(n: int)
    ensures ToString(n) != "" && '.' !in ToString(n)
  {
    var d := if n < 0 then Digits(-n) else Digits(n);
    DigitsHaveNoPoint(d);
  }

  lemma PaddedPart(s: string, n: nat)
    requires s != "" && '.' !in s
    ensures PadStart(s, n) != "" && '.' !in PadStart(s, n)
  {
  }

  lemma ParseFormatted(raw: int)
    ensures ParseUSDT(FormatUSDT(raw)) == Reread(raw)
  {
    var q, r := Quotient(raw, UNIT), Remainder(raw, UNIT);
    PrintedPart(q);
    PrintedPart(r);
    PaddedPart(ToString(r), USDT_DECIMALS);
    ParseSplit(ToString(q), PadStart(ToString(r), USDT_DECIMALS));
    BigIntToString(q);
  }

  /** No leading zero, but for zero itself. */
  lemma {:induction false} DigitsLead(n: nat)
    ensures |Digits(n)| > 1 ==> Digits(n)[0] != '0'
  {
    if n >= 10 {
      DigitsLead(n / 10);
      DigitsFirst(n / 10);
    }
  }

  lemma DigitsFirst(n: nat)
    requires n > 0
    ensures Digits(n)[0] != '0'
  {
    if n >= 10 {
      DigitsFirst(n / 10);
    }
  }

  function SixDigits(r: nat): string
    requires |Digits(r)| <= 6
  {
    Zeros(6 - |Digits(r)|) + Digits(r)
  }

  lemma FormatsAs(raw: nat)
    requires |Digits(raw % UNIT)| <= 6
    ensures FormatUSDT(raw) == Text(Point(Digits(raw / UNIT), SixDigits(raw % UNIT)))
  {
    assert Remainder(raw, UNIT) == raw % UNIT;
  }

  /** A non-negative amount prints as its exact value with six decimals and no leading zero. */
  lemma FormatIsExact(raw: nat) returns (d: Decimal)
    ensures d.Point? && WellFormed(d) && FormatUSDT(raw) == Text(d)
    ensures |d.f| == 6 && Numerator(d) * UNIT == raw * Denominator(d)
    ensures |d.w| >= 1 && (|d.w| > 1 ==> d.w[0] != '0')
  {
    var q, r := raw / UNIT, raw % UNIT;
    DigitCounts(r);
    d := Point(Digits(q), SixDigits(r));
    FormatsAs(raw);
    PaddedValue(r);
    DigitsValue(q);
    DigitsLead(q);
    SixIsUnit();
    assert Denominator(d) == UNIT && Numerator(d) == raw;
  }

  /** The fraction of a non-negative amount reads back. */
  lemma NaturalFraction(f: nat)
    requires f < UNIT
    ensures ReadFraction(PadStart(ToString(f), 6)) == Some(f as int)
  {
    DigitCounts(f);
    var s := Zeros(6 - |Digits(f)|) + Digits(f);
    PaddedValue(f);
    BigIntDigits(s);
    assert s == PadStart(ToString(f), 6) && s[..6] == s;
  }

  lemma PaddedValue(f: nat)
    requires |Digits(f)| <= 6
    ensures AllDigits(Zeros(6 - |Digits(f)|) + Digits(f)) && Value(Zeros(6 - |Digits(f)|) + Digits(f)) == f
  {
    DigitsValue(f);
    ZerosValue(6 - |Digits(f)|);
    ValueConcat(Zeros(6 - |Digits(f)|), Digits(f));
  }

  lemma DigitCounts(f: nat)
    requires f < UNIT
    ensures |Digits(f)| <= 6
    ensures |Digits(f)| == 5 <==> 10_000 <= f <= 99_999
  {
    SixIsUnit();
    assert Pow10(2) == 100 && Pow10(4) == 10_000 && Pow10(5) == 100_000;
    DigitsLength(f, 6);
    DigitsLength(f, 5);
    DigitsLength(f, 4);
  }

  /** With six digits and the sign the last digit is cut off. */
  lemma SixDigitsCut(d: string)
    requires AllDigits(d) && |d| == 6
    ensures ReadFraction(PadStart("-" + d, 6)) == Some(-(Value(d[..5]) as int))
    ensures Value(d[..5]) < 100_000
  {
    var s := ("-" + d)[..6];
    assert s[0] == '-' && s[1..] == d[..5];
    ValueBound(d[..5]);
    assert Pow10(5) == 100_000 by { SixIsUnit(); }
  }

  /** With fewer than five the padding goes before the sign. */
  lemma ZerosBeforeSign(d: string)
    requires 1 <= |d| < 5
    ensures ReadFraction(PadStart("-" + d, 6)).None?
  {
    var s := PadStart("-" + d, 6);
    assert s[..6] == s && s[0] == '0' && s[5 - |d|] == '-';
  }

  /** The fraction of a negative amount reads back only with exactly five digits. */
  lemma NegativeFraction(g: int)
    requires -UNIT < g < 0
    ensures ReadFraction(PadStart(ToString(g), 6)) == Some(g) <==> 10_000 <= -g <= 99_999
  {
    DigitCounts(-g);
    var d := Digits(-g);
    if |d| == 6 {
      SixDigitsCut(d);
      DigitsLength(-g, 5);
      assert Pow10(5) == 100_000 by { SixIsUnit(); }
    } else if |d| == 5 {
      NegativeDigits(g);
      assert ("-" + d)[..6] == "-" + d;
    } else {
      ZerosBeforeSign(d);
    }
  }

  /** Formatting then parsing gives the amount back for every natural amount, and for
      a negative one exactly when its fraction is zero or has five digits. */
  lemma RoundTripExactly(raw: int)
    ensures ParseUSDT(FormatUSDT(raw)) == Some(raw)
      <==> raw >= 0 || (-raw) % UNIT == 0 || 10_000 <= (-raw) % UNIT <= 99_999
  {
    ParseFormatted(raw);
    if Remainder(raw, UNIT) >= 0 {
      NaturalFraction(Remainder(raw, UNIT));
    } else {
      NegativeFraction(Remainder(raw, UNIT));
    }
  }
}
