/**
 Rounding of published rates to eight significant digits (currscript.js:911-930), on exact reals, and
 the validator's comparison (scripts/validate-package.js:487-491). `toFixed` follows section
 21.1.3.3 of ECMA-262.
 */
module Rounding {
  import opened Wrappers

  function Pow10(k: nat): nat
  {
    if k == 0 then 1 else 10 * Pow10(k - 1)
  }

  lemma {:induction false} Pow10Positive(k: nat)
    ensures Pow10(k) >= 1
  {
    if k > 0 { Pow10Positive(k - 1); }
  }

  lemma {:induction false} Pow10Sum(a: nat, b: nat)
    ensures Pow10(a + b) == Pow10(a) * Pow10(b)
  {
    if a > 0 { Pow10Sum(a - 1, b); }
  }

  /** Whole division by repeated subtraction. */
  function Quotient(n: nat, p: nat): nat
    requires p >= 1
  {
    if n < p then 0 else 1 + Quotient(n - p, p)
  }

  function Remainder(n: nat, p: nat): nat
    requires p >= 1
  {
    if n < p then n else Remainder(n - p, p)
  }

  lemma {:induction false} Division(n: nat, p: nat)
    requires p >= 1
    ensures n == Quotient(n, p) * p + Remainder(n, p) && Remainder(n, p) < p
  {
    if n >= p { Division(n - p, p); }
  }

  lemma TimesKeepOrder(a: int, b: int, p: nat)
    requires a <= b
    ensures a * p <= b * p
  {
    assert (b - a) * p == b * p - a * p;
  }

  lemma QuotientBound(n: nat, p: nat, k: nat)
    requires p >= 1
    ensures n < k * p <==> Quotient(n, p) < k
  {
    Division(n, p);
    var q := Quotient(n, p);
    hide Quotient, Remainder;
    if q >= k { TimesKeepOrder(k, q, p); }
    if q < k {
      TimesKeepOrder(q + 1, k, p);
      assert (q + 1) * p == q * p + p;
    }
  }

  // ---- decimal strings ------------------------------------------------------------------

  /** A fixed-point decimal: the whole part and the digits after the point. */
  datatype Decimal = Decimal(whole: nat, digits: seq<nat>)

  /** The `f` decimal digits of n < 10^f, most significant first. */
  function Digits(n: nat, f: nat): seq<nat>
    decreases f
  {
    if f == 0 then []
    else
      Pow10Positive(f - 1);
      [Quotient(n, Pow10(f - 1))] + Digits(Remainder(n, Pow10(f - 1)), f - 1)
  }

  function DigitsValue(s: seq<nat>): nat {
    if s == [] then 0 else s[0] * Pow10(|s| - 1) + DigitsValue(s[1..])
  }

  lemma {:induction false} DigitsRoundTrip(n: nat, f: nat)
    requires n < Pow10(f)
    ensures |Digits(n, f)| == f && DigitsValue(Digits(n, f)) == n
    ensures forall i :: 0 <= i < f ==> Digits(n, f)[i] < 10
  {
    hide Quotient, Remainder;
    if f > 0 {
      Pow10Positive(f - 1);
      var p := Pow10(f - 1);
      Division(n, p);
      DigitsRoundTrip(Remainder(n, p), f - 1);
      assert Digits(n, f)[1..] == Digits(Remainder(n, p), f - 1);
      QuotientBound(n, p, 10);
    }
  }

  function LeadingZeros(s: seq<nat>): nat {
    if s != [] && s[0] == 0 then 1 + LeadingZeros(s[1..]) else 0
  }

  /** The zeros in front say how large the number is. */
  lemma {:induction false} LeadingZerosMeasure(n: nat, f: nat)
    requires n < Pow10(f)
    ensures var z := LeadingZeros(Digits(n, f)); z <= f && n < Pow10(f - z) && (z < f ==> Pow10(f - z - 1) <= n)
  {
    if f > 0 {
      FirstDigit(n, f);
      hide Pow10, Digits;
      if n < Pow10(f - 1) { LeadingZerosMeasure(n, f - 1); }
    }
  }

  lemma FirstDigit(n: nat, f: nat)
    requires f > 0 && n < Pow10(f)
    ensures var s := Digits(n, f);
      s != [] && (s[0] == 0 <==> n < Pow10(f - 1)) && (n < Pow10(f - 1) ==> s[1..] == Digits(n, f - 1))
  {
    hide Quotient, Remainder;
    Pow10Positive(f - 1);
    var p := Pow10(f - 1);
    QuotientBound(n, p, 1);
    Division(n, p);
    if n < p { assert n == 0 * p + Remainder(n, p); }
  }

  // ---- toFixed --------------------------------------------------------------------------------

  function Times(a: real, b: real): real { a * b }

  function Ratio(a: real, b: real): real
    requires b >= 1.0
  {
    a / b
  }

  /** The integer nearest to y, the larger one on a tie. */
  function Nearest(y: real): int { (y + 0.5).Floor }

  function Scale(f: nat): (p: real)
    ensures p >= 1.0
  {
    Pow10Positive(f);
    Pow10(f) as real
  }

  /** n / 10^f written out. */
  function Written(n: nat, f: nat): Decimal {
    Pow10Positive(f);
    Decimal(Quotient(n, Pow10(f)), Digits(Remainder(n, Pow10(f)), f))
  }

  lemma ScaledNotNegative(x: real, f: nat)
    requires x >= 0.0
    ensures Times(x, Scale(f)) >= 0.0 && Nearest(Times(x, Scale(f))) >= 0
  {
  }

  /** x with `f` digits after the point. */
  function ToFixed(x: real, f: nat): Decimal
    requires x >= 0.0
  {
    ScaledNotNegative(x, f);
    Written(Nearest(Times(x, Scale(f))), f)
  }

  /** parseFloat of such a decimal. */
  function Parse(d: Decimal): real {
    d.whole as real + Ratio(DigitsValue(d.digits) as real, Scale(|d.digits|))
  }

  lemma Distribute(q: real, r: real, p: real)
    requires p >= 1.0
    ensures Times(q + Ratio(r, p), p) == Times(q, p) + r
  {
  }

  lemma RealProduct(a: nat, b: nat)
    ensures (a * b) as real == Times(a as real, b as real)
  {
  }

  lemma FixedParts(n: nat, f: nat)
    ensures Pow10(f) >= 1 && Remainder(n, Pow10(f)) < Pow10(f)
    ensures Times(Quotient(n, Pow10(f)) as real, Scale(f)) + Remainder(n, Pow10(f)) as real == n as real
  {
    Pow10Positive(f);
    Division(n, Pow10(f));
    RealProduct(Quotient(n, Pow10(f)), Pow10(f));
    hide Quotient, Remainder, Times, Pow10;
  }

  /** Reading back what was written gives n / 10^f. */
  lemma ParseOfWritten(n: nat, f: nat)
    ensures Times(Parse(Written(n, f)), Scale(f)) == n as real
  {
    FixedParts(n, f);
    DigitsRoundTrip(Remainder(n, Pow10(f)), f);
    hide Times, Ratio, Digits, DigitsValue, Pow10, Quotient, Remainder;
    Distribute(Quotient(n, Pow10(f)) as real, Remainder(n, Pow10(f)) as real, Scale(f));
  }

  // ---- significant digits ----------------------------------------------------------------------

  const MIN_DIGITS := 8

  /** toFixed takes at most this many digits. */
  const MAX_DIGITS := 100

  datatype Outcome = Value(v: real) | TypeError | RangeError

  /** From 10^21 on, toFixed prints the number itself. */
  function ReadFixed(x: real, f: nat): real
    requires x >= 0.0
  {
    if x >= Scale(21) then x else Parse(ToFixed(x, f))
  }

  function SignificantNum(x: real): Outcome {
    if x <= 0.0 then Value(0.0)
    else if x >= 0.1 then Value(ReadFixed(x, MIN_DIGITS))
    else
      var str := ToFixed(x, MAX_DIGITS);
      var zeros := LeadingZeros(str.digits);
      if str.whole != 0 || zeros == 0 then TypeError
      else if MIN_DIGITS + zeros > MAX_DIGITS then RangeError
      else Value(Parse(ToFixed(x, MIN_DIGITS + zeros)))
  }

  lemma {:induction false} Pow10Grows(a: nat, b: nat)
    requires a < b
    ensures 10 * Pow10(a) <= Pow10(b)
  {
    if a + 1 < b { Pow10Grows(a, b - 1); }
  }

  lemma Sevens()
    ensures Pow10(7) == 10_000_000 && Pow10(8) == 100_000_000
  {
    assert Pow10(2) == 100;
    assert Pow10(4) == 10_000;
    assert Pow10(6) == 1_000_000;
  }

  /** The number of zeros against the number itself, in units of 10^-100. */
  lemma ZerosMeasure(x: real)
    requires 0.0 < x < 0.1
    ensures var str, u := ToFixed(x, MAX_DIGITS), Times(x, Scale(MAX_DIGITS));
      var n, z := Nearest(u), LeadingZeros(str.digits);
      str.whole == 0 && 0 <= n <= Pow10(99) && z <= 100 && n < Pow10(100 - z) && (z < 100 ==> Pow10(99 - z) <= n)
  {
    hide Digits, LeadingZeros, Times, Pow10, Quotient, Remainder;
    ScaledNotNegative(x, MAX_DIGITS);
    var n: nat := Nearest(Times(x, Scale(MAX_DIGITS)));
    Pow10Step(99);
    Pow10Positive(99);
    TenthOf(x, Scale(MAX_DIGITS), Pow10(99));
    hide Nearest;
    Small(n, Pow10(MAX_DIGITS));
    LeadingZerosMeasure(n, MAX_DIGITS);
  }

  lemma Pow10Step(k: nat)
    ensures Pow10(k + 1) == 10 * Pow10(k)
  {
  }

  lemma Small(n: nat, p: nat)
    requires n < p
    ensures Quotient(n, p) == 0 && Remainder(n, p) == n
  {
  }

  lemma TenthOf(x: real, p: real, t: nat)
    requires 0.0 < x < 0.1 && p == 10.0 * t as real && t >= 1
    ensures Nearest(Times(x, p)) <= t
  {
    assert Times(x, p) < t as real by {
      assert x * p < 0.1 * p;
    }
  }

  /** Exactly when rounding below 0.1 succeeds: not so close to 0.1 that it prints as 0.1, and not too small. */
  predicate Roundable(x: real) {
    10_000_000.0 <= Times(x, Scale(MAX_DIGITS)) + 0.5 < Scale(99)
  }

  lemma ZerosAgainstSize(n: nat, z: nat)
    requires z <= 100 && n < Pow10(100 - z) && (z < 100 ==> Pow10(99 - z) <= n) && n <= Pow10(99)
    ensures z <= 92 <==> Pow10(7) <= n
    ensures z >= 1 <==> n < Pow10(99)
  {
    hide Pow10;
    if z > 92 { if 100 - z < 7 { Pow10Grows(100 - z, 7); } }
    else if 7 < 99 - z { Pow10Grows(7, 99 - z); }
    if z > 0 { if 100 - z < 99 { Pow10Grows(100 - z, 99); } }
  }

  lemma SucceedsIff(x: real)
    requires 0.0 < x < 0.1
    ensures SignificantNum(x).Value? <==> Roundable(x)
    ensures SignificantNum(x) == TypeError <==> Times(x, Scale(MAX_DIGITS)) + 0.5 >= Scale(99)
  {
    Sevens();
    hide ToFixed, LeadingZeros, Times, Pow10;
    ZerosMeasure(x);
    ZerosAgainstSize(Nearest(Times(x, Scale(MAX_DIGITS))), LeadingZeros(ToFixed(x, MAX_DIGITS).digits));
  }

  lemma RatioTimes(a: real, p: real)
    requires p >= 1.0
    ensures Times(Ratio(a, p), p) == a
  {
  }

  /** One unit of the hundredth digit is too small: it would need more digits than toFixed has. */
  lemma TooSmallToRound() returns (x: real)
    ensures 0.0 < x < 0.1 && SignificantNum(x) == RangeError
  {
    hide Pow10, ToFixed;
    Pow10Step(99);
    Pow10Positive(99);
    x := Ratio(1.0, Scale(MAX_DIGITS));
    RatioTimes(1.0, Scale(MAX_DIGITS));
    SmallRatio(1.0, Scale(MAX_DIGITS));
    Pow10Grows(1, 99);
    TenIsTen();
    SucceedsIff(x);
    hide SignificantNum, Times, Ratio;
    OnlyThreeOutcomes(x);
  }

  lemma TenIsTen()
    ensures Pow10(1) == 10
  {
  }

  lemma SmallRatio(a: real, p: real)
    requires p >= 10.0 && 0.0 < a
    ensures 0.0 < Ratio(a, p) && (10.0 * a < p ==> Ratio(a, p) < 0.1)
  {
  }

  lemma OnlyThreeOutcomes(x: real)
    ensures SignificantNum(x).Value? || SignificantNum(x) == TypeError || SignificantNum(x) == RangeError
  {
  }

  /** A quarter unit of the hundredth digit below 0.1 prints as 0.1, and the search for zeros finds none. */
  lemma PrintsAsTenth() returns (x: real)
    ensures 0.0 < x < 0.1 && SignificantNum(x) == TypeError
  {
    hide Pow10, ToFixed, SignificantNum;
    Pow10Step(99);
    Pow10Positive(99);
    var p, a := Scale(MAX_DIGITS), Scale(99) - 0.25;
    x := Ratio(a, p);
    RatioTimes(a, p);
    SmallRatio(a, p);
    SucceedsIff(x);
  }

  // ---- error bounds --------------------------------------------------------------------------------

  function Abs(x: real): real { if x < 0.0 then -x else x }

  /** Rounded and exact value, in units of the last printed digit. */
  lemma FixedWithin(x: real, f: nat)
    requires x >= 0.0
    ensures Times(Parse(ToFixed(x, f)), Scale(f)) == Nearest(Times(x, Scale(f))) as real
  {
    hide Times, Written, Parse, Scale, Nearest;
    ScaledNotNegative(x, f);
    ParseOfWritten(Nearest(Times(x, Scale(f))), f);
  }

  lemma NearestWithin(y: real)
    ensures Abs(Nearest(y) as real - y) <= 0.5
  {
  }

  lemma TimesStrict(a: real, b: real, p: real)
    requires a > b && p >= 1.0
    ensures Times(a, p) > Times(b, p)
  {
    assert (a - b) * p > 0.0;
  }

  lemma TimesCancels(a: real, b: real, p: real)
    requires p >= 1.0 && Times(a, p) <= Times(b, p)
    ensures a <= b
  {
    if a > b { TimesStrict(a, b, p); }
  }

  lemma TimesLinear(a: real, b: real, k: real, p: real)
    ensures Times(a - b, p) == Times(a, p) - Times(b, p) && Times(b - a, p) == Times(b, p) - Times(a, p)
    ensures Times(k * a, p) == k * Times(a, p)
  {
    assert (k * a) * p == k * (a * p);
  }

  /** A small error in scaled units is as small relative to x. */
  lemma RelativeFromScaled(v: real, x: real, p: real)
    requires p >= 1.0 && x > 0.0 && 20_000_000.0 * Abs(Times(v, p) - Times(x, p)) <= Times(x, p)
    ensures 20_000_000.0 * Abs(v - x) <= x && v > 0.0
  {
    TimesLinear(v, x, 20_000_000.0, p);
    TimesLinear(v - x, x, 20_000_000.0, p);
    TimesLinear(x - v, x, 20_000_000.0, p);
    hide Times;
    if v >= x { TimesOrder(v, x, p); TimesCancels(20_000_000.0 * (v - x), x, p); }
    else { TimesOrder(x, v, p); TimesCancels(20_000_000.0 * (x - v), x, p); }
  }

  lemma TimesOrder(a: real, b: real, p: real)
    requires a >= b && p >= 1.0
    ensures Times(a, p) >= Times(b, p)
  {
    assert (a - b) * p >= 0.0;
  }

  /** x in units of 10^-(8+z), against its first 100 digits. */
  lemma ScaledSize(x: real, z: nat)
    requires z <= 92
    ensures Scale(MAX_DIGITS) == Times(Scale(MIN_DIGITS + z), Scale(92 - z))
    ensures Pow10(99 - z) == 10_000_000 * Pow10(92 - z)
    ensures Times(x, Scale(MAX_DIGITS)) == Times(Times(x, Scale(MIN_DIGITS + z)), Scale(92 - z))
  {
    Pow10Sum(8 + z, 92 - z);
    Pow10Sum(7, 92 - z);
    Sevens();
    RealProduct(Pow10(8 + z), Pow10(92 - z));
    hide Pow10;
    assert 8 + z + (92 - z) == 100;
    Associate(x, Scale(MIN_DIGITS + z), Scale(92 - z));
  }

  lemma Associate(a: real, b: real, c: real)
    ensures Times(a, Times(b, c)) == Times(Times(a, b), c)
  {
  }

  /** Not below 10^-93. */
  predicate LargeEnough(x: real) { Times(x, Scale(93)) >= 1.0 }

  lemma JustBelow(y: real, q: real)
    requires q >= 10.0 && y < 10_000_000.0 && 10_000_000.0 * q <= Times(y, q) + 0.5
    ensures 10_000_000.0 - y <= 0.05
  {
    var d := 10_000_000.0 - y;
    assert Times(d, q) <= 0.5 by { TimesLinear(10_000_000.0, y, 1.0, q); }
    hide Times;
    if d > 0.05 { TimesStrict(d, 0.05, q); TenTimes(q); }
  }

  lemma TenTimes(q: real)
    requires q >= 10.0
    ensures Times(0.05, q) >= 0.5
  {
  }

  /** Either y is a full seven digits long, or it is just below 10^7 and rounds up to it. */
  lemma SmallScaled(y: real, q: real, z: nat)
    requires z <= 92 && q == Scale(92 - z) && 10_000_000.0 * q <= Times(y, q) + 0.5
    requires z == 92 ==> y >= 10_000_000.0
    ensures 20_000_000.0 * Abs(Nearest(y) as real - y) <= y
  {
    hide Times, Pow10;
    if y >= 10_000_000.0 {
      NearestWithin(y);
    } else {
      Pow10Step(91 - z);
      Pow10Positive(91 - z);
      JustBelow(y, q);
    }
  }

  /** Which digits are kept, and what the first 100 say about them. */
  lemma SmallShape(x: real) returns (z: nat)
    requires 0.0 < x < 0.1 && LargeEnough(x) && SignificantNum(x).Value?
    ensures 1 <= z <= 92 && SignificantNum(x) == Value(Parse(ToFixed(x, MIN_DIGITS + z)))
    ensures 10_000_000.0 * Scale(92 - z) <= Times(Times(x, Scale(MIN_DIGITS + z)), Scale(92 - z)) + 0.5
    ensures z == 92 ==> Times(x, Scale(MIN_DIGITS + z)) >= 10_000_000.0
  {
    hide ToFixed, LeadingZeros, Times, Pow10, LargeEnough, Nearest;
    z := LeadingZeros(ToFixed(x, MAX_DIGITS).digits);
    ZerosMeasure(x);
    hide SignificantNum;
    NearestWithin(Times(x, Scale(MAX_DIGITS)));
    ScaledSize(x, z);
    if z == 92 { LargeEnoughScaled(x); }
  }

  lemma SmallRelative(x: real)
    requires 0.0 < x < 0.1 && LargeEnough(x) && SignificantNum(x).Value?
    ensures SignificantNum(x).v > 0.0 && 20_000_000.0 * Abs(SignificantNum(x).v - x) <= x
  {
    hide SignificantNum, ToFixed, Parse, Times, Pow10, Nearest, LargeEnough, Scale;
    var z := SmallShape(x);
    FixedWithin(x, MIN_DIGITS + z);
    SmallScaled(Times(x, Scale(MIN_DIGITS + z)), Scale(92 - z), z);
    RelativeFromScaled(Parse(ToFixed(x, MIN_DIGITS + z)), x, Scale(MIN_DIGITS + z));
  }

  lemma LargeEnoughScaled(x: real)
    requires LargeEnough(x)
    ensures Times(x, Scale(MAX_DIGITS)) >= 10_000_000.0
  {
    Pow10Sum(93, 7);
    Sevens();
    RealProduct(Pow10(93), Pow10(7));
    hide Pow10;
    assert 93 + 7 == 100;
    Associate(x, Scale(93), Scale(7));
    TimesOrder(Times(x, Scale(93)), 1.0, Scale(7));
  }

  lemma MediumScaled(x: real)
    requires x >= 0.1
    ensures Times(x, Scale(MIN_DIGITS)) >= 10_000_000.0
  {
    Sevens();
    hide Pow10;
    TimesOrder(x, 0.1, Scale(MIN_DIGITS));
  }

  lemma MediumRelative(x: real)
    requires x >= 0.1
    ensures SignificantNum(x).Value? && SignificantNum(x).v > 0.0 && 20_000_000.0 * Abs(SignificantNum(x).v - x) <= x
  {
    if x < Scale(21) {
      MediumScaled(x);
      FixedWithin(x, MIN_DIGITS);
      NearestWithin(Times(x, Scale(MIN_DIGITS)));
      hide ToFixed, Times, Pow10, Nearest;
      RelativeFromScaled(Parse(ToFixed(x, MIN_DIGITS)), x, Scale(MIN_DIGITS));
    }
  }

  /** On every ratio from 10^-93 up, whatever is printed is positive and within 5e-8 of the ratio, relatively. */
  lemma RelativeError(x: real)
    requires x > 0.0 && LargeEnough(x) && SignificantNum(x).Value?
    ensures SignificantNum(x).v > 0.0 && Abs(SignificantNum(x).v - x) <= 0.00000005 * x
  {
    hide SignificantNum, LargeEnough;
    if x < 0.1 { SmallRelative(x); } else { MediumRelative(x); }
  }

  /** There it fails only where the ratio prints as 0.1 without being 0.1. */
  lemma FailsOnlyBelowTenth(x: real)
    requires x > 0.0 && LargeEnough(x)
    ensures !SignificantNum(x).Value? <==> x < 0.1 && Times(x, Scale(MAX_DIGITS)) + 0.5 >= Scale(99)
  {
    hide SignificantNum, LargeEnough, Times, Pow10;
    if x < 0.1 {
      SucceedsIff(x);
      LargeEnoughScaled(x);
    } else {
      MediumRelative(x);
    }
  }

  // ---- the validator's comparison ----------------------------------------------------------------------

  function Max(a: real, b: real): real { if a >= b then a else b }

  predicate ApproximatelyEqual(left: real, right: real, epsilon: real) {
    Ratio(Abs(left - right), Max(Max(Abs(left), Abs(right)), 1.0)) <= epsilon
  }

  lemma AbsoluteFromScaled(v: real, x: real, p: real)
    requires p >= 100_000_000.0 && Abs(Times(v, p) - Times(x, p)) <= 0.5
    ensures Abs(v - x) <= 0.000000005
  {
    TimesLinear(v, x, 1.0, p);
    AtLeastHalf(p);
    hide Times;
    if v - x > 0.000000005 { TimesStrict(v - x, 0.000000005, p); }
    if x - v > 0.000000005 { TimesStrict(x - v, 0.000000005, p); }
  }

  lemma AtLeastHalf(p: real)
    requires p >= 100_000_000.0
    ensures Times(0.000000005, p) >= 0.5
  {
  }

  lemma EightDigitsScale(f: nat)
    requires f >= MIN_DIGITS
    ensures Scale(f) >= 100_000_000.0
  {
    Sevens();
    hide Pow10;
    if f > 8 { Pow10Grows(8, f); }
  }

  lemma AbsoluteError(x: real, f: nat)
    requires x >= 0.0 && f >= MIN_DIGITS
    ensures Abs(Parse(ToFixed(x, f)) - x) <= 0.000000005
  {
    hide ToFixed, Parse, Times, Nearest;
    FixedWithin(x, f);
    NearestWithin(Times(x, Scale(f)));
    EightDigitsScale(f);
    hide Scale;
    AbsoluteFromScaled(Parse(ToFixed(x, f)), x, Scale(f));
  }

  lemma CloseIsApproximate(left: real, right: real)
    requires Abs(left - right) <= 0.000000005
    ensures ApproximatelyEqual(left, right, 0.00000001)
  {
    var d, m := Abs(left - right), Max(Max(Abs(left), Abs(right)), 1.0);
    SmallOverLarge(d, m);
  }

  lemma SmallOverLarge(d: real, m: real)
    requires 0.0 <= d <= 0.000000005 && m >= 1.0
    ensures Ratio(d, m) <= 0.00000001
  {
  }

  /** Every rate that can be published passes the validator. */
  lemma PublishedRatePasses(x: real)
    requires x > 0.0 && SignificantNum(x).Value?
    ensures ApproximatelyEqual(x, SignificantNum(x).v, 0.00000001)
  {
    hide ToFixed, Parse, Pow10, Ratio, ApproximatelyEqual, Scale;
    if x >= 0.1 {
      AbsoluteError(x, MIN_DIGITS);
    } else {
      AbsoluteError(x, MIN_DIGITS + LeadingZeros(ToFixed(x, MAX_DIGITS).digits));
    }
    CloseIsApproximate(x, SignificantNum(x).v);
  }

  /** The ratios to one currency; None when the rounding of one of them throws. */
  method ComputeCrossRates(fromRate: real, rates: map<string, real>) returns (output: Option<map<string, real>>)
    ensures fromRate <= 0.0 ==> output == Some(map[])
    ensures fromRate > 0.0 ==>
      (output.Some? <==> forall code :: code in rates ==> SignificantNum(rates[code] / fromRate).Value?)
    ensures fromRate > 0.0 && output.Some? ==> output.value.Keys == rates.Keys
    ensures output.Some? ==> forall code :: code in output.value ==>
      code in rates && SignificantNum(rates[code] / fromRate) == Value(output.value[code])
    ensures output.Some? ==> forall code :: code in output.value && rates[code] / fromRate > 0.0 ==>
      ApproximatelyEqual(rates[code] / fromRate, output.value[code], 0.00000001)
  {
    hide SignificantNum, ApproximatelyEqual;
    var computed: map<string, real> := map[];
    if fromRate <= 0.0 { return Some(computed); }
    var pending := rates.Keys;
    while pending != {}
      invariant pending <= rates.Keys && computed.Keys == rates.Keys - pending
      invariant forall code :: code in computed ==> SignificantNum(rates[code] / fromRate) == Value(computed[code])
    {
      var code :| code in pending;
      pending := pending - {code};
      var rounded := SignificantNum(rates[code] / fromRate);
      if !rounded.Value? { return None; }
      computed := computed[code := rounded.v];
    }
    forall code | code in computed && rates[code] / fromRate > 0.0
      ensures ApproximatelyEqual(rates[code] / fromRate, computed[code], 0.00000001)
    {
      PublishedRatePasses(rates[code] / fromRate);
    }
    return Some(computed);
  }
}
