/**
 * Exact multiplication of whole points by a decimal written as a string
 * (packages/guardrails/src/decimal.ts): the one rounding step in the points economy.
 */
module Decimal {
  import opened Common

  const MAX_SAFE_INTEGER: int := 9_007_199_254_740_991

  datatype DecimalError = InvalidMultiplicand | InvalidDecimal | ResultOutOfRange

  predicate IsDigit(c: char) { '0' <= c <= '9' }

  predicate AllDigits(s: string) { forall i :: 0 <= i < |s| ==> IsDigit(s[i]) }

  /** The two capture positions of `split(".")`; no fraction part when there is no point. */
  function Split(s: string): (parts: (string, Option<string>))
    ensures parts.1.None? ==> s == parts.0
    ensures parts.1.Some? ==> s == parts.0 + "." + parts.1.value
    ensures '.' !in parts.0
  {
    if s == "" then ("", None)
    else if s[0] == '.' then assert s == "" + "." + s[1..]; ("", Some(s[1..]))
    else
      var (head, tail) := Split(s[1..]);
      assert tail.Some? ==> s == ([s[0]] + head) + "." + tail.value;
      ([s[0]] + head, tail)
  }

  /** An integer part without superfluous leading zeros: `0|[1-9]\d*`. */
  predicate IsIntegerPart(s: string) {
    s == "0" || (s != "" && AllDigits(s) && s[0] != '0')
  }

  predicate IsFractionPart(s: string) { s != "" && AllDigits(s) }

  /** The recogniser the code runs. */
  predicate MatchesPattern(s: string) {
    var (integerPart, fraction) := Split(s);
    IsIntegerPart(integerPart) && (fraction.None? || IsFractionPart(fraction.value))
  }

  /** The language of the pattern, written as a set of strings rather than a recogniser. */
  ghost predicate InPatternLanguage(s: string) {
    || IsIntegerPart(s)
    || (exists i, f :: IsIntegerPart(i) && IsFractionPart(f) && s == i + "." + f)
  }

  function WithoutZeros(s: string): string {
    if s == "" then "" else if s[0] == '0' then WithoutZeros(s[1..]) else [s[0]] + WithoutZeros(s[1..])
  }

  function WithoutZerosAndPoints(s: string): string {
    if s == "" then ""
    else if s[0] == '0' || s[0] == '.' then WithoutZerosAndPoints(s[1..])
    else [s[0]] + WithoutZerosAndPoints(s[1..])
  }

  predicate IsPositiveDecimal(s: string) {
    MatchesPattern(s) && |WithoutZerosAndPoints(s)| > 0
  }

  function DigitValue(c: char): (d: nat)
    requires IsDigit(c)
    ensures d < 10
  {
    c as int - '0' as int
  }

  /** `BigInt(digits)`; the empty string reads as zero. */
  function ParseDigits(s: string): nat
    requires AllDigits(s)
  {
    if s == "" then 0 else 10 * ParseDigits(s[..|s| - 1]) + DigitValue(s[|s| - 1])
  }

  function PowerOfTen(n: nat): (p: nat)
    ensures p >= 1
  {
    if n == 0 then 1 else 10 * PowerOfTen(n - 1)
  }

  function Fraction(s: string): string {
    var fraction := Split(s).1;
    if fraction.Some? then fraction.value else ""
  }

  lemma PatternDigits(s: string)
    requires MatchesPattern(s)
    ensures AllDigits(Split(s).0 + Fraction(s))
  {
  }

  /** The decimal as an exact rational: Numerator / Denominator. */
  function Numerator(s: string): nat
    requires MatchesPattern(s)
  {
    PatternDigits(s);
    ParseDigits(Split(s).0 + Fraction(s))
  }

  function Denominator(s: string): (d: nat)
    ensures d >= 1
  {
    PowerOfTen(|Fraction(s)|)
  }

  predicate ValidMultiplicand(m: int) { 0 <= m <= MAX_SAFE_INTEGER }

  /** `multiplyByDecimal`: every branch in the order the code takes them. */
  function MultiplyByDecimal(multiplicand: int, decimal: string): Result<int, DecimalError> {
    if !ValidMultiplicand(multiplicand) then Err(InvalidMultiplicand)
    else if !MatchesPattern(decimal) then Err(InvalidDecimal)
    else if |WithoutZeros(Split(decimal).0 + Fraction(decimal))| == 0 then Err(InvalidDecimal)
    else
      var denominator := Denominator(decimal);
      var product := multiplicand * Numerator(decimal);
      var quotient := product / denominator;
      var remainder := product % denominator;
      var rounded := quotient + (if remainder * 2 >= denominator then 1 else 0);
      if rounded > MAX_SAFE_INTEGER then Err(ResultOutOfRange) else Ok(rounded)
  }

  // ---------------------------------------------------------------- the pattern

  lemma {:induction false} SplitOfJoin(i: string, f: string)
    requires '.' !in i
    ensures Split(i + "." + f) == (i, Some(f))
  {
    var s := i + "." + f;
    if i == "" {
      assert s[1..] == f;
    } else {
      assert s[1..] == i[1..] + "." + f;
      SplitOfJoin(i[1..], f);
      assert i == [i[0]] + i[1..];
    }
  }

  lemma {:induction false} SplitWithoutPoint(s: string)
    requires '.' !in s
    ensures Split(s) == (s, None)
  {
    if s != "" {
      SplitWithoutPoint(s[1..]);
      assert s == [s[0]] + s[1..];
    }
  }

  lemma NoPointInDigits(s: string)
    requires AllDigits(s)
    ensures '.' !in s
  {
  }

  /** The recogniser accepts exactly the language of the pattern. */
  lemma PatternIsRecognised(s: string)
    ensures MatchesPattern(s) <==> InPatternLanguage(s)
  {
    if MatchesPattern(s) {
      var (i, f) := Split(s);
      if f.Some? {
        assert IsIntegerPart(i) && IsFractionPart(f.value) && s == i + "." + f.value;
      }
    }
    if InPatternLanguage(s) {
      if IsIntegerPart(s) {
        NoPointInDigits(s);
        SplitWithoutPoint(s);
      } else {
        var i, f :| IsIntegerPart(i) && IsFractionPart(f) && s == i + "." + f;
        NoPointInDigits(i);
        SplitOfJoin(i, f);
      }
    }
  }

  // ---------------------------------------------------------------- zeros and positivity

  lemma {:induction false} WithoutZerosConcat(a: string, b: string)
    ensures WithoutZeros(a + b) == WithoutZeros(a) + WithoutZeros(b)
  {
    if a == "" {
      assert a + b == b;
    } else {
      assert (a + b)[1..] == a[1..] + b;
      WithoutZerosConcat(a[1..], b);
    }
  }

  lemma {:induction false} WithoutZerosAndPointsConcat(a: string, b: string)
    ensures WithoutZerosAndPoints(a + b) == WithoutZerosAndPoints(a) + WithoutZerosAndPoints(b)
  {
    if a == "" {
      assert a + b == b;
    } else {
      assert (a + b)[1..] == a[1..] + b;
      WithoutZerosAndPointsConcat(a[1..], b);
    }
  }

  lemma {:induction false} DigitsHaveNoPoints(s: string)
    requires AllDigits(s)
    ensures WithoutZerosAndPoints(s) == WithoutZeros(s)
  {
    if s != "" { DigitsHaveNoPoints(s[1..]); }
  }

  /** The two zero tests of the file agree: the whole string against the joined digits. */
  lemma ZeroTestsAgree(s: string)
    requires MatchesPattern(s)
    ensures WithoutZerosAndPoints(s) == WithoutZeros(Split(s).0 + Fraction(s))
  {
    var (i, f) := Split(s);
    DigitsHaveNoPoints(i);
    if f.Some? {
      JoinedDigits(i, f.value);
    } else {
      assert i + "" == i;
    }
  }

  lemma JoinedDigits(i: string, f: string)
    requires AllDigits(i) && AllDigits(f)
    ensures WithoutZerosAndPoints(i + "." + f) == WithoutZeros(i + f)
  {
    DigitsHaveNoPoints(i);
    DigitsHaveNoPoints(f);
    WithoutZerosConcat(i, f);
    WithoutZerosAndPointsConcat(i + ".", f);
    WithoutZerosAndPointsConcat(i, ".");
    assert "."[1..] == "";
  }

  lemma {:induction false} ZeroMeansNoOtherDigit(s: string)
    requires AllDigits(s)
    ensures ParseDigits(s) == 0 <==> WithoutZeros(s) == ""
  {
    if s != "" {
      var front, last := s[..|s| - 1], s[|s| - 1..];
      ZeroMeansNoOtherDigit(front);
      assert s == front + last;
      WithoutZerosConcat(front, last);
      WithoutZerosOne(s[|s| - 1]);
      assert last == [s[|s| - 1]];
    }
  }

  lemma WithoutZerosOne(c: char)
    ensures WithoutZeros([c]) == if c == '0' then "" else [c]
  {
    assert [c][1..] == "";
  }

  /** For a usable multiplicand, the decimal is refused exactly when it is not a positive decimal. */
  lemma RefusedExactlyWhenNotPositive(multiplicand: int, decimal: string)
    requires ValidMultiplicand(multiplicand)
    ensures MultiplyByDecimal(multiplicand, decimal) == Err(InvalidDecimal) <==> !IsPositiveDecimal(decimal)
    ensures IsPositiveDecimal(decimal) <==> MatchesPattern(decimal) && Numerator(decimal) > 0
  {
    if MatchesPattern(decimal) {
      ZeroTestsAgree(decimal);
      PatternDigits(decimal);
      ZeroMeansNoOtherDigit(Split(decimal).0 + Fraction(decimal));
    }
  }

  // ---------------------------------------------------------------- rounding

  /** r is p/d rounded to the nearest whole number, a tie going up. */
  ghost predicate IsHalfUp(p: int, d: int, r: int) {
    2 * d * r - d <= 2 * p < 2 * d * r + d
  }

  lemma HalfUpIsUnique(p: int, d: int, r: int, s: int)
    requires d >= 1 && IsHalfUp(p, d, r) && IsHalfUp(p, d, s)
    ensures r == s
  {
    HalfUpGap(d, r, s);
    HalfUpGap(d, s, r);
  }

  /** p/d rounded half up. */
  ghost function HalfUp(p: nat, d: nat): (r: nat)
    requires d >= 1
    ensures IsHalfUp(p, d, r)
  {
    var r := (2 * p + d) / (2 * d);
    Distribute(d, r);
    r
  }

  lemma Distribute(d: int, r: int)
    ensures (2 * d) * r == 2 * d * r && (2 * d) * (r + 1) == 2 * d * r + 2 * d
  {
  }

  lemma HalfUpGap(d: int, r: int, s: int)
    requires d >= 1
    ensures r < s ==> 2 * d * r + d <= 2 * d * s - d
  {
    if r < s { ScaleOrder(2 * d, r + 1, s); }
  }

  lemma ScaleOrder(k: int, a: int, b: int)
    requires k >= 0 && a <= b
    ensures k * a <= k * b
  {
  }

  lemma QuotientIsHalfUp(p: nat, d: nat)
    requires d >= 1
    ensures IsHalfUp(p, d, p / d + (if (p % d) * 2 >= d then 1 else 0))
  {
    var q, m := p / d, p % d;
    assert p == d * q + m;
    assert 2 * d * (q + 1) == 2 * d * q + 2 * d;
    assert 2 * d * q == 2 * (d * q);
  }

  /** The value the refusals leave: the unique half-up rounding of the exact product. */
  lemma RoundsTheExactProduct(multiplicand: int, decimal: string)
    requires ValidMultiplicand(multiplicand) && IsPositiveDecimal(decimal)
    ensures var p, d := multiplicand * Numerator(decimal), Denominator(decimal);
            exists r :: IsHalfUp(p, d, r)
              && MultiplyByDecimal(multiplicand, decimal) == if r > MAX_SAFE_INTEGER then Err(ResultOutOfRange)
                  else Ok(r)
    ensures var p, d := multiplicand * Numerator(decimal), Denominator(decimal);
            forall r :: IsHalfUp(p, d, r) && r <= MAX_SAFE_INTEGER ==> MultiplyByDecimal(multiplicand, decimal) == Ok(r)
  {
    RefusedExactlyWhenNotPositive(multiplicand, decimal);
    var p, d := multiplicand * Numerator(decimal), Denominator(decimal);
    QuotientIsHalfUp(p, d);
    var r := p / d + (if (p % d) * 2 >= d then 1 else 0);
    assert IsHalfUp(p, d, r);
    forall s | IsHalfUp(p, d, s)
      ensures s == r
    {
      HalfUpIsUnique(p, d, r, s);
    }
  }

  /** A result is a half-up rounding and never negative. */
  lemma OkIsHalfUp(multiplicand: int, decimal: string)
    requires MultiplyByDecimal(multiplicand, decimal).Ok?
    ensures ValidMultiplicand(multiplicand) && IsPositiveDecimal(decimal)
    ensures IsHalfUp(multiplicand * Numerator(decimal), Denominator(decimal),
                     MultiplyByDecimal(multiplicand, decimal).value)
    ensures 0 <= MultiplyByDecimal(multiplicand, decimal).value <= MAX_SAFE_INTEGER
  {
    RefusedExactlyWhenNotPositive(multiplicand, decimal);
    RoundsTheExactProduct(multiplicand, decimal);
    var r :| IsHalfUp(multiplicand * Numerator(decimal), Denominator(decimal), r)
      && MultiplyByDecimal(multiplicand, decimal) == if r > MAX_SAFE_INTEGER then Err(ResultOutOfRange) else Ok(r);
    HalfUpNonNegative(multiplicand, Numerator(decimal), Denominator(decimal), r);
  }

  lemma HalfUpNonNegative(m: nat, n: nat, d: int, r: int)
    requires d >= 1 && IsHalfUp(m * n, d, r)
    ensures r >= 0
  {
    ScaleOrder(m, 0, n);
    HalfUpGap(d, r, 0);
  }

  /** The exact value of decimal a is at most that of b. */
  ghost predicate AtMost(a: string, b: string)
    requires MatchesPattern(a) && MatchesPattern(b)
  {
    Numerator(a) * Denominator(b) <= Numerator(b) * Denominator(a)
  }

  lemma HalfUpIsMonotone(p: int, d: int, r: int, q: int, e: int, s: int)
    requires d >= 1 && e >= 1 && p * e <= q * d
    requires IsHalfUp(p, d, r) && IsHalfUp(q, e, s)
    ensures r <= s
  {
    HalfUpScales(p, d, r, e);
    HalfUpScales(q, e, s, d);
    HalfUpOrder(p * e, q * d, d * e, r, s);
  }

  lemma HalfUpOrder(p: int, q: int, d: int, r: int, s: int)
    requires d >= 1 && p <= q && IsHalfUp(p, d, r) && IsHalfUp(q, d, s)
    ensures r <= s
  {
    HalfUpGap(d, s, r);
  }

  lemma HalfUpScales(p: int, d: int, r: int, k: int)
    requires k >= 1 && d >= 1 && IsHalfUp(p, d, r)
    ensures d * k >= 1 && IsHalfUp(p * k, d * k, r) && IsHalfUp(p * k, k * d, r)
  {
    ScaleOrder(k, 1, d);
    ScaleOrder(k, 2 * d * r - d, 2 * p);
    StrictScale(k, 2 * p, 2 * d * r + d);
    ScaleDistributes(k, d, r);
  }

  lemma ScaleDistributes(k: int, d: int, r: int)
    ensures k * (2 * d * r - d) == 2 * (d * k) * r - d * k
    ensures k * (2 * d * r + d) == 2 * (d * k) * r + d * k
  {
    assert k * (2 * d * r) == 2 * (d * k) * r;
  }

  lemma StrictScale(k: int, a: int, b: int)
    requires k >= 1 && a < b
    ensures k * a < k * b
  {
    ScaleOrder(k, a + 1, b);
    assert k * (a + 1) == k * a + k;
  }

  /** Fewer points at lower odds are priced whenever more are, and never pay more. */
  lemma MonotoneInBothArguments(m: int, a: string, n: int, b: string)
    requires 0 <= m <= n && IsPositiveDecimal(a) && MultiplyByDecimal(n, b).Ok?
    requires MatchesPattern(a) && MatchesPattern(b) && AtMost(a, b)
    ensures MultiplyByDecimal(m, a).Ok?
    ensures MultiplyByDecimal(m, a).value <= MultiplyByDecimal(n, b).value
  {
    OkIsHalfUp(n, b);
    RoundsTheExactProduct(m, a);
    var r :| IsHalfUp(m * Numerator(a), Denominator(a), r)
             && MultiplyByDecimal(m, a) == if r > MAX_SAFE_INTEGER then Err(ResultOutOfRange) else Ok(r);
    ProductsOrdered(m, Numerator(a), Denominator(a), n, Numerator(b), Denominator(b));
    HalfUpIsMonotone(m * Numerator(a), Denominator(a), r,
                     n * Numerator(b), Denominator(b), MultiplyByDecimal(n, b).value);
    ResultsAreSafe(n, b);
  }

  lemma ResultsAreSafe(multiplicand: int, decimal: string)
    requires MultiplyByDecimal(multiplicand, decimal).Ok?
    ensures MultiplyByDecimal(multiplicand, decimal).value <= MAX_SAFE_INTEGER
  {
  }

  lemma ProductsOrdered(m: nat, na: nat, da: nat, n: nat, nb: nat, db: nat)
    requires m <= n && na * db <= nb * da
    ensures (m * na) * db <= (n * nb) * da
  {
    ScaleOrder(m, na * db, nb * da);
    ScaleOrder(nb * da, m, n);
    assert (m * na) * db == m * (na * db);
    assert (n * nb) * da == (nb * da) * n;
  }

  // ---------------------------------------------------------------- trailing zeros

  function Zeros(n: nat): (s: string)
    ensures |s| == n && AllDigits(s)
  {
    if n == 0 then "" else Zeros(n - 1) + "0"
  }

  /** a followed by n zeros. */
  function Shift(a: nat, n: nat): nat {
    if n == 0 then a else 10 * Shift(a, n - 1)
  }

  lemma {:induction false} ShiftIsScale(a: nat, n: nat)
    ensures Shift(a, n) == a * PowerOfTen(n)
  {
    if n > 0 {
      ShiftIsScale(a, n - 1);
      TenOutside(a, PowerOfTen(n - 1), Shift(a, n - 1), PowerOfTen(n), Shift(a, n));
    }
  }

  lemma {:induction false} ParseWithZeros(s: string, n: nat)
    requires AllDigits(s)
    ensures ParseDigits(s + Zeros(n)) == Shift(ParseDigits(s), n)
  {
    if n == 0 {
      assert s + Zeros(0) == s;
    } else {
      ParseWithZeros(s, n - 1);
      OneMoreZero(s + Zeros(n - 1));
      assert s + Zeros(n) == s + Zeros(n - 1) + "0";
    }
  }

  lemma OneMoreZero(s: string)
    requires AllDigits(s)
    ensures AllDigits(s + "0") && ParseDigits(s + "0") == 10 * ParseDigits(s)
  {
    assert (s + "0")[..|s|] == s;
  }

  lemma TenOutside(a: int, b: int, ab: int, tenB: int, tenAB: int)
    requires ab == a * b && tenB == 10 * b && tenAB == 10 * ab
    ensures tenAB == a * tenB
  {
  }

  lemma {:induction false} PowerOfTenSum(a: nat, b: nat)
    ensures PowerOfTen(a + b) == PowerOfTen(a) * PowerOfTen(b)
  {
    if b != 0 {
      PowerOfTenSum(a, b - 1);
    }
  }

  /** The decimal with n more zeros after the point (adding the point when there is none). */
  function Padded(s: string, n: nat): string {
    if n == 0 then s else if Split(s).1.Some? then s + Zeros(n) else s + "." + Zeros(n)
  }

  lemma PaddedParts(s: string, n: nat)
    requires n > 0
    ensures Split(Padded(s, n)) == (Split(s).0, Some(Fraction(s) + Zeros(n)))
  {
    hide Split;
    var (i, f) := Split(s);
    if f.Some? {
      assert Padded(s, n) == i + "." + (f.value + Zeros(n));
      SplitOfJoin(i, f.value + Zeros(n));
    } else {
      SplitOfJoin(i, Zeros(n));
      assert Fraction(s) + Zeros(n) == Zeros(n);
    }
  }

  lemma PaddedSplit(s: string, n: nat)
    requires MatchesPattern(s)
    ensures MatchesPattern(Padded(s, n))
    ensures Split(Padded(s, n)).0 == Split(s).0 && Fraction(Padded(s, n)) == Fraction(s) + Zeros(n)
  {
    hide Split;
    if n > 0 {
      PaddedParts(s, n);
      DigitsWithZeros(Fraction(s), n);
      hide Padded, Zeros;
    } else {
      assert Fraction(s) + Zeros(0) == Fraction(s);
    }
  }

  lemma DigitsWithZeros(f: string, n: nat)
    requires AllDigits(f) && n > 0
    ensures AllDigits(f + Zeros(n)) && f + Zeros(n) != ""
  {
  }

  /** Trailing zeros scale the numerator ... */
  lemma PaddedNumerator(s: string, n: nat)
    requires MatchesPattern(s) && MatchesPattern(Padded(s, n))
    ensures Numerator(Padded(s, n)) == Numerator(s) * PowerOfTen(n)
  {
    var i, f := Split(s).0, Fraction(s);
    PaddedSplit(s, n);
    RationalOfParts(s, i, f);
    RationalOfParts(Padded(s, n), i, f + Zeros(n));
    JoinedWithZeros(i, f, n);
  }

  /** ... and the denominator alike. */
  lemma PaddedDenominator(s: string, n: nat)
    requires MatchesPattern(s)
    ensures Denominator(Padded(s, n)) == Denominator(s) * PowerOfTen(n)
  {
    hide Split, Fraction, Padded, PowerOfTen, MatchesPattern, Zeros;
    PaddedSplit(s, n);
    PowerOfTenSum(|Fraction(s)|, n);
  }

  lemma RationalOfParts(s: string, i: string, f: string)
    requires MatchesPattern(s) && Split(s).0 == i && Fraction(s) == f
    ensures AllDigits(i + f) && Numerator(s) == ParseDigits(i + f) && Denominator(s) == PowerOfTen(|f|)
  {
    PatternDigits(s);
  }

  lemma JoinedWithZeros(i: string, f: string, n: nat)
    requires AllDigits(i + f)
    ensures AllDigits(i + (f + Zeros(n))) && ParseDigits(i + (f + Zeros(n))) == ParseDigits(i + f) * PowerOfTen(n)
  {
    assert i + (f + Zeros(n)) == (i + f) + Zeros(n);
    ParseWithZeros(i + f, n);
    ShiftIsScale(ParseDigits(i + f), n);
  }

  /** Trailing zeros after the point change nothing: same refusals, same result. */
  lemma TrailingZerosChangeNothing(multiplicand: int, decimal: string, n: nat)
    requires MatchesPattern(decimal)
    ensures MultiplyByDecimal(multiplicand, Padded(decimal, n)) == MultiplyByDecimal(multiplicand, decimal)
  {
    if !ValidMultiplicand(multiplicand) {
      BothRefused(multiplicand, Padded(decimal, n), decimal);
    } else {
      hide *;
      var padded, scale := Padded(decimal, n), PowerOfTen(n);
      PaddedSplit(decimal, n);
      PaddedNumerator(decimal, n);
      PaddedDenominator(decimal, n);
      ScaleOrder(scale, 0, Numerator(decimal));
      if Numerator(decimal) > 0 { ScaleOrder(scale, 1, Numerator(decimal)); }
      PositiveDecimalsAgree(decimal, padded, multiplicand);
      if IsPositiveDecimal(decimal) {
        SameValueSameResult(multiplicand, decimal, padded, scale);
      }
    }
  }

  lemma BothRefused(multiplicand: int, a: string, b: string)
    requires !ValidMultiplicand(multiplicand)
    ensures MultiplyByDecimal(multiplicand, a) == MultiplyByDecimal(multiplicand, b)
  {
  }

  lemma PositiveDecimalsAgree(a: string, b: string, multiplicand: int)
    requires ValidMultiplicand(multiplicand) && MatchesPattern(a) && MatchesPattern(b)
    requires Numerator(a) > 0 <==> Numerator(b) > 0
    ensures IsPositiveDecimal(a) <==> IsPositiveDecimal(b)
    ensures !IsPositiveDecimal(a) ==> MultiplyByDecimal(multiplicand, a) == MultiplyByDecimal(multiplicand, b)
  {
    RefusedExactlyWhenNotPositive(multiplicand, a);
    RefusedExactlyWhenNotPositive(multiplicand, b);
  }

  lemma SameValueSameResult(multiplicand: int, a: string, b: string, scale: int)
    requires ValidMultiplicand(multiplicand) && IsPositiveDecimal(a) && IsPositiveDecimal(b) && scale >= 1
    requires Numerator(b) == Numerator(a) * scale && Denominator(b) == Denominator(a) * scale
    ensures MultiplyByDecimal(multiplicand, a) == MultiplyByDecimal(multiplicand, b)
  {
    RoundsTheExactProduct(multiplicand, a);
    RoundsTheExactProduct(multiplicand, b);
    Associate(multiplicand, Numerator(a), scale);
    RoundedTwice(multiplicand * Numerator(a), Denominator(a), scale,
                 MultiplyByDecimal(multiplicand, a), MultiplyByDecimal(multiplicand, b));
  }

  lemma Associate(a: int, b: int, c: int)
    ensures a * (b * c) == (a * b) * c
  {
  }

  lemma RoundedTwice(p: int, d: int, scale: int, x: Result<int, DecimalError>, y: Result<int, DecimalError>)
    requires d >= 1 && scale >= 1
    requires exists r :: IsHalfUp(p, d, r) && x == if r > MAX_SAFE_INTEGER then Err(ResultOutOfRange) else Ok(r)
    requires exists r :: IsHalfUp(p * scale, d * scale, r) && y == if r > MAX_SAFE_INTEGER then Err(ResultOutOfRange)
               else Ok(r)
    ensures x == y
  {
    var r :| IsHalfUp(p, d, r) && x == if r > MAX_SAFE_INTEGER then Err(ResultOutOfRange) else Ok(r);
    var s :| IsHalfUp(p * scale, d * scale, s) && y == if s > MAX_SAFE_INTEGER then Err(ResultOutOfRange) else Ok(s);
    HalfUpScales(p, d, r, scale);
    HalfUpIsUnique(p * scale, d * scale, r, s);
  }
}
