/**
 * Decimal odds shown as a fraction (apps/web/src/lib/odds-format.ts): a table of common fractions,
 * then continued fractions. Numbers are exact reals here; an infinite tail is no number.
 */
module OddsFormat {
  import opened Common

  datatype Fraction = Fraction(h: nat, k: nat)

  function Abs(x: real): (r: real)
    ensures r >= 0.0
  {
    if x < 0.0 then -x else x
  }

  // ---------------------------------------------------------------- lowest terms

  ghost predicate Divides(d: nat, n: nat) { exists q: nat :: n == q * d }

  ghost predicate Coprime(h: nat, k: nat) { forall d: nat :: Divides(d, h) && Divides(d, k) ==> d == 1 }

  lemma ProductIsNotOne(q: int, d: nat)
    requires d != 1
    ensures q * d != 1
  {
    if d >= 2 && q >= 1 {
      assert q * d == d + (q - 1) * d;
    }
  }

  lemma Combine(d: nat, p: nat, q: nat, x: int, y: int)
    ensures (p * d) * x - (q * d) * y == (p * x - q * y) * d
  {
  }

  /** A determinant of one leaves no common divisor. */
  lemma DeterminantIsCoprime(h: nat, k: nat, x: int, y: int)
    requires h * x - k * y == 1 || h * x - k * y == -1
    ensures Coprime(h, k)
  {
    forall d: nat | Divides(d, h) && Divides(d, k)
      ensures d == 1
    {
      var p: nat :| h == p * d;
      var q: nat :| k == q * d;
      Combine(d, p, q, x, y);
      if h * x - k * y == 1 {
        if d != 1 { ProductIsNotOne(p * x - q * y, d); }
      } else {
        Combine(d, q, p, y, x);
        if d != 1 { ProductIsNotOne(q * y - p * x, d); }
      }
    }
  }

  // ---------------------------------------------------------------- the common fractions

  function CommonFractions(): seq<(real, Fraction)> { [
    (0.1, Fraction(1, 10)), (0.2, Fraction(1, 5)), (0.25, Fraction(1, 4)), (0.33, Fraction(1, 3)),
        (0.4, Fraction(2, 5)),
    (0.5, Fraction(1, 2)), (0.57, Fraction(4, 7)), (0.6, Fraction(3, 5)), (0.67, Fraction(2, 3)),
        (0.73, Fraction(8, 11)),
    (0.8, Fraction(4, 5)), (0.83, Fraction(5, 6)), (0.91, Fraction(10, 11)), (1.0, Fraction(1, 1)),
        (1.1, Fraction(11, 10)),
    (1.2, Fraction(6, 5)), (1.25, Fraction(5, 4)), (1.38, Fraction(11, 8)), (1.5, Fraction(3, 2)),
        (1.62, Fraction(13, 8)),
    (1.75, Fraction(7, 4)), (1.88, Fraction(15, 8)), (2.0, Fraction(2, 1)), (2.2, Fraction(11, 5)),
        (2.25, Fraction(9, 4)),
    (2.5, Fraction(5, 2)), (2.75, Fraction(11, 4)), (3.0, Fraction(3, 1)), (3.5, Fraction(7, 2)), (4.0, Fraction(4, 1)),
    (4.5, Fraction(9, 2)), (5.0, Fraction(5, 1)), (6.0, Fraction(6, 1)), (7.0, Fraction(7, 1)), (8.0, Fraction(8, 1)),
    (9.0, Fraction(9, 1)), (10.0, Fraction(10, 1))] }

  /** For each common fraction, multipliers of its two numbers that differ by one. */
  ghost const COFACTORS: seq<(int, int)> := [
    (1, 0), (1, 0), (1, 0), (1, 0), (3, 1), (1, 0), (2, 1), (2, 1), (2, 1), (7, 5),
    (4, 3), (5, 4), (10, 9), (1, 0), (1, 1), (1, 1), (1, 1), (3, 4), (1, 1), (5, 8),
    (3, 5), (-1, -2), (1, 1), (1, 2), (1, 2), (1, 2), (-1, -3), (1, 2), (1, 3), (1, 3),
    (1, 4), (1, 4), (1, 5), (1, 6), (1, 7), (1, 8), (1, 9)]

  /** Every common fraction is in lowest terms and within 0.006 of the value it stands for. */
  predicate GoodEntry(i: nat)
    requires i < |CommonFractions()|
  {
    var f := CommonFractions()[i].1;
    f.h >= 1 && f.k >= 1 && Abs(CommonFractions()[i].0 * f.k as real - f.h as real) <= 0.006 * f.k as real
  }

  lemma FirstFractions()
    ensures forall i :: 0 <= i < 18 ==> GoodEntry(i)
  {
  }

  lemma LastFractions()
    ensures |CommonFractions()| == 37 && forall i :: 18 <= i < 37 ==> GoodEntry(i)
  {
  }

  ghost predicate OneApart(i: nat)
    requires i < |CommonFractions()| && i < |COFACTORS|
  {
    CommonFractions()[i].1.h * COFACTORS[i].0 - CommonFractions()[i].1.k * COFACTORS[i].1 == 1
  }

  lemma FirstCofactors()
    ensures forall i :: 0 <= i < 18 ==> OneApart(i)
  {
  }

  lemma LastCofactors()
    ensures |COFACTORS| == |CommonFractions()| == 37 && forall i :: 18 <= i < 37 ==> OneApart(i)
  {
  }

  /** Every common fraction is in lowest terms, and close to the value it stands for. */
  lemma CommonIsGood(i: nat)
    requires i < |CommonFractions()|
    ensures GoodEntry(i) && Coprime(CommonFractions()[i].1.h, CommonFractions()[i].1.k)
  {
    FirstFractions();
    LastFractions();
    FirstCofactors();
    LastCofactors();
    assert OneApart(i);
    DeterminantIsCoprime(CommonFractions()[i].1.h, CommonFractions()[i].1.k, COFACTORS[i].0, COFACTORS[i].1);
  }

  // ---------------------------------------------------------------- one step of the expansion

  /** The convergent so far, the one before it, and the tail still to be expanded. */
  datatype Expansion = Expansion(h1: nat, h2: nat, k1: nat, k2: nat, tail: Option<real>)

  /** The tail stands for what is missing: profit = (tail * h1 + h2) / (tail * k1 + k2). */
  predicate Expands(profit: real, h1: nat, h2: nat, k1: nat, k2: nat, tail: real) {
    profit * (tail * k1 as real + k2 as real) == tail * h1 as real + h2 as real
  }

  predicate Adjacent(h1: int, h2: int, k1: int, k2: int) { h1 * k2 - h2 * k1 == 1 || h1 * k2 - h2 * k1 == -1 }

  lemma NextAdjacent(h1: int, h2: int, k1: int, k2: int, a: int)
    requires Adjacent(h1, h2, k1, k2)
    ensures Adjacent(a * h1 + h2, h1, a * k1 + k2, k1)
  {
    assert (a * h1 + h2) * k1 - h1 * (a * k1 + k2) == h2 * k1 - h1 * k2 by {
      Distribute(a, h1, h2, k1);
      Distribute(a, k1, k2, h1);
      Swap(a, h1, k1);
    }
  }

  lemma Distribute(a: int, x: int, y: int, z: int)
    ensures (a * x + y) * z == a * x * z + y * z
  {
  }

  lemma Swap(a: int, x: int, y: int)
    ensures a * x * y == a * y * x
  {
  }

  /** What the tail stood for, in terms of its whole part and the rest. */
  lemma SplitTail(profit: real, h1: real, h2: real, k1: real, k2: real, b: real, a: real)
    requires profit * (b * k1 + k2) == b * h1 + h2
    ensures profit * ((a * k1 + k2) + (b - a) * k1) == (a * h1 + h2) + (b - a) * h1
  {
    assert (a * k1 + k2) + (b - a) * k1 == b * k1 + k2;
    assert (a * h1 + h2) + (b - a) * h1 == b * h1 + h2;
  }

  lemma InvertTail(profit: real, h: real, h1: real, k: real, k1: real, f: real)
    requires f > 0.0 && profit * (k + f * k1) == h + f * h1
    ensures profit * ((1.0 / f) * k + k1) == (1.0 / f) * h + h1
  {
    var t := 1.0 / f;
    assert t * f == 1.0;
    assert t * (k + f * k1) == t * k + k1 by { Fold(t, f, k, k1); }
    assert t * (h + f * h1) == t * h + h1 by { Fold(t, f, h, h1); }
    assert profit * (t * (k + f * k1)) == t * (profit * (k + f * k1)) by { Shuffle(profit, t, k + f * k1); }
  }

  lemma Fold(t: real, f: real, x: real, y: real)
    requires t * f == 1.0
    ensures t * (x + f * y) == t * x + y
  {
    assert t * (f * y) == (t * f) * y;
  }

  lemma Shuffle(p: real, t: real, x: real)
    ensures p * (t * x) == t * (p * x)
  {
  }

  // ---------------------------------------------------------------- the expansion so far

  /** Before the first step the expansion is all tail; after it, h1/k1 is a convergent. */
  ghost predicate Started(e: Expansion, profit: real) {
    && Adjacent(e.h1, e.h2, e.k1, e.k2)
    && e.k1 >= 1 && e.k2 <= e.k1 && (e.k2 == 0 || e.h1 >= 1)
    && (e.tail.None? ==> profit * e.k1 as real == e.h1 as real)
    && (e.tail.Some? ==> e.tail.value > 1.0 && Expands(profit, e.h1, e.h2, e.k1, e.k2, e.tail.value))
  }

  const FIRST: Expansion := Expansion(1, 0, 0, 1, None)

  /** The body of the loop, on a tail b. */
  function Step(e: Expansion, b: real): Expansion
    requires b >= 0.0
  {
    var a := b.Floor;
    Expansion(a * e.h1 + e.h2, e.h1, a * e.k1 + e.k2, e.k1, if b == a as real then None
              else Some(1.0 / (b - a as real)))
  }

  lemma FloorPart(b: real)
    ensures 0.0 <= b - b.Floor as real < 1.0
  {
  }

  lemma InverseAboveOne(f: real)
    requires 0.0 < f < 1.0
    ensures 1.0 / f > 1.0
  {
  }

  lemma CastProduct(a: int, x: int, y: int)
    ensures (a * x + y) as real == a as real * x as real + y as real
  {
    assert (a * x) as real == a as real * x as real by { CastTimes(a, x); }
  }

  lemma CastTimes(a: int, x: int)
    ensures (a * x) as real == a as real * x as real
  {
  }

  /** The tail after a step, whole or not. */
  lemma StepExpands(e: Expansion, profit: real, b: real)
    requires b >= 0.0 && Expands(profit, e.h1, e.h2, e.k1, e.k2, b)
    ensures var e' := Step(e, b);
            && (e'.tail.None? ==> profit * e'.k1 as real == e'.h1 as real)
            && (e'.tail.Some? ==> e'.tail.value > 1.0 && Expands(profit, e'.h1, e'.h2, e'.k1, e'.k2, e'.tail.value))
  {
    var a := b.Floor;
    var e' := Step(e, b);
    FloorPart(b);
    SplitTail(profit, e.h1 as real, e.h2 as real, e.k1 as real, e.k2 as real, b, a as real);
    CastProduct(a, e.h1, e.h2);
    CastProduct(a, e.k1, e.k2);
    WholeOrInverted(profit, e'.h1 as real, e.h1 as real, e'.k1 as real, e.k1 as real, b - a as real);
  }

  lemma WholeOrInverted(profit: real, h: real, h1: real, k: real, k1: real, f: real)
    requires 0.0 <= f < 1.0 && profit * (k + f * k1) == h + f * h1
    ensures f == 0.0 ==> profit * k == h
    ensures f > 0.0 ==> 1.0 / f > 1.0 && profit * ((1.0 / f) * k + k1) == (1.0 / f) * h + h1
  {
    if f > 0.0 {
      InverseAboveOne(f);
      InvertTail(profit, h, h1, k, k1, f);
    }
  }

  lemma NextGrows(a: int, x: nat, y: nat)
    requires a >= 1
    ensures a * x + y >= x + y
  {
    assert a * x == x + (a - 1) * x;
  }

  lemma FirstStep(profit: real)
    requires profit > 0.0
    ensures Started(Step(FIRST, profit), profit) && Step(FIRST, profit).k1 == 1
  {
    assert Expands(profit, 1, 0, 0, 1, profit);
    StepExpands(FIRST, profit, profit);
  }

  lemma LaterStep(e: Expansion, profit: real)
    requires Started(e, profit) && e.tail.Some?
    ensures Started(Step(e, e.tail.value), profit)
    ensures Step(e, e.tail.value).k1 + Step(e, e.tail.value).k2 > e.k1 + e.k2
  {
    var a := e.tail.value.Floor;
    assert a >= 1;
    NextGrows(a, e.h1, e.h2);
    NextGrows(a, e.k1, e.k2);
    NextAdjacent(e.h1, e.h2, e.k1, e.k2, a);
    StepExpands(e, profit, e.tail.value);
    StepHeight(e, a);
    hide Expands, Adjacent;
  }

  lemma NotBothZero(h1: nat, h2: nat, k1: nat, k2: nat)
    requires Adjacent(h1, h2, k1, k2)
    ensures h1 + h2 >= 1
  {
  }

  /** The numerator is positive from the second step on. */
  lemma StepHeight(e: Expansion, a: int)
    requires a >= 1 && Adjacent(e.h1, e.h2, e.k1, e.k2) && e.k1 >= 1 && (e.k2 == 0 || e.h1 >= 1)
    ensures a * e.h1 + e.h2 >= 1
  {
    NextGrows(a, e.h1, e.h2);
    NotBothZero(e.h1, e.h2, e.k1, e.k2);
  }

  // ---------------------------------------------------------------- how close a convergent is

  /** The error of a convergent, times its denominator squared, is below one either way. */
  lemma ConvergentError(e: Expansion, profit: real)
    requires Started(e, profit)
    ensures -1.0 < (profit * e.k1 as real - e.h1 as real) * e.k1 as real < 1.0
  {
    if e.tail.Some? {
      AdjacentReals(e.h1, e.h2, e.k1, e.k2);
      TailError(profit, e.h1 as real, e.h2 as real, e.k1 as real, e.k2 as real, e.tail.value);
    } else {
      assert profit * e.k1 as real - e.h1 as real == 0.0;
    }
  }

  lemma AdjacentReals(h1: int, h2: int, k1: int, k2: int)
    requires Adjacent(h1, h2, k1, k2)
    ensures var d := k1 as real * h2 as real - h1 as real * k2 as real; d == 1.0 || d == -1.0
  {
    CastTimes(h1, k2);
    CastTimes(h2, k1);
    assert (h1 * k2 - h2 * k1) as real == (h1 * k2) as real - (h2 * k1) as real;
    assert k1 as real * h2 as real == h2 as real * k1 as real;
  }

  lemma TailError(profit: real, h1: real, h2: real, k1: real, k2: real, b: real)
    requires profit * (b * k1 + k2) == b * h1 + h2 && b > 1.0 && k1 >= 1.0 && k2 >= 0.0
    requires k1 * h2 - h1 * k2 == 1.0 || k1 * h2 - h1 * k2 == -1.0
    ensures -1.0 < (profit * k1 - h1) * k1 < 1.0
  {
    ErrorTimesTail(profit, h1, h2, k1, k2, b);
    TailExceeds(b, k1, k2);
    SmallFactor(profit * k1 - h1, b * k1 + k2, k1);
  }

  lemma ErrorTimesTail(profit: real, h1: real, h2: real, k1: real, k2: real, b: real)
    requires profit * (b * k1 + k2) == b * h1 + h2
    ensures (profit * k1 - h1) * (b * k1 + k2) == k1 * h2 - h1 * k2
  {
    assert (profit * k1 - h1) * (b * k1 + k2) == k1 * (profit * (b * k1 + k2)) - h1 * (b * k1 + k2);
    assert k1 * (b * h1 + h2) == k1 * (b * h1) + k1 * h2;
    assert h1 * (b * k1 + k2) == h1 * (b * k1) + h1 * k2;
    assert k1 * (b * h1) == h1 * (b * k1);
  }

  lemma TailExceeds(b: real, k1: real, k2: real)
    requires b > 1.0 && k1 >= 1.0 && k2 >= 0.0
    ensures b * k1 + k2 > k1
  {
    assert b * k1 == k1 + (b - 1.0) * k1;
    assert (b - 1.0) * k1 > 0.0;
  }

  lemma SmallFactor(x: real, d: real, k: real)
    requires d > k >= 1.0 && (x * d == 1.0 || x * d == -1.0)
    ensures -1.0 < x * k < 1.0
  {
    var g := d - k;
    var whole, part, rest := x * d, x * k, x * g;
    assert part == whole - rest by { Difference(x, d, k); }
    SameSign(x, d, g);
    SameSign(x, d, k);
  }

  lemma Difference(y: real, d: real, k: real)
    ensures y * (d - k) == y * d - y * k
  {
  }

  lemma SameSign(x: real, d: real, g: real)
    requires d > 0.0 && g > 0.0
    ensures x * d > 0.0 ==> x * g > 0.0
    ensures x * d < 0.0 ==> x * g < 0.0
  {
    if x > 0.0 { assert x * g > 0.0; } else if x < 0.0 { assert x * g < 0.0 && x * d < 0.0; }
        else { assert x * d == 0.0; }
  }

  // ---------------------------------------------------------------- the conversion

  /** The first common fraction within 0.03 of the profit. */
  function FirstCommon(profit: real, from: nat): (i: Option<nat>)
    requires from <= |CommonFractions()|
    ensures i.Some? ==> from <= i.value < |CommonFractions()| && Abs(profit - CommonFractions()[i.value].0) < 0.03
    ensures forall j :: from <= j < (if i.Some? then i.value else |CommonFractions()|) ==>
              Abs(profit - CommonFractions()[j].0) >= 0.03
    decreases |CommonFractions()| - from
  {
    if from == |CommonFractions()| then None
    else if Abs(profit - CommonFractions()[from].0) < 0.03 then Some(from)
    else FirstCommon(profit, from + 1)
  }

  function Quotient(h: nat, k: nat): real
    requires k >= 1
  {
    h as real / k as real
  }

  /** The loop condition. */
  predicate TooFar(profit: real, h: nat, k: nat)
    requires k >= 1
  {
    Abs(profit - Quotient(h, k)) > profit * 0.01 && k < 100
  }

  /** Within one percent, or with a denominator of 100 or more and an error below one over its square. */
  predicate Close(profit: real, f: Fraction) {
    f.k >= 1 &&
    (Abs(profit - Quotient(f.h, f.k)) <= profit * 0.01
     || (f.k >= 100 && -1.0 < (profit * f.k as real - f.h as real) * f.k as real < 1.0))
  }

  /** The expansion of a profit after n steps, unless it is exact before. */
  function Expanded(profit: real, n: nat): Option<Expansion> {
    if n == 0 then Some(Expansion(1, 0, 0, 1, Some(profit)))
    else
      match Expanded(profit, n - 1)
      case Some(e) => if e.tail.Some? && e.tail.value >= 0.0 then Some(Step(e, e.tail.value)) else None
      case None => None
  }

  /** More than one percent off, and with a denominator below 100. */
  predicate MayGoOn(profit: real, f: Fraction) {
    f.k >= 1 && f.k < 100 && Abs(profit - Quotient(f.h, f.k)) > profit / 100.0
  }

  lemma TooFarMayGoOn(profit: real, h: nat, k: nat)
    requires k >= 1
    ensures TooFar(profit, h, k) <==> MayGoOn(profit, Fraction(h, k))
  {
    hide Quotient, Abs;
    assert profit * 0.01 == profit / 100.0;
  }

  /** The convergent after n steps is not good enough. */
  predicate GoesOn(profit: real, n: nat) {
    Expanded(profit, n).Some? && MayGoOn(profit, Fraction(Expanded(profit, n).value.h1, Expanded(profit, n).value.k1))
  }

  /** After n steps the expansion comes to this fraction, which is good enough, and no earlier one was. */
  ghost predicate FirstGoodEnough(profit: real, f: Fraction, n: nat) {
    && n >= 1 && f.k >= 1 && !MayGoOn(profit, f)
    && Expanded(profit, n).Some? && Expanded(profit, n).value.h1 == f.h && Expanded(profit, n).value.k1 == f.k
    && (forall m :: 1 <= m < n ==> GoesOn(profit, m))
  }

  ghost predicate IsFirst(profit: real, f: Fraction) { exists n :: FirstGoodEnough(profit, f, n) }

  /** There is one such fraction. */
  lemma FirstIsUnique(profit: real, f: Fraction, n: nat, g: Fraction, m: nat)
    requires FirstGoodEnough(profit, f, n) && FirstGoodEnough(profit, g, m)
    ensures f == g && n == m
  {
    hide Expanded, MayGoOn;
    assert !GoesOn(profit, n) && !GoesOn(profit, m);
  }

  lemma OneStepOn(profit: real, n: nat, e: Expansion)
    requires Expanded(profit, n) == Some(e) && e.tail.Some? && e.tail.value >= 0.0
    ensures Expanded(profit, n + 1) == Some(Step(e, e.tail.value))
  {
    hide Step;
  }

  lemma ExactQuotient(profit: real, h: nat, k: nat)
    requires k >= 1 && profit * k as real == h as real && profit > 0.0
    ensures !TooFar(profit, h, k)
  {
    QuotientIs(profit, h as real, k as real);
  }

  lemma QuotientIs(profit: real, h: real, k: real)
    requires k >= 1.0 && profit * k == h
    ensures h / k == profit
  {
  }

  /** A convergent that ends the loop is a fraction in lowest terms, positive and close. */
  lemma ExitIsGood(e: Expansion, profit: real)
    requires profit > 0.0 && Started(e, profit) && !TooFar(profit, e.h1, e.k1)
    ensures e.h1 >= 1 && Coprime(e.h1, e.k1) && Close(profit, Fraction(e.h1, e.k1))
  {
    DeterminantIsCoprime(e.h1, e.k1, e.k2, e.h2);
    ConvergentError(e, profit);
    PositiveNumerator(e, profit);
    hide Coprime, Started;
  }

  lemma PositiveNumerator(e: Expansion, profit: real)
    requires profit > 0.0 && Started(e, profit) && !TooFar(profit, e.h1, e.k1)
    ensures e.h1 >= 1
  {
    if e.h1 == 0 {
      QuotientIs(0.0, 0.0, e.k1 as real);
      assert Quotient(e.h1, e.k1) == 0.0;
      OnlyFirstIsZero(e.h2, e.k1);
    }
  }

  lemma OnlyFirstIsZero(h2: int, k1: nat)
    requires h2 * k1 == 1 || h2 * k1 == -1
    ensures k1 == 1
  {
    assert (-h2) * k1 == -(h2 * k1);
    if k1 != 1 {
      ProductIsNotOne(h2, k1);
      ProductIsNotOne(-h2, k1);
    }
  }

  /** What a common fraction may be off by. */
  predicate Near(profit: real, f: Fraction) { Abs(profit * f.k as real - f.h as real) < 0.036 * f.k as real }

  lemma CommonIsNear(profit: real, i: nat)
    requires i < |CommonFractions()| && GoodEntry(i) && Abs(profit - CommonFractions()[i].0) < 0.03
    ensures Near(profit, CommonFractions()[i].1)
  {
    hide CommonFractions;
    NearSum(CommonFractions()[i].0, profit - CommonFractions()[i].0, CommonFractions()[i].1.h as real,
            CommonFractions()[i].1.k as real);
  }

  lemma NearSum(v: real, d: real, h: real, k: real)
    requires k >= 1.0 && -0.03 < d < 0.03 && Abs(v * k - h) <= 0.006 * k
    ensures Abs((v + d) * k - h) < 0.036 * k
  {
    var x, y := v * k, d * k;
    NearParts(v, d, h, k, x, y);
    var whole := (v + d) * k;
    assert whole == x + y;
  }

  lemma NearParts(v: real, d: real, h: real, k: real, x: real, y: real)
    requires k >= 1.0 && -0.03 < d < 0.03 && x == v * k && y == d * k && Abs(x - h) <= 0.006 * k
    ensures x + y == (v + d) * k
    ensures -0.03 * k < y < 0.03 * k
    ensures Abs(x + y - h) < 0.036 * k
  {
    Scaled(d, 0.03, k);
    Scaled(-0.03, d, k);
    assert y < 0.03 * k;
  }

  lemma Scaled(x: real, y: real, k: real)
    requires x < y && k > 0.0
    ensures x * k < y * k
  {
  }

  /** The search through the table. */
  method FindCommon(profit: real) returns (found: Option<nat>)
    ensures found == FirstCommon(profit, 0)
  {
    hide CommonFractions;
    var i := 0;
    while i < |CommonFractions()|
      invariant i <= |CommonFractions()| && FirstCommon(profit, 0) == FirstCommon(profit, i)
    {
      if Abs(profit - CommonFractions()[i].0) < 0.03 { return Some(i); }
      i := i + 1;
    }
    return None;
  }

  /** `decimalToFractional`. */
  method DecimalToFractional(decimalOdds: real) returns (f: Fraction)
    ensures f.h >= 1 && f.k >= 1 && Coprime(f.h, f.k)
    ensures decimalOdds <= 1.0 ==> f == Fraction(1, 1)
    ensures decimalOdds > 1.0 ==>
              match FirstCommon(decimalOdds - 1.0, 0)
              case Some(i) => f == CommonFractions()[i].1 && Near(decimalOdds - 1.0, f)
              case None => Close(decimalOdds - 1.0, f) && IsFirst(decimalOdds - 1.0, f)
  {
    hide IsFirst, Coprime, Started, Close, TooFar, Near, GoodEntry, CommonFractions;
    if decimalOdds <= 1.0 {
      DeterminantIsCoprime(1, 1, 1, 0);
      return Fraction(1, 1);
    }
    var profit := decimalOdds - 1.0;
    var common := FindCommon(profit);
    if common.Some? {
      CommonIsGood(common.value);
      CommonIsNear(profit, common.value);
      return CommonFractions()[common.value].1;
    }
    var h1, h2, k1, k2, b := ContinuedFraction(profit);
    f := Fraction(h1, k1);
  }

  /** The loop: at least one step, and another only while the convergent is too far off. */
  method ContinuedFraction(profit: real) returns (h1: nat, h2: nat, k1: nat, k2: nat, b: Option<real>)
    requires profit > 0.0
    ensures h1 >= 1 && k1 >= 1 && Coprime(h1, k1) && Close(profit, Fraction(h1, k1))
    ensures IsFirst(profit, Fraction(h1, k1))
  {
    hide Coprime, Started, Close, TooFar, MayGoOn, Expanded;
    h1, h2, k1, k2, b := 1, 0, 0, 1, Some(profit);
    ghost var n: nat := 0;
    NotExpandedYet(profit);
    var more := true;
    while more
      invariant more ==> b.Some? && b.value >= 0.0
      invariant more ==> (h1 == 1 && h2 == 0 && k1 == 0 && k2 == 1 && b == Some(profit))
                         || (Started(Expansion(h1, h2, k1, k2, b), profit) && 1 <= k1 < 100 && k2 <= k1)
      invariant !more ==> k1 >= 1 && Started(Expansion(h1, h2, k1, k2, b), profit) && !TooFar(profit, h1, k1) && n > 0
      invariant !more ==> !MayGoOn(profit, Fraction(h1, k1))
      invariant Expanded(profit, n) == Some(Expansion(h1, h2, k1, k2, b))
      invariant forall m :: 1 <= m < n ==> GoesOn(profit, m)
      invariant more && n > 0 ==> GoesOn(profit, n)
      decreases if more then 1 else 0, if k1 == 0 then 1 else 0, 200 - k1 - k2
    {
      ghost var before := Expansion(h1, h2, k1, k2, b);
      if k1 == 0 { FirstStep(profit); } else { LaterStep(before, profit); }
      OneStepOn(profit, n, before);
      n := n + 1;
      var a := b.value.Floor;
      var aux := h1;
      h1 := a * h1 + h2;
      h2 := aux;
      aux := k1;
      k1 := a * k1 + k2;
      k2 := aux;
      b := if b.value == a as real then None else Some(1.0 / (b.value - a as real));
      assert Expansion(h1, h2, k1, k2, b)
          == Step(Expansion(before.h1, before.h2, before.k1, before.k2, before.tail), before.tail.value);
      StartedMeans(Expansion(h1, h2, k1, k2, b), profit);
      more := TooFar(profit, h1, k1);
      TooFarMayGoOn(profit, h1, k1);
      if more { TooFarMeans(Expansion(h1, h2, k1, k2, b), profit); }
    }
    ExitIsGood(Expansion(h1, h2, k1, k2, b), profit);
    assert FirstGoodEnough(profit, Fraction(h1, k1), n);
  }

  lemma NotExpandedYet(profit: real)
    ensures Expanded(profit, 0) == Some(Expansion(1, 0, 0, 1, Some(profit)))
  {
  }

  lemma StartedMeans(e: Expansion, profit: real)
    requires Started(e, profit)
    ensures e.k1 >= 1 && e.k2 <= e.k1
  {
  }

  /** A convergent that is too far off is not exact: there is a tail to go on with. */
  lemma TooFarMeans(e: Expansion, profit: real)
    requires profit > 0.0 && Started(e, profit) && TooFar(profit, e.h1, e.k1)
    ensures e.tail.Some? && e.tail.value > 1.0 && e.k1 < 100
  {
    if e.tail.None? { ExactQuotient(profit, e.h1, e.k1); }
  }
}
