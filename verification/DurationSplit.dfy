/**
  When is it safe that `durationValue` and `getRpcTimeout` cast seconds and
  microseconds separately (include/rmqcxx/util.hpp:78-80,
  include/rmqcxx/Connection.hpp:509-510)? Each cast drops a fraction of a tick;
  two dropped fractions can make a whole tick.
*/
module DurationSplit {
  import opened Durations

  /** The separate casts lose nothing on the normalized `timeval` `tv`. */
  ghost predicate ExactOn(tv: Timeval, p: Period) {
    DurationValue(tv, p) == Cast(Micros(tv), MICROSECONDS, p)
  }

  ghost predicate SplitExact(p: Period) {
    forall tv | Normalized(tv) :: ExactOn(tv, p)
  }

  /** std::ratio keeps every period in lowest terms. */
  ghost predicate Reduced(p: Period) {
    forall k: Pos, a: nat, b: nat :: p.num == k * a && p.den == k * b ==> k == 1
  }

  /**
    The separate casts are exact for every normalized `timeval` exactly when the
    period divides a second, or `den` is one more than a multiple of a million
    `num`s (whole numbers of seconds are the case `den == 1`).
  */
  lemma SplitExactIff(p: Period)
    requires Reduced(p)
    ensures SplitExact(p) <==> p.num == 1 || p.den % (MILLION * p.num) == 1
  {
    if p.num == 1 || p.den % (MILLION * p.num) == 1 {
      forall tv | Normalized(tv) ensures ExactOn(tv, p) {
        ExactWhen(tv, p);
      }
    } else {
      var tv := Witness(p);
      assert Normalized(tv) && !ExactOn(tv, p);
    }
  }

  /** Periods of 2/3 s, say, can lose a tick. */
  lemma TwoThirdsLosesATick()
    ensures DurationValue(Timeval(1, 333334), Period(2, 3)) == 1
    ensures Cast(Micros(Timeval(1, 333334)), MICROSECONDS, Period(2, 3)) == 2
  {
    TruncDivIs(1333334 * (1 * 3), 1000000 * 2, 2, 2);
  }

  // ---------------------------------------------------------------- remainders

  /** Quotient and remainder of both casts, for non-negative parts. */
  lemma ExactByRests(s: nat, u: nat, p: Period, r1: nat, r2: nat, q1: nat, q2: nat)
    requires s * p.den == q1 * p.num + r1 && r1 < p.num
    requires u * p.den == q2 * (MILLION * p.num) + r2 && r2 < MILLION * p.num
    ensures ExactOn(Timeval(s, u), p) <==> r1 * MILLION + r2 < MILLION * p.num
    ensures 0 <= Cast(Micros(Timeval(s, u)), MICROSECONDS, p) - DurationValue(Timeval(s, u), p) <= 1
  {
    PartsByRests(s, u, p, r1, r2, q1, q2);
    SumOfParts(s, u, p.num, p.den, r1, r2, q1, q2);
    var b: Pos := 1000000 * p.num;
    RestsBelowTwo(r1, r2, p.num);
    WholeByRests((s * MILLION + u) * (1 * p.den), b, q1 + q2, r1 * MILLION + r2);
  }

  lemma PartsByRests(s: nat, u: nat, p: Period, r1: nat, r2: nat, q1: nat, q2: nat)
    requires s * p.den == q1 * p.num + r1 && r1 < p.num
    requires u * p.den == q2 * (MILLION * p.num) + r2 && r2 < MILLION * p.num
    ensures DurationValue(Timeval(s, u), p) == q1 + q2
  {
    TruncDivIs(s * (1 * p.den), 1 * p.num, q1, r1);
    TruncDivIs(u * (1 * p.den), 1000000 * p.num, q2, r2);
  }

  lemma RestsBelowTwo(r1: nat, r2: nat, num: nat)
    requires r1 < num && r2 < MILLION * num
    ensures r1 * MILLION + r2 < 2 * (MILLION * num)
  {
  }

  lemma WholeByRests(total: nat, b: Pos, q: nat, rest: nat)
    requires total == q * b + rest && rest < 2 * b
    ensures TruncDiv(total, b) == if rest < b then q else q + 1
  {
    if rest < b {
      TruncDivIs(total, b, q, rest);
    } else {
      assert total == (q + 1) * b + (rest - b);
      TruncDivIs(total, b, q + 1, rest - b);
    }
  }

  lemma SumOfParts(s: nat, u: nat, num: nat, den: nat, r1: nat, r2: nat, q1: nat, q2: nat)
    requires s * den == q1 * num + r1
    requires u * den == q2 * (MILLION * num) + r2
    ensures (s * MILLION + u) * den == (q1 + q2) * (MILLION * num) + (r1 * MILLION + r2)
  {
    assert (s * MILLION + u) * den == (s * den) * MILLION + u * den;
    assert (q1 + q2) * (MILLION * num) == (q1 * num) * MILLION + q2 * (MILLION * num);
  }

  lemma NegationIsSymmetric(tv: Timeval, p: Period)
    ensures ExactOn(tv, p) <==> ExactOn(Timeval(-tv.sec, -tv.usec), p)
  {
    TruncDivOdd(tv.sec, 1 * p.den, 1 * p.num);
    TruncDivOdd(tv.usec, 1 * p.den, 1000000 * p.num);
    TruncDivOdd(Micros(tv), 1 * p.den, 1000000 * p.num);
  }

  lemma TruncDivOdd(a: int, k: nat, b: Pos)
    ensures TruncDiv((-a) * k, b) == -TruncDiv(a * k, b)
  {
    assert (-a) * k == -(a * k);
  }

  lemma ExactWhen(tv: Timeval, p: Period)
    requires p.num == 1 || p.den % (MILLION * p.num) == 1
    requires Normalized(tv)
    ensures ExactOn(tv, p)
  {
    if tv.sec < 0 || tv.usec < 0 {
      NegationIsSymmetric(tv, p);
      ExactWhenPositive(-tv.sec, -tv.usec, p);
    } else {
      ExactWhenPositive(tv.sec, tv.usec, p);
    }
  }

  lemma ExactWhenPositive(s: nat, u: nat, p: Period)
    requires p.num == 1 || p.den % (MILLION * p.num) == 1
    requires u < MILLION
    ensures ExactOn(Timeval(s, u), p)
  {
    var b := MILLION * p.num;
    var x, y := s * p.den, u * p.den;
    var q1, r1 := x / p.num, x % p.num;
    if p.num == 1 {
      ExactByRests(s, u, p, 0, y % b, x, y / b);
    } else {
      var k := p.den / b;
      assert p.den == k * b + 1;
      assert y == (u * k) * b + u;
      assert MILLION <= b;
      ExactByRests(s, u, p, r1, u, q1, u * k);
    }
  }

  /** For any period the separate casts lose one tick at most, toward zero. */
  lemma SplitLosesAtMostATick(tv: Timeval, p: Period)
    requires Normalized(tv)
    ensures var lost := Cast(Micros(tv), MICROSECONDS, p) - DurationValue(tv, p);
            if tv.sec < 0 || tv.usec < 0 then -1 <= lost <= 0 else 0 <= lost <= 1
  {
    if tv.sec < 0 || tv.usec < 0 {
      TruncDivOdd(tv.sec, 1 * p.den, 1 * p.num);
      TruncDivOdd(tv.usec, 1 * p.den, 1000000 * p.num);
      TruncDivOdd(Micros(tv), 1 * p.den, 1000000 * p.num);
      PositiveSplitLosesAtMostATick(-tv.sec, -tv.usec, p);
      assert Micros(Timeval(-tv.sec, -tv.usec)) == -Micros(tv);
    } else {
      PositiveSplitLosesAtMostATick(tv.sec, tv.usec, p);
    }
  }

  lemma PositiveSplitLosesAtMostATick(s: nat, u: nat, p: Period)
    ensures 0 <= Cast(Micros(Timeval(s, u)), MICROSECONDS, p) - DurationValue(Timeval(s, u), p) <= 1
  {
    var q1, r1 := DivMod(s * p.den, p.num);
    var q2, r2 := DivMod(u * p.den, 1000000 * p.num);
    NonNegativeDividend(s * p.den, q1, p.num, r1);
    NonNegativeDividend(u * p.den, q2, 1000000 * p.num, r2);
    ExactByRests(s, u, p, r1, r2, q1, q2);
  }

  lemma NonNegativeDividend(a: nat, q: int, b: Pos, r: nat)
    requires a == q * b + r && r < b
    ensures q >= 0
  {
    if q < 0 { MulLe(q, -1, b); }
  }

  // ---------------------------------------------------------------- the other periods

  /** Euclid's algorithm, with the coefficients of the common divisor. */
  lemma Bezout(a: Pos, b: nat) returns (g: Pos, x: int, y: int, a': nat, b': nat)
    ensures a * x + b * y == g
    ensures a == g * a' && b == g * b'
    decreases b
  {
    if b == 0 {
      g, x, y, a', b' := a, 1, 0, 1, 0;
    } else {
      var g1, x1, y1, b1, r1 := Bezout(b, a % b);
      var q := a / b;
      assert a == q * b + a % b;
      g, x, y, a', b' := g1, y1, x1 - q * y1, q * b1 + r1, b1;
      BezoutStep(a, b, q, a % b, g, x1, y1, b1, r1);
    }
  }

  lemma BezoutStep(a: nat, b: nat, q: nat, r: nat, g: nat, x1: int, y1: int, b1: nat, r1: nat)
    requires a == q * b + r && b * x1 + r * y1 == g && b == g * b1 && r == g * r1
    ensures a * y1 + b * (x1 - q * y1) == g
    ensures a == g * (q * b1 + r1)
  {
    assert a * y1 == (q * b) * y1 + r * y1;
    assert b * (x1 - q * y1) == b * x1 - (q * b) * y1;
    assert g * (q * b1 + r1) == q * (g * b1) + g * r1;
  }

  lemma DivMod(a: int, b: Pos) returns (q: int, r: nat)
    ensures a == q * b + r && r < b
  {
    q, r := a / b, a % b;
  }

  /** Some whole number of seconds falls just short of a tick. */
  lemma JustShort(p: Period) returns (s: nat, q: nat)
    requires Reduced(p)
    ensures s * p.den == q * p.num + (p.num - 1)
  {
    var g, x, y, a, b := Bezout(p.num, p.den);
    assert g == 1;
    var t;
    t, s := DivMod(-y, p.num);
    var q' := x - t * p.den - 1;
    ShortStep(s, y, t, x, p.num, p.den);
    NonNegativeQuotient(s * p.den, q', p.num);
    q := q';
  }

  lemma NonNegativeQuotient(a: nat, q: int, b: Pos)
    requires a == q * b + (b - 1)
    ensures q >= 0
  {
    if q < 0 { MulLe(q, -1, b); }
  }

  lemma ShortStep(s: int, y: int, t: int, x: int, num: int, den: int)
    requires -y == t * num + s && num * x + den * y == 1
    ensures s * den == (x - t * den - 1) * num + (num - 1)
  {
    assert s * den == (-y) * den - (t * num) * den;
    assert (x - t * den - 1) * num == num * x - (t * num) * den - num;
  }

  /** A reduced period other than a fraction of a second does not divide the second evenly. */
  lemma RestNotZero(p: Period, k: nat)
    requires Reduced(p) && p.num > 1
    ensures p.den != k * (MILLION * p.num)
  {
    assert k * (MILLION * p.num) == p.num * (k * MILLION);
    assert p.num == p.num * 1;
  }

  /** The first multiple of `d` past a million is reached before half a million steps. */
  lemma FirstPastMillion(d: nat) returns (u: nat)
    requires 2 <= d < MILLION
    ensures u <= 500001 && MILLION <= u * d < 2 * MILLION
  {
    var q, r := DivMod(MILLION + d - 1, d);
    NonNegativeDividend(MILLION + d - 1, q, d, r);
    FewSteps(q, d);
    u := q;
  }

  lemma FewSteps(q: int, d: nat)
    requires 2 <= d && q * d <= MILLION + d - 1
    ensures q <= 500001
  {
    if q > 0 {
      MulLe(2, d, q - 1);
      assert (q - 1) * d == q * d - d;
    }
  }

  /** Less than a second of microseconds whose remainder is at least a million `num`ths of a tick. */
  lemma LongRest(p: Period) returns (u: nat, q: nat, r: nat)
    requires Reduced(p) && p.num > 1 && p.den % (MILLION * p.num) != 1
    ensures u < MILLION && u * p.den == q * (MILLION * p.num) + r
    ensures MILLION <= r < MILLION * p.num
  {
    var b := MILLION * p.num;
    var k, d := p.den / b, p.den % b;
    assert p.den == k * b + d;
    RestNotZero(p, k);
    if d >= MILLION {
      u, q, r := 1, k, d;
    } else {
      u := FirstPastMillion(d);
      q, r := u * k, u * d;
      ScaledRest(u, p.den, k, b, d);
    }
  }

  lemma ScaledRest(u: nat, den: nat, k: nat, b: nat, d: nat)
    requires den == k * b + d
    ensures u * den == (u * k) * b + u * d
  {
  }

  lemma Witness(p: Period) returns (tv: Timeval)
    requires Reduced(p) && p.num > 1 && p.den % (MILLION * p.num) != 1
    ensures Normalized(tv) && !ExactOn(tv, p)
  {
    var s, q1 := JustShort(p);
    var u, q2, r2 := LongRest(p);
    tv := Timeval(s, u);
    ExactByRests(s, u, p, p.num - 1, r2, q1, q2);
    assert (p.num - 1) * MILLION + r2 >= MILLION * p.num;
  }
}
