/**
  Durations and `timeval`s (include/rmqcxx/util.hpp).

  A duration is a count of ticks of a rational period, as in std::chrono; casts
  between periods truncate toward zero. Counts are unbounded integers here: the
  overflow of a 64-bit count, undefined in the original, is not modelled.
*/
module Durations {

  const MILLION: int := 1000000
  const BILLION: int := 1000000000

  type Pos = n: nat | n > 0 witness 1

  /** Ticks of `num/den` seconds. */
  datatype Period = Period(num: Pos, den: Pos)

  const SECONDS := Period(1, 1)
  const MICROSECONDS := Period(1, 1000000)
  /** The tick of std::chrono::high_resolution_clock. */
  const NANOSECONDS := Period(1, 1000000000)

  datatype Timeval = Timeval(sec: int, usec: int)

  /** Integer division as C++ does it: the quotient is truncated toward zero. */
  function TruncDiv(a: int, b: Pos): int {
    if a >= 0 then a / b else -((-a) / b)
  }

  /** std::chrono::duration_cast of `count` ticks of `from`. */
  function Cast(count: int, from: Period, to: Period): int {
    TruncDiv(count * (from.num * to.den), from.den * to.num)
  }

  /** `timeValue`: whole seconds, then the rest (in the common period 1/den) as microseconds. */
  function TimeValue(count: int, p: Period): Timeval {
    var sec := TruncDiv(count * p.num, p.den);
    Timeval(sec, TruncDiv((count * p.num - sec * p.den) * MILLION, p.den))
  }

  /** `durationValue<To>`: seconds and microseconds are cast separately, then added. */
  function DurationValue(tv: Timeval, to: Period): int {
    Cast(tv.sec, SECONDS, to) + Cast(tv.usec, MICROSECONDS, to)
  }

  /** The time a `timeval` stands for, in microseconds. */
  function Micros(tv: Timeval): int {
    tv.sec * MILLION + tv.usec
  }

  /** Less than a second of microseconds, of the sign of the seconds. */
  ghost predicate Normalized(tv: Timeval) {
    && -MILLION < tv.usec < MILLION
    && (tv.sec > 0 ==> tv.usec >= 0)
    && (tv.sec < 0 ==> tv.usec <= 0)
  }

  // ---------------------------------------------------------------- truncation

  /** `r` may be the remainder of `a` by `b` under truncation. */
  ghost predicate TruncRest(a: int, b: Pos, r: int) {
    0 - b < r < b && (a > 0 ==> r >= 0) && (a < 0 ==> r <= 0) && (a == 0 ==> r == 0)
  }

  lemma MulLe(a: int, b: int, c: nat)
    requires a <= b
    ensures a * c <= b * c
  {
  }

  lemma QuotientUnique(q: int, q': int, r: int, r': int, b: Pos)
    requires 0 <= r < b && 0 <= r' < b
    requires q * b + r == q' * b + r'
    ensures q == q'
  {
    if q < q' {
      MulLe(q + 1, q', b);
    } else if q' < q {
      MulLe(q' + 1, q, b);
    }
  }

  /** The truncated quotient is the one whose remainder has the dividend's sign. */
  lemma TruncDivIs(a: int, b: Pos, q: int, r: int)
    requires a == q * b + r && TruncRest(a, b, r)
    ensures TruncDiv(a, b) == q
  {
    if a >= 0 {
      QuotientUnique(a / b, q, a % b, r, b);
    } else {
      assert -a == (-q) * b + (-r);
      QuotientUnique((-a) / b, -q, (-a) % b, -r, b);
    }
  }

  lemma TruncDivRest(a: int, b: Pos)
    ensures TruncRest(a, b, a - TruncDiv(a, b) * b)
  {
    if a >= 0 {
      assert a == (a / b) * b + a % b;
    } else {
      assert -a == ((-a) / b) * b + (-a) % b;
      assert TruncDiv(a, b) * b == -(((-a) / b) * b);
    }
  }

  lemma TruncDivMonotone(a: int, a': int, b: Pos)
    requires a <= a'
    ensures TruncDiv(a, b) <= TruncDiv(a', b)
  {
    var q, q' := TruncDiv(a, b), TruncDiv(a', b);
    TruncDivRest(a, b);
    TruncDivRest(a', b);
    QuotientsMonotone(a, a', b, q, q', a - q * b, a' - q' * b);
  }

  lemma QuotientsMonotone(a: int, a': int, b: Pos, q: int, q': int, r: int, r': int)
    requires a <= a' && a == q * b + r && a' == q' * b + r'
    requires TruncRest(a, b, r) && TruncRest(a', b, r')
    ensures q <= q'
  {
    MultipleWithinOne(q, b);
    MultipleWithinOne(q', b);
    MultiplesInOrder(a, a', b, q * b, q' * b, r, r');
    if q' < q { MulLe(q' + 1, q, b); }
  }

  /** The multiples below two ordered dividends are at most a rest apart. */
  lemma MultiplesInOrder(a: int, a': int, b: Pos, m: int, m': int, r: int, r': int)
    requires a <= a' && a == m + r && a' == m' + r'
    requires TruncRest(a, b, r) && TruncRest(a', b, r')
    requires (m < b ==> m <= 0) && (m' > 0 - b ==> m' >= 0)
    ensures m < m' + b
  {
  }

  lemma MultipleWithinOne(q: int, b: Pos)
    ensures q * b < b ==> q * b <= 0
    ensures q * b > 0 - b ==> q * b >= 0
  {
    if q >= 1 { MulLe(1, q, b); }
    if q <= -1 { MulLe(q, -1, b); }
  }

  /** Scaling dividend and divisor changes nothing, so chrono's reduced ratios need no special care. */
  lemma TruncDivScale(a: int, b: Pos, k: Pos)
    requires b * k > 0
    ensures TruncDiv(a * k, b * k) == TruncDiv(a, b)
  {
    var q := TruncDiv(a, b);
    TruncDivRest(a, b);
    ScaledQuotient(a, b, q, a - q * b, k);
    TruncDivIs(a * k, b * k, q, (a - q * b) * k);
  }

  lemma ScaledQuotient(a: int, b: Pos, q: int, r: int, k: Pos)
    requires a == q * b + r && TruncRest(a, b, r) && b * k > 0
    ensures a * k == q * (b * k) + r * k && TruncRest(a * k, b * k, r * k)
  {
    assert (q * b) * k == q * (b * k);
    assert a * k == (q * b) * k + r * k;
    ScaledRest(a, b, r, k);
  }

  lemma ScaledRest(a: int, b: Pos, r: int, k: Pos)
    requires TruncRest(a, b, r) && b * k > 0
    ensures TruncRest(a * k, b * k, r * k)
  {
    MulLe(r + 1, b, k);
    MulLe(1 - b, r, k);
    SignScales(a, k);
    SignScales(r, k);
  }

  lemma SignScales(a: int, k: Pos)
    ensures (a > 0 <==> a * k > 0) && (a < 0 <==> a * k < 0)
  {
    if a > 0 { MulLe(1, a, k); }
    if a < 0 { MulLe(a, -1, k); }
  }

  /**
    A cast gives the whole ticks of the exact quotient, the rest having the sign of the
    time: for any other count the rest would be a tick or more, or have the wrong sign.
  */
  lemma CastIff(count: int, from: Period, to: Period, ticks: int)
    ensures var time, tick := count * (from.num * to.den), from.den * to.num;
            Cast(count, from, to) == ticks <==> TruncRest(time, ProductPos(from.den, to.num), time - ticks * tick)
  {
    var time, tick: Pos := count * (from.num * to.den), ProductPos(from.den, to.num);
    if Cast(count, from, to) == ticks {
      TruncDivRest(time, tick);
    }
    if TruncRest(time, tick, time - ticks * tick) {
      TruncDivIs(time, tick, ticks, time - ticks * tick);
    }
  }

  // ---------------------------------------------------------------- round trips

  /** Splitting at the whole second before truncating to microseconds loses nothing. */
  lemma SplitAtSecond(n: int, d: Pos)
    ensures var sec := TruncDiv(n, d);
            var usec := TruncDiv((n - sec * d) * MILLION, d);
            Normalized(Timeval(sec, usec)) && sec * MILLION + usec == TruncDiv(n * MILLION, d)
  {
    var sec := TruncDiv(n, d);
    var r := n - sec * d;
    TruncDivRest(n, d);
    var usec := TruncDiv(r * MILLION, d);
    var r2 := r * MILLION - usec * d;
    TruncDivRest(r * MILLION, d);
    assert n * MILLION == (sec * MILLION + usec) * d + r2 by {
      Distribute(n, r, sec, usec, d, r2);
    }
    assert TruncRest(n * MILLION, d, r2);
    TruncDivIs(n * MILLION, d, sec * MILLION + usec, r2);
    assert usec < MILLION by {
      if usec >= MILLION { MulLe(MILLION, usec, d); }
    }
    assert usec > -MILLION by {
      if usec <= -MILLION { MulLe(usec, -MILLION, d); }
    }
    SignOfQuotient(n, d);
    SignOfQuotient(r * MILLION, d);
  }

  lemma Distribute(n: int, r: int, sec: int, usec: int, d: int, r2: int)
    requires n == sec * d + r && r * MILLION == usec * d + r2
    ensures n * MILLION == (sec * MILLION + usec) * d + r2
  {
    assert (sec * MILLION + usec) * d == (sec * d) * MILLION + usec * d;
  }

  /** A truncated quotient has the sign of its dividend, or is zero. */
  lemma SignOfQuotient(a: int, b: Pos)
    ensures a >= 0 ==> TruncDiv(a, b) >= 0
    ensures a <= 0 ==> TruncDiv(a, b) <= 0
  {
    TruncDivRest(a, b);
    if a >= 0 && TruncDiv(a, b) < 0 { MulLe(TruncDiv(a, b), -1, b); }
    if a <= 0 && TruncDiv(a, b) > 0 { MulLe(1, TruncDiv(a, b), b); }
  }

  /** The pair computed by `timeValue` is the truncation of the duration to microseconds, split at the second. */
  lemma TimeValueMicros(count: int, p: Period)
    ensures Normalized(TimeValue(count, p))
    ensures Micros(TimeValue(count, p)) == TruncDiv(count * p.num * MILLION, p.den)
  {
    SplitAtSecond(count * p.num, p.den);
  }

  /** Reading a `timeval` in microseconds is exact. */
  lemma DurationValueMicros(tv: Timeval)
    ensures DurationValue(tv, MICROSECONDS) == Micros(tv)
  {
    TruncDivIs(tv.sec * (1 * 1000000), 1 * 1, tv.sec * MILLION, 0);
    TruncDivIs(tv.usec * (1 * 1000000), 1000000 * 1, tv.usec, 0);
  }

  lemma MulAssoc(a: int, b: int, c: int)
    ensures (a * b) * c == a * (b * c)
  {
  }

  /** Duration -> timeval -> microseconds is truncation toward zero to microseconds ... */
  lemma RoundTripTruncates(count: int, p: Period)
    ensures DurationValue(TimeValue(count, p), MICROSECONDS) == Cast(count, p, MICROSECONDS)
  {
    TimeValueMicros(count, p);
    DurationValueMicros(TimeValue(count, p));
    MulAssoc(count, p.num, MILLION);
  }

  /** ... and monotone in the time, even between durations of different periods. */
  lemma RoundTripMonotone(a: int, p: Period, b: int, q: Period)
    requires a * p.num * q.den <= b * q.num * p.den
    ensures DurationValue(TimeValue(a, p), MICROSECONDS) <= DurationValue(TimeValue(b, q), MICROSECONDS)
  {
    TimeValueMicros(a, p);
    TimeValueMicros(b, q);
    DurationValueMicros(TimeValue(a, p));
    DurationValueMicros(TimeValue(b, q));
    ScaledInOrder(a * p.num, p.den, b * q.num, q.den);
    QuotientsOrdered(a * p.num * MILLION, p.den, b * q.num * MILLION, q.den);
  }

  lemma ScaledInOrder(x: int, d: int, y: int, e: int)
    requires x * e <= y * d
    ensures (x * MILLION) * e <= (y * MILLION) * d
  {
    assert (x * MILLION) * e == (x * e) * MILLION;
    assert (y * MILLION) * d == (y * d) * MILLION;
  }

  /** Fractions in order have truncated quotients in order. */
  lemma QuotientsOrdered(x: int, d: Pos, y: int, e: Pos)
    requires x * e <= y * d
    ensures TruncDiv(x, d) <= TruncDiv(y, e)
  {
    var de := ProductPos(d, e);
    TruncDivScale(x, d, e);
    TruncDivMonotone(x * e, y * d, de);
    TruncDivScale(y, e, d);
  }

  function ProductPos(a: Pos, b: Pos): (r: Pos)
    ensures r == a * b == b * a
  {
    a * b
  }

  /** timeval -> microseconds -> timeval gives the pair back exactly when it was normalized. */
  lemma RoundTripIdentity(tv: Timeval)
    ensures TimeValue(DurationValue(tv, MICROSECONDS), MICROSECONDS) == tv <==> Normalized(tv)
  {
    DurationValueMicros(tv);
    var m := Micros(tv);
    TimeValueMicros(m, MICROSECONDS);
    TruncDivIs(m * 1 * MILLION, 1000000, m, 0);
    assert Micros(TimeValue(m, MICROSECONDS)) == m;
    if Normalized(tv) {
      NormalizedUnique(tv, TimeValue(m, MICROSECONDS));
    }
  }

  lemma NormalizedUnique(a: Timeval, b: Timeval)
    requires Normalized(a) && Normalized(b) && Micros(a) == Micros(b)
    ensures a == b
  {
    assert (a.sec - b.sec) * MILLION == b.usec - a.usec;
  }
}
