/**
  The time budgets of consumption (include/rmqcxx/Connection.hpp).

  All instants are readings of the clock, in nanoseconds; readings are arbitrary,
  so the clock may run backward.
*/
module Budget {
  import opened Durations

  function Max(a: int, b: int): (r: int)
    ensures r >= a && r >= b && (r == a || r == b)
  {
    if a >= b then a else b
  }

  // ---------------------------------------------------------------- the loops

  /** One update of `internalTimeout` (line 321). */
  function NextBudget(budget: int, start: int, now: int): int {
    if now < start then 0 else Max(budget - (now - start), 0)
  }

  /** The budget passed on the last iteration, after one clock reading per iteration. */
  function BudgetAfter(timeout: int, start: int, nows: seq<int>): int {
    if nows == [] then timeout
    else NextBudget(BudgetAfter(timeout, start, nows[..|nows| - 1]), start, nows[|nows| - 1])
  }

  /** The sum over all iterations of the time since the loop began. */
  function Charged(start: int, nows: seq<int>): int {
    if nows == [] then 0 else Charged(start, nows[..|nows| - 1]) + (nows[|nows| - 1] - start)
  }

  ghost predicate WentBack(start: int, nows: seq<int>) {
    exists i :: 0 <= i < |nows| && nows[i] < start
  }

  lemma {:induction false} ChargedNonNegative(start: int, nows: seq<int>)
    requires !WentBack(start, nows)
    ensures Charged(start, nows) >= 0
  {
    if nows != [] {
      WentBackPrefix(start, nows);
      assert nows[|nows| - 1] >= start;
      ChargedNonNegative(start, nows[..|nows| - 1]);
    }
  }

  lemma WentBackPrefix(start: int, nows: seq<int>)
    requires nows != []
    ensures WentBack(start, nows) <==> WentBack(start, nows[..|nows| - 1]) || nows[|nows| - 1] < start
  {
    var pre := nows[..|nows| - 1];
    if WentBack(start, pre) {
      var i :| 0 <= i < |pre| && pre[i] < start;
      assert nows[i] < start;
    }
    if WentBack(start, nows) {
      var i :| 0 <= i < |nows| && nows[i] < start;
      assert i == |nows| - 1 || pre[i] < start;
    }
  }

  /**
    The whole story of the budget: zero for ever once the clock is seen before
    `start`, else the time-out less everything charged.
  */
  lemma {:induction false} BudgetClosedForm(timeout: int, start: int, nows: seq<int>)
    requires nows != []
    ensures BudgetAfter(timeout, start, nows)
         == if WentBack(start, nows) then 0 else Max(timeout - Charged(start, nows), 0)
  {
    var pre := nows[..|nows| - 1];
    WentBackPrefix(start, nows);
    if pre != [] {
      BudgetClosedForm(timeout, start, pre);
      if !WentBack(start, pre) { ChargedNonNegative(start, pre); }
    }
  }

  /** From one iteration to the next the budget never grows. */
  lemma BudgetShrinks(timeout: int, start: int, nows: seq<int>, now: int)
    requires nows != []
    ensures 0 <= BudgetAfter(timeout, start, nows + [now]) <= BudgetAfter(timeout, start, nows)
  {
    assert (nows + [now])[..|nows|] == nows;
    BudgetClosedForm(timeout, start, nows);
  }

  /** An iteration that may still wait is not allowed to wait past the deadline. */
  lemma BudgetWithinDeadline(timeout: int, start: int, nows: seq<int>)
    requires nows != [] && nows[|nows| - 1] >= start
    ensures BudgetAfter(timeout, start, nows) > 0
         ==> nows[|nows| - 1] + BudgetAfter(timeout, start, nows) <= start + timeout
  {
    var pre := nows[..|nows| - 1];
    if pre != [] {
      BudgetClosedForm(timeout, start, pre);
      if !WentBack(start, pre) { ChargedNonNegative(start, pre); }
    }
  }

  /** If every discarded frame costs at least `d`, the budget falls quadratically. */
  lemma SlowFramesDrainBudget(timeout: int, start: int, nows: seq<int>, d: nat)
    requires nows != []
    requires forall i :: 0 <= i < |nows| ==> nows[i] - start >= i * d
    ensures var k := |nows| - 1;
            BudgetAfter(timeout, start, nows) <= Max(timeout - d * (k * (k + 1) / 2), 0)
  {
    assert forall i :: 0 <= i < |nows| ==> i * d >= 0;
    assert !WentBack(start, nows);
    BudgetClosedForm(timeout, start, nows);
    ChargedQuadratic(start, nows, d);
  }

  lemma {:induction false} ChargedQuadratic(start: int, nows: seq<int>, d: nat)
    requires nows != []
    requires forall i :: 0 <= i < |nows| ==> nows[i] - start >= i * d
    ensures Charged(start, nows) >= d * ((|nows| - 1) * |nows| / 2)
  {
    var k := |nows| - 1;
    assert nows[k] - start >= k * d;
    if k > 0 {
      ChargedQuadratic(start, nows[..k], d);
      TriangleStep(k, d);
    }
  }

  lemma TriangleStep(k: nat, d: nat)
    requires k > 0
    ensures d * (k * (k + 1) / 2) == d * ((k - 1) * k / 2) + k * d
  {
    assert k * (k + 1) == (k - 1) * k + 2 * k;
    assert k * (k + 1) / 2 == (k - 1) * k / 2 + k;
  }

  /**
    The budget a caller expects is the time left, `timeout - (now - start)`. The
    loop charges earlier iterations again, so it gets there exactly when nothing
    was charged before, or no time is left anyway.
  */
  lemma BudgetIsTimeLeftIff(timeout: int, start: int, nows: seq<int>, now: int)
    requires !WentBack(start, nows) && start <= now
    ensures BudgetAfter(timeout, start, nows + [now]) == Max(timeout - (now - start), 0)
       <==> Charged(start, nows) == 0 || timeout <= now - start
  {
    assert (nows + [now])[..|nows|] == nows;
    ChargedNonNegative(start, nows);
    if nows != [] { BudgetClosedForm(timeout, start, nows); }
  }

  /** Ten seconds asked for, two seconds gone on the third reading, seven left instead of eight. */
  lemma BudgetChargedTwice()
    ensures BudgetAfter(10 * BILLION, 0, [0, 1 * BILLION, 2 * BILLION]) == 7 * BILLION
  {
    var one, two, three := [0], [0, 1 * BILLION], [0, 1 * BILLION, 2 * BILLION];
    assert one[..0] == [] && two[..1] == one && three[..2] == two;
    assert BudgetAfter(10 * BILLION, 0, one) == 10 * BILLION;
    assert BudgetAfter(10 * BILLION, 0, two) == 9 * BILLION;
  }

  // ---------------------------------------------------------------- inside consumeImpl

  /** The time-out of the second wait, as the code computes it: `spent` is `start - now` (lines 657-665). */
  function SecondWait(tv: Timeval, start: int, now: int): Timeval {
    var initial := DurationValue(tv, MICROSECONDS) * 1000;
    if now < start then Timeval(0, 0)
    else
      var spent := start - now;
      if spent > initial then Timeval(0, 0) else TimeValue(initial - spent, NANOSECONDS)
  }

  /** The same with `spent` the other way round. */
  function IntendedSecondWait(tv: Timeval, start: int, now: int): Timeval {
    var initial := DurationValue(tv, MICROSECONDS) * 1000;
    if now < start then Timeval(0, 0)
    else
      var spent := now - start;
      if spent > initial then Timeval(0, 0) else TimeValue(initial - spent, NANOSECONDS)
  }

  lemma NanosToMicros(ns: nat)
    ensures Micros(TimeValue(ns, NANOSECONDS)) == ns / 1000
  {
    TimeValueMicros(ns, NANOSECONDS);
    var r := ns % 1000;
    TruncDivIs(ns * 1 * MILLION, 1000000000, ns / 1000, r * MILLION);
  }

  /** As written, the second wait is the first limit plus the time already waited. */
  lemma SecondWaitGrows(tv: Timeval, start: int, now: int)
    ensures var left := Micros(tv) * 1000 + (now - start);
            Micros(SecondWait(tv, start, now)) == if now < start || left < 0 then 0 else left / 1000
    ensures Normalized(SecondWait(tv, start, now))
  {
    DurationValueMicros(tv);
    var left := Micros(tv) * 1000 + (now - start);
    if now >= start && left >= 0 {
      NanosToMicros(left);
      TimeValueMicros(left, NANOSECONDS);
    }
  }

  /** The library waits no longer than the time-out handed to the second wait. */
  ghost predicate RespectsSecondLimit(tv: Timeval, start: int, now: int, second: nat) {
    second <= Micros(SecondWait(tv, start, now)) * 1000
  }

  /** Hence both waits together can take three times the limit, but no more. */
  lemma TotalWaitAtMostTriple(tv: Timeval, start: int, now: int, second: nat)
    requires Micros(tv) >= 0
    requires start <= now <= start + Micros(tv) * 1000
    requires RespectsSecondLimit(tv, start, now, second)
    ensures (now - start) + second <= 3 * (Micros(tv) * 1000)
  {
    SecondWaitGrows(tv, start, now);
  }

  lemma TotalWaitCanTriple(tv: Timeval, start: int)
    requires Micros(tv) >= 0
    ensures var limit := Micros(tv) * 1000;
            limit + Micros(SecondWait(tv, start, start + limit)) * 1000 == 3 * limit
  {
    var limit := Micros(tv);
    SecondWaitGrows(tv, start, start + limit * 1000);
    assert Micros(SecondWait(tv, start, start + limit * 1000)) == 2 * limit by {
      WholeMicros(2 * limit);
    }
  }

  lemma WholeMicros(us: int)
    ensures (us * 1000) / 1000 == us
  {
  }

  /** With the subtraction the other way round both waits fit in the limit. */
  lemma IntendedTotalWaitFits(tv: Timeval, start: int, now: int, second: nat)
    requires Micros(tv) >= 0
    requires start <= now <= start + Micros(tv) * 1000
    requires second <= Micros(IntendedSecondWait(tv, start, now)) * 1000
    ensures (now - start) + second <= Micros(tv) * 1000
  {
    DurationValueMicros(tv);
    NanosToMicros(Micros(tv) * 1000 - (now - start));
  }

  /** The code keeps both waits within the limit exactly when the first took no time at all. */
  lemma TotalWaitFitsIff(tv: Timeval, start: int, now: int)
    requires Micros(tv) >= 0 && start <= now
    ensures (forall second: nat :: RespectsSecondLimit(tv, start, now, second)
               ==> (now - start) + second <= Micros(tv) * 1000)
       <==> now == start
  {
    SecondWaitGrows(tv, start, now);
    if now > start {
      var longest: nat := Micros(SecondWait(tv, start, now)) * 1000;
      assert RespectsSecondLimit(tv, start, now, longest);
      assert (now - start) + longest > Micros(tv) * 1000;
    }
  }
}
