/**
 * The countdown rule that `Network.update` applies to every updateable element
 * (Network.java:177-183), on its own, so that what it means over many rounds can be proved.
 * A counter starts at 0 when the element is registered (Network.java:106). Intervals and
 * counters are Java `int`s, so decrementing the smallest value wraps round to the largest.
 */
module TickSchedule {

  const MinInt: int := -0x8000_0000
  const MaxInt: int := 0x7fff_ffff

  /** A Java `int`. */
  type Int32 = x: int | -0x8000_0000 <= x <= 0x7fff_ffff

  /** Java's `x - 1` on an `int`. */
  function Decrement(x: Int32): Int32 {
    if x == MinInt then MaxInt else x - 1
  }

  /** An element ticks in a round exactly when its counter is at most zero. */
  predicate Due(counter: Int32) {
    counter <= 0
  }

  /**
   * The number of rounds from one tick of an element to its next: the interval when it is
   * positive, one round for intervals 0 and below, except Integer.MIN_VALUE, whose counter wraps
   * to Integer.MAX_VALUE after the tick.
   */
  function Period(interval: Int32): (p: nat)
    ensures p >= 1
    ensures interval >= 1 ==> p == interval
    ensures MinInt < interval <= 1 ==> p == 1
    ensures interval == MinInt ==> p == MaxInt + 1
  {
    if interval == MinInt then MaxInt + 1 else if interval < 1 then 1 else interval
  }

  /** The counter after one round: reset to the interval and then decremented when due, decremented otherwise. */
  function NextCounter(counter: Int32, interval: Int32): (next: Int32)
    ensures Due(counter) && (interval >= 1 || interval == MinInt) ==> next == Period(interval) - 1
    ensures Due(counter) && MinInt < interval <= 1 ==> Due(next)
    ensures !Due(counter) ==> next == counter - 1 && next >= 0
  {
    var reset := if Due(counter) then interval else counter;
    Decrement(reset)
  }

  /** The counter of an element with the given interval after `rounds` updates since it was registered. */
  function CounterAfter(interval: Int32, rounds: nat): Int32 {
    if rounds == 0 then 0 else NextCounter(CounterAfter(interval, rounds - 1), interval)
  }

  /** Number of rounds among the first `rounds` in which the element ticks. */
  function TicksWithin(interval: Int32, rounds: nat): nat {
    if rounds == 0 then 0
    else TicksWithin(interval, rounds - 1) + (if Due(CounterAfter(interval, rounds - 1)) then 1 else 0)
  }

  /**
   * With the period p of an interval k >= 1 or of Integer.MIN_VALUE, the counter runs 0, p-1, ..., 1, 0, p-1, ...:
   * r rounds into its j-th period it is p - r, or 0 at the start of the period.
   */
  lemma {:induction false} CounterInPeriod(k: Int32, j: nat, r: nat)
    requires k >= 1 || k == MinInt
    requires r < Period(k)
    ensures CounterAfter(k, j * Period(k) + r) == if r == 0 then 0 else Period(k) - r
    decreases j, r
  {
    var p := Period(k);
    if r > 0 {
      var n := j * p + r;
      CounterInPeriod(k, j, r - 1);
      assert CounterAfter(k, n) == NextCounter(CounterAfter(k, n - 1), k);
    } else if j > 0 {
      var m := (j - 1) * p + (p - 1);
      assert j * p == m + 1;
      CounterInPeriod(k, j - 1, p - 1);
      assert CounterAfter(k, m + 1) == NextCounter(CounterAfter(k, m), k);
    }
  }

  /** An element with interval 1, 0 or a negative interval other than Integer.MIN_VALUE ticks in every round. */
  lemma {:induction false} SmallIntervalTicksEveryRound(k: Int32, n: nat)
    requires MinInt < k <= 1
    ensures Due(CounterAfter(k, n))
  {
    if n > 0 {
      SmallIntervalTicksEveryRound(k, n - 1);
    }
  }

  /** With an interval k >= 1 or Integer.MIN_VALUE, and its period p, an element ticks in rounds 0, p, 2p, ... and in no other round. */
  lemma PeriodicTicks(k: Int32, n: nat)
    requires k >= 1 || k == MinInt
    ensures Due(CounterAfter(k, n)) <==> n % Period(k) == 0
  {
    var p := Period(k);
    var j, r := Split(n, p);
    CounterInPeriod(k, j, r);
  }

  /** n splits into j whole periods of length p and r rounds more. */
  lemma Split(n: nat, p: nat) returns (j: nat, r: nat)
    requires p >= 1
    ensures n == j * p + r && r < p
    ensures r == 0 <==> n % p == 0
  {
    j, r := n / p, n % p;
  }

  /**
   * Every element ticks in rounds 0, p, 2p, ... of its period p and in no other round: every k rounds
   * for an interval k >= 1, every round for intervals 0 and below, and every 2^31 rounds for
   * Integer.MIN_VALUE.
   */
  lemma TicksEveryIntervalRounds(k: Int32, n: nat)
    ensures Due(CounterAfter(k, n)) <==> n % Period(k) == 0
  {
    if MinInt < k <= 1 {
      SmallIntervalTicksEveryRound(k, n);
      assert Period(k) == 1 && n % 1 == 0;
    } else {
      PeriodicTicks(k, n);
    }
  }

  /** With an interval k >= 1 or Integer.MIN_VALUE, and its period p: over the first j * p + r rounds (r < p) an element ticks j times, plus once more when r > 0. */
  lemma {:induction false} PeriodicTicksWithin(k: Int32, j: nat, r: nat)
    requires k >= 1 || k == MinInt
    requires r < Period(k)
    ensures TicksWithin(k, j * Period(k) + r) == j + (if r > 0 then 1 else 0)
    decreases j, r
  {
    var p := Period(k);
    if r > 0 {
      PeriodicTicksWithin(k, j, r - 1);
      CounterInPeriod(k, j, r - 1);
    } else if j > 0 {
      assert j * p == (j - 1) * p + (p - 1) + 1;
      PeriodicTicksWithin(k, j - 1, p - 1);
      CounterInPeriod(k, j - 1, p - 1);
    }
  }

  /** An element with an interval from 1 down to -2147483647 ticks in each of the first n rounds. */
  lemma {:induction false} SmallIntervalTicksWithin(k: Int32, n: nat)
    requires MinInt < k <= 1
    ensures TicksWithin(k, n) == n
  {
    if n > 0 {
      SmallIntervalTicksWithin(k, n - 1);
      SmallIntervalTicksEveryRound(k, n - 1);
    }
  }

  /**
   * For every interval: over the first j * p + r rounds (r < p, the period) an element ticks j times,
   * plus once more when r > 0, that is ceil(n / p) ticks in n rounds.
   */
  lemma TicksWithinCount(k: Int32, j: nat, r: nat)
    requires r < Period(k)
    ensures TicksWithin(k, j * Period(k) + r) == j + (if r > 0 then 1 else 0)
  {
    if MinInt < k <= 1 {
      assert Period(k) == 1 && r == 0 && j * Period(k) + r == j;
      SmallIntervalTicksWithin(k, j);
    } else {
      PeriodicTicksWithin(k, j, r);
    }
  }
}
