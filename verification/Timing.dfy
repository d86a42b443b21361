/** The clamped exponential backoff. */
module Timing {
  import opened Frames

  function Pow(b: nat, e: nat): nat {
    if e == 0 then 1 else b * Pow(b, e - 1)
  }

  function Clamp(x: nat, max: nat): nat { if x <= max then x else max }

  /** `initial` multiplied `k` times. */
  function Scaled(initial: nat, mult: nat, k: nat): nat {
    if k == 0 then initial else Scaled(initial, mult, k - 1) * mult
  }

  lemma Regroup(a: nat, p: nat, m: nat)
    ensures (a * p) * m == a * (m * p)
  {
  }

  lemma {:induction false} ClosedForm(initial: nat, mult: nat, k: nat)
    ensures Scaled(initial, mult, k) == initial * Pow(mult, k)
  {
    if k > 0 {
      ClosedForm(initial, mult, k - 1);
      Regroup(initial, Pow(mult, k - 1), mult);
    }
  }

  lemma ClampedProduct(x: nat, mult: nat, max: nat)
    ensures Clamp(Clamp(x, max) * mult, max) == Clamp(x * mult, max)
  {
    if x > max && mult > 0 {
      assert max * mult >= max;
      assert x * mult >= max * mult;
    }
  }

  /** The `k`-th duration since the last reset, counted from 0. */
  function Duration(initial: nat, mult: nat, max: nat, k: nat): nat {
    Clamp(Scaled(initial, mult, k), max)
  }

  /** Clamping at every step, as the code does, is as good as clamping once at the end, and
      the durations are min(initial * mult^k, max). */
  lemma ClampedStep(initial: nat, mult: nat, max: nat, k: nat)
    ensures Duration(initial, mult, max, k) == Clamp(initial * Pow(mult, k), max)
    ensures Clamp(Duration(initial, mult, max, k) * mult, max) == Duration(initial, mult, max, k + 1)
  {
    ClosedForm(initial, mult, k);
    ClampedProduct(Scaled(initial, mult, k), mult, max);
  }

  /** The longest `Duration`: 2^64 - 1 seconds and 999999999 nanoseconds, in nanoseconds. */
  const MAX_DURATION: nat := 0xFFFF_FFFF_FFFF_FFFF * 1_000_000_000 + 999_999_999

  type Nanos = x: int | 0 <= x <= MAX_DURATION

  /** Multiplying a `Duration` panics when the product does not fit. */
  datatype Step = Wait(duration: Nanos) | Exhausted | Overflow

  /** What the `k`-th call since the last reset reports, in closed form. */
  function Reported(initial: Nanos, max: Nanos, mult: U32, maxCount: U32, k: nat): Step {
    if maxCount != 0 && k >= maxCount then Exhausted
    else if Duration(initial, mult, max, k) * mult > MAX_DURATION then Overflow
    else Wait(Duration(initial, mult, max, k))
  }

  /** The smaller of `initial * mult^k` and `max`. */
  predicate IsKth(d: nat, initial: nat, mult: nat, max: nat, k: nat) {
    d <= initial * Pow(mult, k) && d <= max && (d == initial * Pow(mult, k) || d == max)
  }

  lemma KthDuration(initial: nat, mult: nat, max: nat, k: nat)
    ensures IsKth(Duration(initial, mult, max, k), initial, mult, max, k)
    ensures forall d: nat :: IsKth(d, initial, mult, max, k) ==> d == Duration(initial, mult, max, k)
  {
    ClampedStep(initial, mult, max, k);
  }

  /** What is reported, without the help of the functions above: nothing more after the limit,
      before it the smaller of `initial * mult^k` and `max`, unless the product of that with
      the multiplier is too long for a `Duration`. */
  lemma ReportedExactly(initial: Nanos, max: Nanos, mult: U32, maxCount: U32, k: nat)
    ensures var r := Reported(initial, max, mult, maxCount, k);
      && (r.Exhausted? <==> maxCount != 0 && k >= maxCount)
      && (r.Wait? ==> IsKth(r.duration, initial, mult, max, k) && r.duration * mult <= MAX_DURATION)
      && (r.Overflow? ==> exists d: nat :: IsKth(d, initial, mult, max, k) && d * mult > MAX_DURATION)
  {
    KthDuration(initial, mult, max, k);
  }

  class Backoff {
    const initial: Nanos
    const max: Nanos
    const mult: U32
    const maxCount: U32
    var current: Nanos
    var count: U32
    ghost var successes: nat
    ghost var wraps: nat

    /** `current` is what the next success is clamped from; the counter wraps, but only
        where there is no limit to compare it with. */
    ghost predicate Valid()
      reads this
    {
      && Clamp(current, max) == Duration(initial, mult, max, successes)
      && successes == count + TWO_32 * wraps
      && (maxCount != 0 ==> successes <= maxCount)
    }

    /** Even the longest step, multiplied, is a duration. */
    predicate Roomy() { max * mult <= MAX_DURATION }

    constructor (initial: Nanos, max: Nanos, mult: U32, maxCount: U32)
      ensures Valid() && successes == 0
      ensures this.initial == initial && this.max == max && this.mult == mult && this.maxCount == maxCount
    {
      this.initial, this.max, this.mult, this.maxCount := initial, max, mult, maxCount;
      current, count, successes, wraps := initial, 0, 0, 0;
    }

    /** The k-th success since the last reset yields min(initial * mult^k, max), whatever the
        multiplier; with a positive limit there are exactly that many successes. A product
        that is too long for a `Duration` ends the program. */
    method Advance() returns (r: Step)
      requires Valid()
      modifies this
      ensures r == Reported(initial, max, mult, maxCount, old(successes))
      ensures r.Exhausted? <==> maxCount != 0 && old(successes) >= maxCount
      ensures r.Wait? ==> IsKth(r.duration, initial, mult, max, old(successes))
      ensures !r.Overflow? ==> Valid()
      ensures Roomy() ==> !r.Overflow?
      ensures successes == old(successes) + (if r.Exhausted? then 0 else 1)
    {
      ReportedExactly(initial, max, mult, maxCount, successes);
      if Roomy() { FitsAlways(initial, max, mult, maxCount, successes); }
      if maxCount != 0 && count >= maxCount { return Exhausted; }
      ClampedStep(initial, mult, max, successes);
      if count + 1 < TWO_32 { count := count + 1; } else { count, wraps := 0, wraps + 1; }
      successes := successes + 1;
      var previous := Clamp(current, max);
      var next := previous * mult;
      if next > MAX_DURATION { return Overflow; }
      current := next;
      return Wait(previous);
    }

    method Reset()
      requires Valid()
      modifies this
      ensures Valid() && successes == 0
    {
      current, count, successes, wraps := initial, 0, 0, 0;
    }
  }

  /** A whole run of calls without a reset, up to the first overflow if there is one: with a
      limit n > 0 exactly the first n calls wait and the rest are told that it is exhausted,
      without a limit every call waits, and the k-th wait is the smaller of `initial * mult^k`
      and `max`. */
  method AdvanceMany(b: Backoff, calls: nat) returns (steps: seq<Step>)
    requires b.Valid() && b.successes == 0
    modifies b
    ensures |steps| <= calls
    ensures |steps| < calls ==> steps != [] && steps[|steps| - 1].Overflow?
    ensures forall k :: 0 <= k < |steps| - 1 ==> !steps[k].Overflow?
    ensures forall k :: 0 <= k < |steps| ==> (steps[k].Exhausted? <==> b.maxCount != 0 && k >= b.maxCount)
    ensures forall k :: 0 <= k < |steps| && steps[k].Wait? ==> IsKth(steps[k].duration, b.initial, b.mult, b.max, k)
  {
    steps := [];
    for i := 0 to calls
      invariant |steps| == i && b.Valid()
      invariant b.successes == if b.maxCount != 0 && i >= b.maxCount then b.maxCount else i
      invariant forall k :: 0 <= k < i ==>
        !steps[k].Overflow? && (steps[k].Exhausted? <==> b.maxCount != 0 && k >= b.maxCount)
      invariant forall k :: 0 <= k < i && steps[k].Wait? ==> IsKth(steps[k].duration, b.initial, b.mult, b.max, k)
    {
      var step := b.Advance();
      steps := steps + [step];
      if step.Overflow? { return; }
    }
  }

  /** A schedule never overflows if its longest step, multiplied, still fits. */
  lemma FitsAlways(initial: Nanos, max: Nanos, mult: U32, maxCount: U32, k: nat)
    requires max * mult <= MAX_DURATION
    ensures !Reported(initial, max, mult, maxCount, k).Overflow?
  {
    var d := Duration(initial, mult, max, k);
    assert d * mult <= max * mult by { assert d <= max; }
  }
}
