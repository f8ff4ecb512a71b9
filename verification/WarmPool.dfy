/** Warm pool sizing (internal/pool/pool.go), over exact reals. */
module WarmPool {

  const HEADROOM_FACTOR: real := 1.3
  const MIN_POOL_SIZE: int := 10
  const EWMA_ALPHA: real := 0.3

  newtype int32 = x: int | -0x8000_0000 <= x < 0x8000_0000

  /** Conversion of an int to int32 keeps the low 32 bits. */
  function ToInt32(n: int): int32 {
    ((n + 0x8000_0000) % 0x1_0000_0000 - 0x8000_0000) as int32
  }

  /** Conversion of a float to an int drops the fraction, towards zero. */
  function Truncate(x: real): int {
    if x >= 0.0 then x.Floor else -(-x).Floor
  }

  // ---------- The estimate ----------

  /** One sample. */
  function Smooth(estimate: real, sample: real): real {
    EWMA_ALPHA * sample + (1.0 - EWMA_ALPHA) * estimate
  }

  /** The samples one by one, the last sample last. */
  function Estimate(initial: real, samples: seq<real>): real
    decreases |samples|
  {
    if samples == [] then initial
    else Smooth(Estimate(initial, samples[..|samples| - 1]), samples[|samples| - 1])
  }

  /** 0.7 to the power n: the weight left to a value after n further samples. */
  function Weight(n: nat): (w: real)
    ensures 0.0 < w <= 1.0
  {
    if n == 0 then 1.0 else (1.0 - EWMA_ALPHA) * Weight(n - 1)
  }

  /** What a sample contributes after `age` further samples. */
  function Share(sample: real, age: nat): real {
    if age == 0 then EWMA_ALPHA * sample else (1.0 - EWMA_ALPHA) * Share(sample, age - 1)
  }

  /** Each sample weighted by its age, oldest first. */
  function WeightedSum(samples: seq<real>): real {
    if samples == [] then 0.0 else Share(samples[0], |samples| - 1) + WeightedSum(samples[1..])
  }

  lemma {:induction false} ShareIsWeighted(sample: real, age: nat)
    ensures Share(sample, age) == 0.3 * Weight(age) * sample
    ensures Weight(age + 1) == 0.7 * Weight(age)
  {
    if age > 0 {
      ShareIsWeighted(sample, age - 1);
    }
  }

  lemma {:induction false} WeightedSumGrows(samples: seq<real>, x: real)
    ensures WeightedSum(samples + [x]) == (1.0 - EWMA_ALPHA) * WeightedSum(samples) + EWMA_ALPHA * x
  {
    if samples == [] {
      assert ([] + [x])[1..] == [];
    } else {
      WeightedSumGrows(samples[1..], x);
      assert (samples + [x])[1..] == samples[1..] + [x];
    }
  }

  /** The estimate is the initial value and the samples, each weighted by its age. */
  lemma {:induction false} ClosedForm(initial: real, samples: seq<real>)
    ensures Estimate(initial, samples) == Weight(|samples|) * initial + WeightedSum(samples)
    decreases |samples|
  {
    if samples != [] {
      var n := |samples| - 1;
      var before, w := samples[..n], Weight(n);
      ClosedForm(initial, before);
      WeightedSumGrows(before, samples[n]);
      assert before + [samples[n]] == samples;
      assert (1.0 - EWMA_ALPHA) * (w * initial) == Weight(n + 1) * initial;
    }
  }

  /** The estimate never leaves the range of the initial value and the samples. */
  lemma {:induction false} EstimateStaysWithin(initial: real, samples: seq<real>, lo: real, hi: real)
    requires lo <= initial <= hi
    requires forall k :: 0 <= k < |samples| ==> lo <= samples[k] <= hi
    ensures lo <= Estimate(initial, samples) <= hi
    decreases |samples|
  {
    if samples != [] {
      EstimateStaysWithin(initial, samples[..|samples| - 1], lo, hi);
    }
  }

  /** Two managers fed alike: each sample shrinks their difference by exactly the same factor. */
  lemma GapShrinks(a: real, b: real, samples: seq<real>)
    ensures Estimate(a, samples) - Estimate(b, samples) == Weight(|samples|) * (a - b)
  {
    ClosedForm(a, samples);
    ClosedForm(b, samples);
  }

  function Constant(c: real, n: nat): seq<real> {
    seq(n, _ => c)
  }

  lemma {:induction false} ConstantDemandIsFixed(c: real, n: nat)
    ensures Estimate(c, Constant(c, n)) == c
  {
    if n > 0 {
      assert Constant(c, n)[..n - 1] == Constant(c, n - 1);
      ConstantDemandIsFixed(c, n - 1);
    }
  }

  /** Under constant demand the distance to the demand is exactly the weighted initial distance. */
  lemma DistanceToDemand(initial: real, c: real, n: nat)
    ensures Estimate(initial, Constant(c, n)) - c == Weight(n) * (initial - c)
  {
    GapShrinks(initial, c, Constant(c, n));
    ConstantDemandIsFixed(c, n);
  }

  /** Bernoulli's inequality for 10/7: weights fall at least as fast as 1 / (1 + 3n/7). */
  lemma {:induction false} WeightFalls(n: nat)
    ensures Weight(n) * (7.0 + 3.0 * n as real) <= 7.0
  {
    if n > 0 {
      WeightFalls(n - 1);
      var w, r := Weight(n - 1), n as real;
      assert w * (7.0 + 3.0 * (r - 1.0)) <= 7.0;
      assert Weight(n) * (7.0 + 3.0 * r) == 0.7 * (w * (7.0 + 3.0 * (r - 1.0))) + 2.1 * w;
    }
  }

  function Abs(x: real): real {
    if x < 0.0 then -x else x
  }

  lemma AbsTimes(product: real, w: real, g: real)
    requires w >= 0.0 && product == w * g
    ensures Abs(product) == w * Abs(g)
  {
    if g < 0.0 {
      assert w * -g == -(w * g);
      assert w * -g >= 0.0;
    } else {
      assert w * g >= 0.0;
    }
  }

  lemma AbsoluteDistance(initial: real, c: real, n: nat)
    ensures Abs(Estimate(initial, Constant(c, n)) - c) == Weight(n) * Abs(initial - c)
  {
    DistanceToDemand(initial, c, n);
    AbsTimes(Estimate(initial, Constant(c, n)) - c, Weight(n), initial - c);
  }

  /** Updates after which a value d has decayed below the tolerance. */
  function UpdatesFor(d: real, tolerance: real): nat
    requires d >= 0.0 && tolerance > 0.0
  {
    (7.0 * d / (3.0 * tolerance)).Floor
  }

  lemma DecaysBelow(d: real, tolerance: real, n: nat)
    requires d >= 0.0 && tolerance > 0.0 && n >= UpdatesFor(d, tolerance)
    ensures Weight(n) * d < tolerance
  {
    var q := 7.0 * d / (3.0 * tolerance);
    WeightFalls(n);
    assert q * (3.0 * tolerance) == 7.0 * d;
    Shrunk(Weight(n), n as real, q, d, tolerance);
  }

  lemma Shrunk(w: real, r: real, q: real, d: real, tolerance: real)
    requires w > 0.0 && tolerance > 0.0
    requires w * (7.0 + 3.0 * r) <= 7.0
    requires q < r + 1.0 && q * (3.0 * tolerance) == 7.0 * d
    ensures w * d < tolerance
  {
    var age := 3.0 * r + 3.0;
    Scaled(q, r + 1.0, 3.0 * tolerance);
    assert (r + 1.0) * (3.0 * tolerance) == age * tolerance;
    Scaled(7.0 * d, age * tolerance, w);
    assert (age * tolerance) * w == (w * age) * tolerance;
    assert w * age == w * (7.0 + 3.0 * r) - 4.0 * w;
    Scaled(w * age, 7.0, tolerance);
    assert (7.0 * d) * w == 7.0 * (w * d);
  }

  lemma Scaled(x: real, y: real, factor: real)
    requires x < y && factor > 0.0
    ensures x * factor < y * factor
  {
  }

  /** Constant demand is reached within any tolerance, after a number of updates known beforehand. */
  lemma ConvergesInBoundedUpdates(initial: real, c: real, tolerance: real, n: nat)
    requires tolerance > 0.0 && n >= UpdatesFor(Abs(initial - c), tolerance)
    ensures Abs(Estimate(initial, Constant(c, n)) - c) < tolerance
  {
    AbsoluteDistance(initial, c, n);
    DecaysBelow(Abs(initial - c), tolerance, n);
  }

  // ---------- The target ----------

  /** Predicted concurrency with headroom, as a real number of machines. */
  function Demand(estimate: real, p95: real): real {
    estimate * p95 * HEADROOM_FACTOR
  }

  function Target(estimate: real, p95: real): int {
    var target := Truncate(Demand(estimate, p95));
    if target < MIN_POOL_SIZE then MIN_POOL_SIZE else target
  }

  /** The target as seen from its defining bounds: the most machines that demand fills, but at least ten. */
  lemma TargetIsFloorOfDemand(estimate: real, p95: real, n: int)
    ensures n <= Target(estimate, p95) <==> n <= 10 || n as real <= estimate * p95 * 1.3
  {
    var x := Demand(estimate, p95);
    if x >= 0.0 {
      assert n as real <= x <==> n <= x.Floor;
    } else {
      assert (-x).Floor >= 0;
    }
  }

  lemma TargetIsMonotone(low: real, high: real, p95: real)
    requires low <= high && p95 >= 0.0
    ensures 10 <= Target(low, p95) <= Target(high, p95)
  {
    DemandIsMonotone(low, high, p95);
    TargetIsFloorOfDemand(low, p95, Target(low, p95));
    TargetIsFloorOfDemand(high, p95, Target(low, p95));
  }

  lemma DemandIsMonotone(low: real, high: real, p95: real)
    requires low <= high && p95 >= 0.0
    ensures Demand(high, p95) - Demand(low, p95) == HEADROOM_FACTOR * p95 * (high - low) >= 0.0
  {
    var k, g := HEADROOM_FACTOR * p95, high - low;
    DemandDifference(high, low, p95);
    assert k * g >= 0.0;
  }

  lemma DemandDifference(e: real, c: real, p95: real)
    ensures Demand(e, p95) - Demand(c, p95) == HEADROOM_FACTOR * p95 * (e - c)
  {
  }

  /** Estimates that are close give targets that are close. */
  lemma TargetsDifferAtMost(e: real, c: real, p95: real, gap: real)
    requires p95 >= 0.0 && gap == Abs(e - c)
    ensures Abs((Target(e, p95) - Target(c, p95)) as real) <= 1.0 + HEADROOM_FACTOR * p95 * gap
  {
    var low, high := if e <= c then e else c, if e <= c then c else e;
    TargetIsMonotone(low, high, p95);
    DemandIsMonotone(low, high, p95);
    assert gap == high - low;
    TargetIsFloorOfDemand(low, p95, Target(low, p95) + 1);
    TargetIsFloorOfDemand(high, p95, Target(high, p95));
  }

  /** After n samples of demand c the target is this close to the target at c. */
  lemma TargetSettlesWithin(initial: real, c: real, p95: real, n: nat, e: real, gap: real)
    requires p95 >= 0.0
    requires e == Estimate(initial, Constant(c, n)) && gap == Weight(n) * Abs(initial - c)
    ensures Abs((Target(e, p95) - Target(c, p95)) as real) <= 1.0 + HEADROOM_FACTOR * p95 * gap
  {
    AbsoluteDistance(initial, c, n);
    TargetsDifferAtMost(e, c, p95, gap);
  }

  function TargetAfter(initial: real, c: real, p95: real, n: nat): int {
    Target(Estimate(initial, Constant(c, n)), p95)
  }

  /** From some update on, the target is the target at c and stays there. */
  ghost predicate Settles(initial: real, c: real, p95: real) {
    exists from: nat :: SettledFrom(initial, c, p95, from)
  }

  ghost predicate SettledFrom(initial: real, c: real, p95: real, from: nat) {
    forall n: nat :: n >= from ==> TargetAfter(initial, c, p95, n) == Target(c, p95)
  }

  /**
   Under constant demand the target reaches its final value in finitely many updates, except in one
   case: demand is a whole number of machines above the minimum and the estimate started below it.
   Then the estimate stays below for ever and the target is always at least one machine short.
   */
  lemma SettlesExactly(initial: real, c: real, p95: real)
    requires p95 >= 0.0
    ensures
      var demand := c * p95 * 1.3;
      Settles(initial, c, p95) <==>
      initial >= c || demand <= 10.0 || demand != demand.Floor as real
  {
    SettlesByDemand(initial, c, p95, c * p95 * 1.3);
  }

  lemma SettlesByDemand(initial: real, c: real, p95: real, demand: real)
    requires p95 >= 0.0 && demand == Demand(c, p95)
    ensures Settles(initial, c, p95) <==>
            initial >= c || demand <= MIN_POOL_SIZE as real || demand != demand.Floor as real
  {
    if initial < c && demand > MIN_POOL_SIZE as real && demand == demand.Floor as real {
      assert p95 != 0.0;
      forall n: nat ensures TargetAfter(initial, c, p95, n) < Target(c, p95) {
        AlwaysShort(initial, c, p95, n);
      }
      forall from: nat ensures !SettledFrom(initial, c, p95, from) {
        assert TargetAfter(initial, c, p95, from) != Target(c, p95);
      }
    } else {
      var margin := Margin(initial, c, p95);
      var d := HEADROOM_FACTOR * p95 * Abs(initial - c);
      assert d >= 0.0;
      var from := UpdatesFor(d, margin);
      forall n: nat | n >= from ensures TargetAfter(initial, c, p95, n) == Target(c, p95) {
        DecaysBelow(d, margin, n);
        CloseEnough(initial, c, p95, n);
      }
      assert SettledFrom(initial, c, p95, from);
    }
  }

  /** How far demand may be off without changing the target. */
  function Margin(initial: real, c: real, p95: real): (m: real)
    requires
      var demand := Demand(c, p95);
      initial >= c || demand <= MIN_POOL_SIZE as real || demand != demand.Floor as real
    ensures m > 0.0
  {
    var demand := Demand(c, p95);
    var above := demand.Floor as real + 1.0 - demand;
    if initial >= c || demand <= MIN_POOL_SIZE as real then above
    else
      var below := demand - demand.Floor as real;
      if below < above then below else above
  }

  /** Demand as estimated after n samples, relative to demand at c. */
  lemma DemandAfter(initial: real, c: real, p95: real, n: nat)
    ensures Demand(Estimate(initial, Constant(c, n)), p95) - Demand(c, p95)
         == Weight(n) * (HEADROOM_FACTOR * p95 * (initial - c))
  {
    var e := Estimate(initial, Constant(c, n));
    DistanceToDemand(initial, c, n);
    DemandDifference(e, c, p95);
    var k, w, g := HEADROOM_FACTOR * p95, Weight(n), initial - c;
    assert k * (w * g) == w * (k * g);
  }

  lemma AlwaysShort(initial: real, c: real, p95: real, n: nat)
    requires p95 > 0.0 && initial < c
    requires Demand(c, p95) > MIN_POOL_SIZE as real && Demand(c, p95) == Demand(c, p95).Floor as real
    ensures TargetAfter(initial, c, p95, n) < Target(c, p95)
  {
    var e := Estimate(initial, Constant(c, n));
    DemandAfter(initial, c, p95, n);
    Shortfall(Demand(e, p95) - Demand(c, p95), Weight(n), HEADROOM_FACTOR * p95, initial - c);
    var whole := Demand(c, p95).Floor;
    TargetIsFloorOfDemand(c, p95, whole);
    TargetIsFloorOfDemand(e, p95, whole);
  }

  lemma Shortfall(off: real, w: real, k: real, g: real)
    requires w > 0.0 && k > 0.0 && g < 0.0 && off == w * (k * g)
    ensures off < 0.0
  {
    var up := -g;
    PositiveProduct(k, up);
    PositiveProduct(w, k * up);
    assert k * g == -(k * up);
    assert w * -(k * up) == -(w * (k * up));
  }

  lemma PositiveProduct(x: real, y: real)
    requires x > 0.0 && y > 0.0
    ensures x * y > 0.0
  {
  }

  lemma CloseEnough(initial: real, c: real, p95: real, n: nat)
    requires p95 >= 0.0
    requires
      var demand := Demand(c, p95);
      initial >= c || demand <= MIN_POOL_SIZE as real || demand != demand.Floor as real
    requires Weight(n) * (HEADROOM_FACTOR * p95 * Abs(initial - c)) < Margin(initial, c, p95)
    ensures TargetAfter(initial, c, p95, n) == Target(c, p95)
  {
    DemandOffBy(initial, c, p95, n);
    SameTarget(initial, c, p95, Estimate(initial, Constant(c, n)));
  }

  lemma DemandOffBy(initial: real, c: real, p95: real, n: nat)
    requires p95 >= 0.0
    ensures
      var off := Demand(Estimate(initial, Constant(c, n)), p95) - Demand(c, p95);
      && Abs(off) == Weight(n) * (HEADROOM_FACTOR * p95 * Abs(initial - c))
      && (initial >= c ==> off >= 0.0)
  {
    DemandAfter(initial, c, p95, n);
    var off := Demand(Estimate(initial, Constant(c, n)), p95) - Demand(c, p95);
    OffBy(off, Weight(n), HEADROOM_FACTOR * p95, initial - c);
  }

  lemma OffBy(product: real, w: real, k: real, g: real)
    requires w > 0.0 && k >= 0.0 && product == w * (k * g)
    ensures Abs(product) == w * (k * Abs(g))
    ensures g >= 0.0 ==> product >= 0.0
  {
    AbsTimes(k * g, k, g);
    AbsTimes(product, w, k * g);
    assert g >= 0.0 ==> k * g >= 0.0;
  }

  lemma SameTarget(initial: real, c: real, p95: real, e: real)
    requires
      var demand := Demand(c, p95);
      initial >= c || demand <= MIN_POOL_SIZE as real || demand != demand.Floor as real
    requires Abs(Demand(e, p95) - Demand(c, p95)) < Margin(initial, c, p95)
    requires initial >= c ==> Demand(e, p95) >= Demand(c, p95)
    ensures Target(e, p95) == Target(c, p95)
  {
    var x, y, t := Demand(c, p95), Demand(e, p95), Target(c, p95);
    TargetIsFloorOfDemand(c, p95, t);
    TargetIsFloorOfDemand(c, p95, t + 1);
    TargetIsFloorOfDemand(c, p95, x.Floor);
    TargetIsFloorOfDemand(e, p95, t);
    TargetIsFloorOfDemand(e, p95, t + 1);
  }

  // ---------- The source's object ----------

  class PoolManager {
    var ewmaRPS: real
    const p95DurSec: real
    var currentPool: int32

    constructor (initialRPS: real, p95DurSec: real)
      ensures ewmaRPS == initialRPS && this.p95DurSec == p95DurSec && currentPool == 0
    {
      ewmaRPS, this.p95DurSec, currentPool := initialRPS, p95DurSec, 0;
    }

    method UpdateRPS(newRPS: real)
      modifies this`ewmaRPS
      ensures ewmaRPS == Smooth(old(ewmaRPS), newRPS)
      ensures ewmaRPS - old(ewmaRPS) == 0.3 * (newRPS - old(ewmaRPS))
      ensures newRPS <= ewmaRPS <= old(ewmaRPS) || old(ewmaRPS) <= ewmaRPS <= newRPS
    {
      ewmaRPS := EWMA_ALPHA * newRPS + (1.0 - EWMA_ALPHA) * ewmaRPS;
    }

    method TargetSize() returns (size: int)
      ensures size == Target(ewmaRPS, p95DurSec)
      ensures 10 <= size && (size == 10 || size as real <= ewmaRPS * p95DurSec * 1.3)
      ensures ewmaRPS * p95DurSec * 1.3 < (size + 1) as real
    {
      TargetIsFloorOfDemand(ewmaRPS, p95DurSec, Target(ewmaRPS, p95DurSec));
      TargetIsFloorOfDemand(ewmaRPS, p95DurSec, Target(ewmaRPS, p95DurSec) + 1);
      var concurrency := ewmaRPS * p95DurSec;
      var target := Truncate(concurrency * HEADROOM_FACTOR);
      if target < MIN_POOL_SIZE {
        return MIN_POOL_SIZE;
      }
      return target;
    }

    method CurrentSize() returns (size: int)
      ensures size == currentPool as int
    {
      return currentPool as int;
    }

    method SetCurrentSize(n: int)
      modifies this`currentPool
      ensures currentPool == ToInt32(n)
      ensures currentPool as int == n <==> -0x8000_0000 <= n < 0x8000_0000
      ensures (currentPool as int - n) % 0x1_0000_0000 == 0
    {
      currentPool := ToInt32(n);
      StoredFaithfullyExactly(n);
    }

    method Delta() returns (d: int)
      ensures d == Target(ewmaRPS, p95DurSec) - currentPool as int
    {
      var target := TargetSize();
      var current := CurrentSize();
      return target - current;
    }

    /** A pool brought to its target has nothing left to add or remove, exactly when the target fits an int32. */
    method FillToTarget() returns (d: int)
      modifies this`currentPool
      ensures d == 0 <==> Target(ewmaRPS, p95DurSec) < 0x8000_0000
    {
      var target := TargetSize();
      SetCurrentSize(target);
      d := Delta();
    }

    /** A manager fed samples one by one holds the estimate of the whole history. */
    method Feed(samples: seq<real>)
      modifies this`ewmaRPS
      ensures ewmaRPS == Estimate(old(ewmaRPS), samples)
    {
      for n := 0 to |samples|
        invariant ewmaRPS == Estimate(old(ewmaRPS), samples[..n])
      {
        UpdateRPS(samples[n]);
        assert samples[..n + 1][..n] == samples[..n];
      }
      assert samples[..|samples|] == samples;
    }
  }

  lemma StoredFaithfullyExactly(n: int)
    ensures ToInt32(n) as int == n <==> -0x8000_0000 <= n < 0x8000_0000
    ensures (ToInt32(n) as int - n) % 0x1_0000_0000 == 0
  {
  }
}
