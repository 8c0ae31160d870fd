/** How long a release is expected to take: the latency estimates of
    controllers/scaling/linear.go and controllers/scaling/geometric.go, measured against the
    increments those files really take, wraparound included. */
module Latency {
  import opened Base
  import opened Types
  import opened Scaling
  import opened Replicas

  /** The percent after `n` increments from zero. */
  function After(r: Release, max: uint32, n: nat): (c: uint32) {
    if n == 0 then 0 else NextIncrement(After(r, max, n - 1), r, max)
  }

  /** The release takes exactly `n` increments to the top. */
  ghost predicate ReachesIn(r: Release, max: uint32, n: nat) {
    After(r, max, n) == max && forall k: nat :: k < n ==> After(r, max, k) < max
  }

  // ---------------------------------------------------------------- linear

  function LinearIterations(max: uint32, increment: uint32): (n: int)
    requires increment > 0
  {
    Ceil(max as real / increment as real)
  }

  /** `n` increments, without wraparound. */
  function Added(increment: uint32, n: nat): nat { if n == 0 then 0 else Added(increment, n - 1) + increment }

  lemma {:induction false} AddedIs(increment: uint32, n: nat)
    ensures Added(increment, n) == n * increment
  {
    if n > 0 {
      AddedIs(increment, n - 1);
      assert n * increment == (n - 1) * increment + increment;
    }
  }

  lemma {:induction false} AddedGrows(increment: uint32, k: nat, n: nat)
    requires k <= n
    ensures Added(increment, k) <= Added(increment, n)
  {
    if k < n {
      AddedGrows(increment, k, n - 1);
    }
  }

  /** The estimate is the least number of increments that add up to the top. */
  lemma LinearIterationsAre(max: uint32, increment: uint32)
    requires increment > 0
    ensures var n := LinearIterations(max, increment);
            && n >= 0
            && max <= Added(increment, n)
            && (n > 0 ==> Added(increment, n - 1) < max)
  {
    var n := LinearIterations(max, increment);
    DividedBy(max as real, increment as real, n as real);
    ProductAsReal(n, increment);
    PositiveFactor(n, increment);
    AddedIs(increment, n);
    if n > 0 {
      DividedBy(max as real, increment as real, (n - 1) as real);
      ProductAsReal(n - 1, increment);
      AddedIs(increment, n - 1);
    }
  }

  lemma PositiveFactor(n: int, increment: int)
    requires increment > 0 && n * increment >= 0
    ensures n >= 0
  {
  }

  lemma LinearNext(current: uint32, r: Release, max: uint32)
    requires r.strategy == Linear && r.max == max && current <= max
    ensures NextIncrement(current, r, max) == Min((current + r.increment) % TWO_TO_THE_32, max)
  {
  }

  /** Increments add up as long as they stay below the top and do not wrap around. */
  lemma {:induction false} LinearAfter(r: Release, max: uint32, n: nat)
    requires r.strategy == Linear && r.max == max
    requires (n > 0 ==> Added(r.increment, n - 1) < max) && Added(r.increment, n) < TWO_TO_THE_32
    ensures After(r, max, n) == Min(Added(r.increment, n), max)
  {
    if n > 0 {
      AddedGrows(r.increment, n - 1, n);
      if n > 1 {
        AddedGrows(r.increment, n - 2, n - 1);
      }
      LinearAfter(r, max, n - 1);
      LinearNext(After(r, max, n - 1), r, max);
      StepBelowTop(Added(r.increment, n - 1), r.increment, max);
    }
  }

  lemma StepBelowTop(a: nat, increment: uint32, max: uint32)
    requires a < max && a + increment < TWO_TO_THE_32
    ensures Min((Min(a, max) + increment) % TWO_TO_THE_32, max) == Min(a + increment, max)
  {
  }

  /** The linear estimate is the number of increments if and only if they do not wrap around. */
  lemma LinearEstimateIsExactIff(r: Release, max: uint32)
    requires r.strategy == Linear && r.max == max && r.increment > 0
    ensures var n := LinearIterations(max, r.increment);
            n >= 0 && (ReachesIn(r, max, n) <==> n * r.increment < TWO_TO_THE_32)
  {
    var n, increment := LinearIterations(max, r.increment), r.increment;
    LinearIterationsAre(max, increment);
    AddedIs(increment, n);
    if Added(increment, n) < TWO_TO_THE_32 {
      LinearAfter(r, max, n);
      forall k: nat | k < n ensures After(r, max, k) < max {
        BelowTheTop(r, max, k, n);
      }
    } else {
      LinearWraps(r, max, n);
    }
  }

  lemma BelowTheTop(r: Release, max: uint32, k: nat, n: nat)
    requires r.strategy == Linear && r.max == max && k < n && Added(r.increment, n - 1) < max
    ensures After(r, max, k) < max
  {
    AddedGrows(r.increment, k, n - 1);
    if k > 0 {
      AddedGrows(r.increment, k - 1, k);
    }
    LinearAfter(r, max, k);
  }

  lemma LinearWraps(r: Release, max: uint32, n: nat)
    requires r.strategy == Linear && r.max == max && n > 0
    requires Added(r.increment, n - 1) < max && Added(r.increment, n) >= TWO_TO_THE_32
    ensures After(r, max, n) < max
  {
    AddedAlready(r.increment, n);
    AddedBefore(r, max, n - 1);
    LinearNext(After(r, max, n - 1), r, max);
    WrapBelowTop(Added(r.increment, n - 1), r.increment, max);
  }

  lemma AddedAlready(increment: uint32, n: nat)
    requires n > 0 && Added(increment, n) >= TWO_TO_THE_32
    ensures n > 1 && increment <= Added(increment, n - 1)
  {
    if n > 1 {
      AddedGrows(increment, 1, n - 1);
    }
  }

  lemma AddedBefore(r: Release, max: uint32, n: nat)
    requires r.strategy == Linear && r.max == max && Added(r.increment, n) < max
    ensures After(r, max, n) == Added(r.increment, n)
  {
    if n > 0 {
      AddedGrows(r.increment, n - 1, n);
    }
    LinearAfter(r, max, n);
  }

  lemma WrapBelowTop(a: nat, increment: uint32, max: uint32)
    requires a < max && a + increment >= TWO_TO_THE_32 && increment <= a
    ensures Min((a + increment) % TWO_TO_THE_32, max) < max
  {
  }

  // ---------------------------------------------------------------- geometric

  /** The loop's percent after `n` turns, in uint32 arithmetic. */
  function Multiplied(r: Release, n: nat): uint32 {
    if n == 0 then r.start else (Multiplied(r, n - 1) * r.factor) % TWO_TO_THE_32
  }

  /** The loop takes `n` turns. */
  ghost predicate EndsAfter(r: Release, max: uint32, n: nat) {
    n >= 1 && Multiplied(r, n) >= max && forall k :: 1 <= k < n ==> Multiplied(r, k) < max
  }

  /** A loop that ends, ends after the turns it takes; the estimate counts one more. */
  method GeometricIterations(r: Release, max: uint32) returns (iterations: nat)
    requires exists n: nat :: EndsAfter(r, max, n)
    ensures iterations >= 1 && EndsAfter(r, max, iterations - 1)
  {
    ghost var n: nat :| EndsAfter(r, max, n);
    iterations := 1;
    var currentPercent: uint32 := r.start;
    while true
      invariant 1 <= iterations <= n && currentPercent == Multiplied(r, iterations - 1)
      invariant forall k :: 1 <= k < iterations ==> Multiplied(r, k) < max
      decreases n - iterations
    {
      currentPercent := (currentPercent * r.factor) % TWO_TO_THE_32;
      iterations := iterations + 1;
      if currentPercent >= max {
        break;
      }
    }
  }

  lemma GeometricNext(current: uint32, r: Release, max: uint32)
    requires r.strategy == Geometric && r.max == max && max > 0 && current <= max
    ensures NextIncrement(current, r, max)
         == Min(if current < r.start then r.start else (current * r.factor) % TWO_TO_THE_32, max)
  {
  }

  ghost predicate StaysUp(r: Release, n: nat) { forall k :: 1 <= k < n ==> Multiplied(r, k) >= r.start }

  /** While the products do not fall below the start, increments follow them one behind. */
  lemma {:induction false} GeometricAfter(r: Release, max: uint32, n: nat)
    requires r.strategy == Geometric && r.max == max && 0 < r.start < max && StaysUp(r, n)
    requires forall k :: 1 <= k < n ==> Multiplied(r, k) < max
    ensures After(r, max, n + 1) == Min(Multiplied(r, n), max)
  {
    if n == 0 {
      assert After(r, max, 0) == 0;
      GeometricNext(0, r, max);
    } else {
      GeometricAfter(r, max, n - 1);
      GeometricNext(After(r, max, n), r, max);
    }
  }

  /** The estimate, one more than the turns of its loop, is the number of increments if and
      only if the first does not already reach the top and no product on the way wraps
      around below the start. */
  lemma GeometricEstimateIsExactIff(r: Release, max: uint32, n: nat)
    requires r.strategy == Geometric && r.max == max && max > 0 && EndsAfter(r, max, n)
    ensures ReachesIn(r, max, 1 + n) <==> r.start < max && StaysUp(r, n)
  {
    assert After(r, max, 0) == 0;
    GeometricNext(0, r, max);
    if r.start >= max {
      assert After(r, max, 1) == max;
    } else if r.start == 0 {
      NothingComesOfZero(r, n);
    } else if StaysUp(r, n) {
      GeometricAfter(r, max, n);
      forall k: nat | k < 1 + n ensures After(r, max, k) < max {
        if k > 0 {
          GeometricAfter(r, max, k - 1);
        }
      }
    } else {
      var k := FirstBelow(r, n);
      NeverReaches(r, max, k, 1 + n);
    }
  }

  lemma {:induction false} NothingComesOfZero(r: Release, n: nat)
    requires r.start == 0 || (r.factor == 0 && n > 0)
    ensures Multiplied(r, n) == 0
  {
    if n > 0 && r.start == 0 {
      NothingComesOfZero(r, n - 1);
    }
  }

  lemma {:induction false} FirstBelow(r: Release, n: nat) returns (k: nat)
    requires !StaysUp(r, n)
    ensures 1 <= k < n && Multiplied(r, k) < r.start && StaysUp(r, k)
  {
    if StaysUp(r, n - 1) {
      k := n - 1;
    } else {
      k := FirstBelow(r, n - 1);
    }
  }

  /** A product below the start sends the release back to it, over and over. */
  lemma {:induction false} BackToStart(r: Release, max: uint32, k: nat, j: nat)
    requires r.strategy == Geometric && r.max == max && 0 < r.start < max
    requires 1 <= k && Multiplied(r, k) < r.start && StaysUp(r, k)
    requires forall i :: 1 <= i <= k ==> Multiplied(r, i) < max
    ensures After(r, max, j + 1 + k + 1) == After(r, max, j + 1)
  {
    if j == 0 {
      GeometricAfter(r, max, k);
      GeometricNext(After(r, max, k + 1), r, max);
      assert After(r, max, 0) == 0;
      GeometricNext(0, r, max);
    } else {
      BackToStart(r, max, k, j - 1);
    }
  }

  lemma {:induction false} NeverReaches(r: Release, max: uint32, k: nat, j: nat)
    requires r.strategy == Geometric && r.max == max && 0 < r.start < max
    requires 1 <= k && Multiplied(r, k) < r.start && StaysUp(r, k)
    requires forall i :: 1 <= i <= k ==> Multiplied(r, i) < max
    ensures After(r, max, j) < max
  {
    if j == 0 {
      assert After(r, max, 0) == 0;
    } else if j <= k + 1 {
      GeometricAfter(r, max, j - 1);
    } else {
      NeverReaches(r, max, k, j - k - 1);
      BackToStart(r, max, k, j - k - 2);
    }
  }

  // ---------------------------------------------------------------- when the loop ends

  /** Settings under which nothing wraps around. */
  predicate Sane(r: Release, max: uint32) {
    r.factor >= 2 && r.start >= 1 && Max(r.start, max) * r.factor < TWO_TO_THE_32
  }

  lemma ProductGrows(c: int, factor: int, bound: int)
    requires 1 <= c <= bound && factor >= 2
    ensures c < c * factor <= bound * factor
  {
    assert c * factor >= c * 2;
    assert (bound - c) * factor >= 0;
  }

  lemma MultipliedGrows(r: Release, max: uint32, k: nat)
    requires Sane(r, max) && r.start <= Multiplied(r, k) <= Max(r.start, max)
    ensures Multiplied(r, k + 1) > Multiplied(r, k)
  {
    ProductGrowsInUint32(Multiplied(r, k), r.factor, Max(r.start, max));
  }

  lemma ProductGrowsInUint32(c: int, factor: int, bound: int)
    requires 1 <= c <= bound && factor >= 2 && bound * factor < TWO_TO_THE_32
    ensures (c * factor) % TWO_TO_THE_32 > c
  {
    ProductGrows(c, factor, bound);
    SmallRemainder(c * factor);
  }

  lemma SmallRemainder(x: int)
    requires 0 <= x < TWO_TO_THE_32
    ensures x % TWO_TO_THE_32 == x
  {
  }

  lemma {:induction false} SaneEndsFrom(r: Release, max: uint32, k: nat) returns (n: nat)
    requires Sane(r, max) && r.start <= Multiplied(r, k) <= Max(r.start, max)
    requires StaysUp(r, k + 1) && forall i :: 1 <= i <= k ==> Multiplied(r, i) < max
    ensures EndsAfter(r, max, n) && StaysUp(r, n)
    decreases max - Multiplied(r, k)
  {
    MultipliedGrows(r, max, k);
    n := k + 1;
    if Multiplied(r, k + 1) < max {
      n := SaneEndsFrom(r, max, k + 1);
    }
  }

  /** Without wraparound the loop ends, and its estimate is exact unless the start is
      already the top. */
  lemma SaneEstimate(r: Release, max: uint32) returns (n: nat)
    requires r.strategy == Geometric && r.max == max && max > 0 && Sane(r, max)
    ensures EndsAfter(r, max, n)
    ensures ReachesIn(r, max, 1 + n) <==> r.start < max
  {
    n := SaneEndsFrom(r, max, 0);
    GeometricEstimateIsExactIff(r, max, n);
  }

  lemma {:induction false} FactorOneStays(r: Release, n: nat)
    requires r.factor == 1
    ensures Multiplied(r, n) == r.start
  {
    if n > 0 {
      FactorOneStays(r, n - 1);
    }
  }

  /** A factor of one never gets anywhere: the loop ends exactly when it starts at the top,
      and with a zero in it exactly when the top is zero. */
  lemma IdleLoopEndsWhen(r: Release, max: uint32)
    requires r.factor <= 1 || r.start == 0
    ensures (exists n: nat :: EndsAfter(r, max, n))
       <==> if r.factor == 1 then r.start >= max else max == 0
  {
    var last := if r.factor == 1 then r.start else 0;
    forall n: nat | n >= 1 ensures Multiplied(r, n) == last {
      if r.factor == 1 {
        FactorOneStays(r, n);
      } else {
        NothingComesOfZero(r, n);
      }
    }
    assert EndsAfter(r, max, 1) <==> last >= max;
  }
}
