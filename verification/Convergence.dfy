/** A rollout finishes: while the gate is open and the delays have elapsed, repeated
    allocations move all traffic that canaries do not hold to the ramping revision, after
    which every older revision is empty and marked for retirement. */
module Convergence {
  import opened Base
  import opened Types
  import opened Scaling
  import opened RampGate
  import opened Collections
  import opened Allocator
  import opened Preparation
  import opened Conservation

  // ---------------------------------------------------------------- on a listing

  /** A strategy that always moves on, without wrapping around, until all is taken. */
  predicate Climbs(r: Release) {
    r.strategy != Other && r.max == 100 && forall c: uint32 :: c <= 100 ==> RawNext(c, r) > c
  }

  /** Which settings do: a linear increment that does not wrap around beyond 100, and, where
      a hundredfold factor does not wrap around, a positive start with a factor of at least
      two, or a start beyond 100. */
  lemma ClimbsExactlyWhen(r: Release)
    requires r.max == 100 && (r.strategy == Geometric ==> 100 * r.factor < TWO_TO_THE_32)
    ensures Climbs(r)
       <==> match r.strategy
            case Linear => 0 < r.increment < TWO_TO_THE_32 - 100
            case Geometric => r.start > 100 || (r.start > 0 && r.factor >= 2)
            case Other => false
  {
    if r.strategy == Linear {
      LinearClimbs(r);
    } else if r.strategy == Geometric {
      GeometricClimbs(r);
    }
  }

  lemma LinearClimbs(r: Release)
    requires r.max == 100 && r.strategy == Linear
    ensures Climbs(r) <==> 0 < r.increment < TWO_TO_THE_32 - 100
  {
    if Climbs(r) {
      assert RawNext(0, r) > 0 && RawNext(100, r) > 100;
    }
  }

  lemma GeometricClimbs(r: Release)
    requires r.max == 100 && r.strategy == Geometric && 100 * r.factor < TWO_TO_THE_32
    ensures Climbs(r) <==> r.start > 100 || (r.start > 0 && r.factor >= 2)
  {
    if r.start > 100 || (r.start > 0 && r.factor >= 2) {
      forall c: uint32 | c <= 100 ensures RawNext(c, r) > c {
        if c >= r.start {
          ProductBounds(c, r.factor);
          SmallRemainder(c * r.factor);
        }
      }
    } else if r.start == 0 {
      assert 0 * r.factor == 0;
      assert RawNext(0, r) == 0;
    } else {
      assert 100 * r.factor <= 100;
      SmallRemainder(100 * r.factor);
      assert RawNext(100, r) <= 100;
    }
  }

  lemma ProductBounds(c: int, factor: int)
    requires 0 < c <= 100 && factor >= 2
    ensures c < c * factor <= 100 * factor
  {
    OrderedProducts(c, 100, factor);
    OrderedProducts(2, factor, c);
  }

  lemma OrderedProducts(a: int, b: int, k: int)
    requires a <= b && k >= 0
    ensures a * k <= b * k
  {
  }

  lemma SmallRemainder(x: int)
    requires 0 <= x < TWO_TO_THE_32
    ensures x % TWO_TO_THE_32 == x
  {
  }

  /** A canary that has reached what it may take. */
  predicate AtCap(inc: Inc) {
    && inc.status.state == Canarying
    && inc.revision.Some?
    && Scales(inc)
    && inc.status.currentPercent == OwnCeiling(inc)
    && NeverShrinks(inc)
  }

  predicate Ready(inc: Inc, gate: Gate, now: Time) {
    && inc.revision.Some?
    && Climbs(inc.revision.value.target.release)
    && inc.status.state != Canarying
    && !Waiting(inc, now)
    && forall d: uint32 :: gate(inc, d)
  }

  lemma CappedAsk(inc: Inc, budget: uint32, gate: Gate, now: Time)
    requires AtCap(inc) && inc.status.currentPercent <= budget
    ensures Ask(inc, false, budget, gate, now) == inc.status.currentPercent
  {
    var release, cap := inc.revision.value.target.release, inc.revision.value.target.canary.percent;
    NextIncrementIsClamped(inc.status.currentPercent, release, if budget > cap then cap else budget);
  }

  /** An open gate lets the pivot grow while there is room, and no further. */
  lemma ReadyAsk(inc: Inc, budget: uint32, gate: Gate, now: Time)
    requires Ready(inc, gate, now) && budget <= 100
    ensures var share := Ask(inc, false, budget, gate, now);
            && share <= budget
            && (inc.status.currentPercent < budget ==> share > inc.status.currentPercent)
            && (inc.status.currentPercent >= budget ==> share == budget)
  {
    NextIncrementIsClamped(inc.status.currentPercent, inc.revision.value.target.release, budget);
  }

  /** `c` canaries at their caps, then the pivot, the only one flagged. */
  ghost predicate Ramping(x: seq<Inc>, c: nat, gate: Gate, now: Time) {
    && c < |x|
    && Orderly(x)
    && (forall i :: 0 <= i < |x| ==> (x[i].isRamping <==> i == c))
    && (forall i :: 0 <= i < c ==> AtCap(x[i]))
    && Ready(x[c], gate, now)
    && SumOfCurrent(x, 0, c) <= 100
  }

  lemma PivotOfRamping(x: seq<Inc>, c: nat, i: nat, gate: Gate, now: Time)
    requires Ramping(x, c, gate, now) && i <= |x|
    ensures AfterPivot(x, i) <==> c < i
    ensures Recipient(x) == c
  {
    assert x[c].isRamping;
    assert AfterPivot(x, |x|);
  }

  lemma {:induction false} CanariesKeepTheirs(x: seq<Inc>, c: nat, i: nat, gate: Gate, now: Time)
    requires Ramping(x, c, gate, now) && i <= c
    ensures Budget(x, i, gate, now) == 100 - SumOfCurrent(x, 0, i)
    ensures i < c ==> Share(x, i, gate, now) == x[i].status.currentPercent
  {
    if i > 0 {
      CanariesKeepTheirs(x, c, i - 1, gate, now);
      OrderlyNeverTrips(x, gate, now);
      ShareLeavesBudget(x, i - 1, gate, now);
    }
    if i < c {
      CanaryKeepsItsOwn(x, c, i, gate, now);
    }
  }

  lemma CanaryKeepsItsOwn(x: seq<Inc>, c: nat, i: nat, gate: Gate, now: Time)
    requires Ramping(x, c, gate, now) && i < c
    requires Budget(x, i, gate, now) == 100 - SumOfCurrent(x, 0, i)
    ensures Share(x, i, gate, now) == x[i].status.currentPercent
  {
    SumGrows(x, i + 1, c);
    PivotOfRamping(x, c, i, gate, now);
    CappedAsk(x[i], Budget(x, i, gate, now), gate, now);
  }

  function Room100(x: seq<Inc>, c: nat): int
    requires c <= |x|
  {
    100 - SumOfCurrent(x, 0, c)
  }

  lemma PivotGains(x: seq<Inc>, c: nat, gate: Gate, now: Time)
    requires Ramping(x, c, gate, now)
    ensures var room, was, gets := Room100(x, c), x[c].status.currentPercent, FinalPercent(x, c, gate, now);
            && gets <= room
            && (was < room ==> gets > was)
            && (was >= room ==> gets == room)
  {
    OrderlyNeverTrips(x, gate, now);
    CanariesKeepTheirs(x, c, c, gate, now);
    PivotOfRamping(x, c, c, gate, now);
    ReadyAsk(x[c], Budget(x, c, gate, now), gate, now);
    FinalPercentIs(x, c, gate, now);
    ShareLeavesBudget(x, c, gate, now);
    BudgetShrinks(x, c + 1, |x|, gate, now);
  }

  lemma CanaryUnmoved(x: seq<Inc>, c: nat, i: nat, gate: Gate, now: Time)
    requires Ramping(x, c, gate, now) && i < c
    ensures FinalPercent(x, i, gate, now) == x[i].status.currentPercent
  {
    OrderlyNeverTrips(x, gate, now);
    CanariesKeepTheirs(x, c, i, gate, now);
    PivotOfRamping(x, c, i, gate, now);
    FinalPercentIs(x, i, gate, now);
  }

  /** A revision that is empty and will retire. */
  predicate Drained(inc: Inc) { inc.status.currentPercent == 0 && !inc.status.releaseEligible }

  /** A pivot that gets all there is leaves nothing after its own turn. */
  lemma NothingAfterPivot(x: seq<Inc>, c: nat, gate: Gate, now: Time)
    requires Ramping(x, c, gate, now) && FinalPercent(x, c, gate, now) == Room100(x, c)
    ensures Budget(x, c + 1, gate, now) == Budget(x, |x|, gate, now)
  {
    OrderlyNeverTrips(x, gate, now);
    CanariesKeepTheirs(x, c, c, gate, now);
    PivotOfRamping(x, c, c, gate, now);
    FinalPercentIs(x, c, gate, now);
    ShareLeavesBudget(x, c, gate, now);
  }

  lemma SameBudget(x: seq<Inc>, c: nat, i: nat, gate: Gate, now: Time)
    requires c < i <= |x| && Budget(x, c + 1, gate, now) == Budget(x, |x|, gate, now)
    ensures Budget(x, i, gate, now) == Budget(x, |x|, gate, now)
  {
    BudgetShrinks(x, c + 1, i, gate, now);
    BudgetShrinks(x, i, |x|, gate, now);
  }

  lemma EmptyShare(x: seq<Inc>, c: nat, i: nat, gate: Gate, now: Time)
    requires !Trips(x, gate, now) && c < i < |x|
    requires Budget(x, c + 1, gate, now) == Budget(x, |x|, gate, now)
    ensures Share(x, i, gate, now) == 0
  {
    SameBudget(x, c, i, gate, now);
    SameBudget(x, c, i + 1, gate, now);
    ShareLeavesBudget(x, i, gate, now);
  }

  lemma OldDrain(x: seq<Inc>, c: nat, i: nat, gate: Gate, now: Time)
    requires Ramping(x, c, gate, now) && c < i < |x|
    requires FinalPercent(x, c, gate, now) == Room100(x, c)
    ensures Drained(Final(x, i, gate, now))
  {
    OrderlyNeverTrips(x, gate, now);
    NothingAfterPivot(x, c, gate, now);
    EmptyShare(x, c, i, gate, now);
    PivotOfRamping(x, c, i, gate, now);
  }

  // ---------------------------------------------------------------- on a collection

  function CanaryPercents(v: Views): Weights {
    map t | t in v && v[t].status.state == Canarying :: v[t].status.currentPercent
  }

  ghost function CanarySum(v: Views): int { WeightSum(CanaryPercents(v)) }

  /** What the ramping revision has yet to take. */
  ghost function Gap(v: Views, p: Tag): int
    requires p in v
  {
    100 - CanarySum(v) - v[p].status.currentPercent
  }

  /** `p` is the only revision flagged and it releases; the canaries have reached their caps. */
  ghost predicate RollingOut(v: Views, p: Tag) {
    && p in v && Rank(v[p].status.state) == 1
    && v[p].revision.Some? && Climbs(v[p].revision.value.target.release)
    && (forall t :: t in v ==> Scales(v[t]) && FitsInt32(v[t]) && (v[t].isRamping <==> t == p))
    && (forall t :: t in v && v[t].status.state == Canarying ==> AtCap(v[t]))
    && CanarySum(v) <= 100
  }

  predicate Open(inc: Inc, gate: Gate, now: Time)
    requires inc.revision.Some?
  {
    !Waiting(inc, now) && forall d: uint32 :: gate(inc, d)
  }

  /** The canaries are listed first, then the ramping revision. */
  ghost predicate ListedAfterCanaries(v: Views, order: seq<Tag>, p: Tag, c: nat) {
    && c < |order| && order[c] == p
    && (forall t :: t in order ==> t in v)
    && (forall i :: 0 <= i < |order| ==> (v[order[i]].status.state == Canarying <==> i < c))
  }

  /** Nothing but canaries is listed before `p`. */
  ghost predicate FirstRelease(v: Views, order: seq<Tag>, p: Tag) {
    forall i, j :: 0 <= i < j < |order| && order[j] == p && order[i] in v ==> v[order[i]].status.state == Canarying
  }

  /** The release with the greatest commit time is listed so in any order; where several
      have it and the greatest creation time, in some. */
  lemma NewestIsFirstRelease(v: Views, order: seq<Tag>, p: Tag)
    requires ReleasableOrder(v, order) && p in v && v[p].status.state in {Releasing, Released}
    requires forall t :: t in v && t != p && v[t].status.state in {Releasing, Released} ==>
      !NotOlder(v[t].revision, v[p].revision)
    ensures FirstRelease(v, order, p)
  {
    forall i, j | 0 <= i < j < |order| && order[j] == p ensures v[order[i]].status.state == Canarying {
      assert order[i] in order && order[i] != p;
      ReleasableByAge(v, order, i, j);
    }
  }

  lemma PivotIsListedAfterCanaries(v: Views, order: seq<Tag>, p: Tag) returns (c: nat)
    requires RollingOut(v, p) && ReleasableOrder(v, order) && FirstRelease(v, order, p)
    ensures ListedAfterCanaries(v, order, p, c)
  {
    assert IsReleasable(v[p]);
    assert p in order;
    c :| c < |order| && order[c] == p;
    forall i | 0 <= i < |order| ensures v[order[i]].status.state == Canarying <==> i < c {
      assert order[i] in order;
    }
  }

  lemma SumOfCanaries(v: Views, order: seq<Tag>, p: Tag, c: nat)
    requires ReleasableOrder(v, order) && ListedAfterCanaries(v, order, p, c)
    ensures CanarySum(v) == SumOfCurrent(InOrder(v, order), 0, c)
  {
    var canaries := order[..c];
    assert Distinct(canaries);
    forall t | t in v && v[t].status.state == Canarying ensures t in canaries {
      assert IsReleasable(v[t]);
      assert t in order;
      var i :| 0 <= i < |order| && order[i] == t;
      assert canaries[i] == t;
    }
    forall t | t in canaries ensures t in CanaryPercents(v) {
      var i :| 0 <= i < c && order[i] == t;
    }
    SumInOrder(CanaryPercents(v), canaries);
    SumAlong(v, order, c);
  }

  lemma {:induction false} SumAlong(v: Views, order: seq<Tag>, n: nat)
    requires n <= |order| && forall t :: t in order ==> t in v
    requires forall i :: 0 <= i < n ==> v[order[i]].status.state == Canarying
    ensures forall t :: t in order[..n] ==> t in CanaryPercents(v)
    ensures OrderSum(CanaryPercents(v), order[..n]) == SumOfCurrent(InOrder(v, order), 0, n)
  {
    if n > 0 {
      SumAlong(v, order, n - 1);
      assert order[..n][..n - 1] == order[..n - 1];
      assert order[..n] == order[..n - 1] + [order[n - 1]];
    }
  }

  lemma RollingOutIsRamping(v: Views, order: seq<Tag>, p: Tag, c: nat, gate: Gate, now: Time)
    requires RollingOut(v, p) && ReleasableOrder(v, order) && Open(v[p], gate, now)
    requires ListedAfterCanaries(v, order, p, c)
    ensures Ramping(InOrder(v, order), c, gate, now)
    ensures Room100(InOrder(v, order), c) == 100 - CanarySum(v)
  {
    SumOfCanaries(v, order, p, c);
    forall i | 0 <= i < |order| ensures order[i] == p <==> i == c {
      assert order[c] == p;
    }
  }

  /** What an allocation leaves alone. */
  predicate SameSettings(a: Inc, b: Inc) {
    && a.tag == b.tag && a.revision == b.revision && a.isRamping == b.isRamping
    && a.status.state == b.status.state
  }

  lemma AllocationKeepsSettings(v: Views, order: seq<Tag>, t: Tag, gate: Gate, now: Time)
    requires (forall u :: u in order ==> u in v) && t in v
    ensures SameSettings(v[t], Allocated(v, order, gate, now)[t])
  {
  }

  lemma AllocationFits(v: Views, order: seq<Tag>, t: Tag, gate: Gate, now: Time)
    requires ReleasableOrder(v, order) && t in v && !Trips(InOrder(v, order), gate, now)
    ensures Allocated(v, order, gate, now)[t].status.currentPercent <= 100
  {
    if t in order {
      FinalPercentIs(InOrder(v, order), IndexOf(order, t), gate, now);
    }
  }

  lemma CanariesUnmoved(v: Views, order: seq<Tag>, p: Tag, c: nat, t: Tag, gate: Gate, now: Time)
    requires RollingOut(v, p) && ReleasableOrder(v, order) && Open(v[p], gate, now)
    requires ListedAfterCanaries(v, order, p, c)
    requires t in v && v[t].status.state == Canarying
    ensures Allocated(v, order, gate, now)[t].status.currentPercent == v[t].status.currentPercent
  {
    assert IsReleasable(v[t]);
    assert t in order;
    RollingOutIsRamping(v, order, p, c, gate, now);
    CanaryUnmoved(InOrder(v, order), c, IndexOf(order, t), gate, now);
  }

  lemma StillRollingOut(v: Views, w: Views, p: Tag)
    requires RollingOut(v, p) && w.Keys == v.Keys
    requires forall t :: t in v ==> SameSettings(v[t], w[t]) && FitsInt32(w[t])
    requires forall t :: t in v && v[t].status.state == Canarying ==> w[t].status.currentPercent == v[t].status.currentPercent
    ensures RollingOut(w, p) && CanarySum(w) == CanarySum(v)
  {
    assert CanaryPercents(w) == CanaryPercents(v);
  }

  lemma RolloutContinues(v: Views, order: seq<Tag>, p: Tag, c: nat, gate: Gate, now: Time)
    requires RollingOut(v, p) && ReleasableOrder(v, order) && Open(v[p], gate, now)
    requires ListedAfterCanaries(v, order, p, c)
    ensures !Trips(InOrder(v, order), gate, now)
    ensures var w := Allocated(v, order, gate, now); RollingOut(w, p) && CanarySum(w) == CanarySum(v)
  {
    var w := Allocated(v, order, gate, now);
    OrderlyNeverTrips(InOrder(v, order), gate, now);
    forall t | t in v ensures SameSettings(v[t], w[t]) && FitsInt32(w[t]) {
      AllocationKeepsSettings(v, order, t, gate, now);
      AllocationFits(v, order, t, gate, now);
    }
    forall t | t in v && v[t].status.state == Canarying
      ensures w[t].status.currentPercent == v[t].status.currentPercent
    {
      CanariesUnmoved(v, order, p, c, t, gate, now);
    }
    StillRollingOut(v, w, p);
  }

  ghost predicate OldOnesDrained(w: Views, order: seq<Tag>, p: Tag) {
    forall t :: t in order && t in w && t != p && w[t].status.state != Canarying ==> Drained(w[t])
  }

  lemma AllDrained(v: Views, order: seq<Tag>, p: Tag, c: nat, gate: Gate, now: Time)
    requires ReleasableOrder(v, order) && ListedAfterCanaries(v, order, p, c)
    requires Ramping(InOrder(v, order), c, gate, now)
    requires FinalPercent(InOrder(v, order), c, gate, now) == Room100(InOrder(v, order), c)
    ensures OldOnesDrained(Allocated(v, order, gate, now), order, p)
  {
    var w := Allocated(v, order, gate, now);
    forall t | t in order && t != p && w[t].status.state != Canarying ensures Drained(w[t]) {
      AllocationKeepsSettings(v, order, t, gate, now);
      OldDrain(InOrder(v, order), c, IndexOf(order, t), gate, now);
    }
  }

  /** One allocation keeps the rollout going and closes in on its end. */
  lemma RolloutAdvances(v: Views, order: seq<Tag>, p: Tag, gate: Gate, now: Time)
    requires RollingOut(v, p) && ReleasableOrder(v, order) && FirstRelease(v, order, p) && Open(v[p], gate, now)
    ensures !Trips(InOrder(v, order), gate, now)
    ensures var w := Allocated(v, order, gate, now);
            && RollingOut(w, p)
            && 0 <= Gap(w, p) <= Max(0, Gap(v, p) - 1)
            && (Gap(w, p) == 0 ==> OldOnesDrained(w, order, p))
  {
    var c := PivotIsListedAfterCanaries(v, order, p);
    RolloutContinues(v, order, p, c, gate, now);
    RollingOutIsRamping(v, order, p, c, gate, now);
    PivotGains(InOrder(v, order), c, gate, now);
    AllocatedAt(v, order, c, gate, now);
    if Gap(Allocated(v, order, gate, now), p) == 0 {
      AllDrained(v, order, p, c, gate, now);
    }
  }

  // ---------------------------------------------------------------- over many allocations

  /** One allocation while the gate is open for `p` and its delay has elapsed. */
  datatype Step = Step(order: seq<Tag>, gate: Gate, now: Time)

  ghost predicate Follows(v: Views, s: Step, w: Views, p: Tag) {
    && p in v && v[p].revision.Some?
    && ReleasableOrder(v, s.order) && FirstRelease(v, s.order, p) && Open(v[p], s.gate, s.now)
    && w == Allocated(v, s.order, s.gate, s.now)
  }

  ghost predicate Rollout(vs: seq<Views>, steps: seq<Step>, p: Tag) {
    && |vs| == |steps| + 1
    && RollingOut(vs[0], p)
    && forall i :: 0 <= i < |steps| ==> Follows(vs[i], steps[i], vs[i + 1], p)
  }

  /** The rollout is under way, and complete once `n` allocations have made up for the gap
      it started with. */
  ghost predicate Reached(w: Views, order: seq<Tag>, p: Tag, gap: int, n: nat) {
    && RollingOut(w, p)
    && Gap(w, p) <= Max(0, gap - n)
    && (n >= gap ==> Gap(w, p) == 0 && OldOnesDrained(w, order, p))
  }

  lemma StepReaches(v: Views, s: Step, w: Views, p: Tag, gap: int, n: nat)
    requires RollingOut(v, p) && Gap(v, p) <= Max(0, gap - n) && Follows(v, s, w, p)
    ensures Reached(w, s.order, p, gap, n + 1)
  {
    RolloutAdvances(v, s.order, p, s.gate, s.now);
  }

  /** After as many allocations as there were percents missing, never more than 100, the
      rollout is complete, and it stays complete. */
  lemma {:induction false} RolloutCompletes(vs: seq<Views>, steps: seq<Step>, p: Tag, n: nat)
    requires Rollout(vs, steps, p) && 0 < n <= |steps|
    ensures Reached(vs[n], steps[n - 1].order, p, Gap(vs[0], p), n)
  {
    if n > 1 {
      RolloutCompletes(vs, steps, p, n - 1);
    }
    StepReaches(vs[n - 1], steps[n - 1], vs[n], p, Gap(vs[0], p), n - 1);
  }

  lemma {:induction false} CanarySumIsNatural(m: Weights)
    ensures WeightSum(m) >= 0
    decreases |m|
  {
    if m != map[] {
      var t :| t in m;
      WeightSumWithout(m, t);
      CanarySumIsNatural(m - {t});
    }
  }

  lemma GapIsAtMost100(v: Views, p: Tag)
    requires p in v
    ensures Gap(v, p) <= 100
  {
    CanarySumIsNatural(CanaryPercents(v));
  }

  /** A hundred allocations are always enough. */
  lemma AHundredAllocationsSuffice(vs: seq<Views>, steps: seq<Step>, p: Tag, n: nat)
    requires Rollout(vs, steps, p) && 100 <= n <= |steps|
    ensures RollingOut(vs[n], p) && Gap(vs[n], p) == 0 && OldOnesDrained(vs[n], steps[n - 1].order, p)
  {
    assert p in vs[0];
    GapIsAtMost100(vs[0], p);
    RolloutCompletes(vs, steps, p, n);
  }
}
