/** Is the ramp gate reachable? What opens it is replicas, and the autoscaler minimum is what
    brings them (controllers/incarnation.go:473-549). A minimum that is raised for the ramp
    suffices for every workload exactly when the live clusters' scaling factors average at
    least one, or are all zero; for one that is not raised the exact condition compares
    shares. */
module GateReachable {
  import opened Base
  import opened Types
  import opened Scaling
  import opened Replicas
  import opened RampGate

  /** The flagged revision, in a state in which it may be flagged. */
  predicate Ramps(inc: Inc) {
    && inc.isRamping
    && inc.status.state in {Releasing, Released, Retiring, Deleting, Failing}
    && inc.revision.Some?
    && inc.revision.value.target.release.strategy != Other
    && inc.revision.value.target.scale.min.Some?
  }

  predicate IsWorker(scale: ScaleInfo) { scale.worker || scale.kedaWorker }

  /** Its minimum is raised while it already carries traffic and is no worker. */
  predicate Raised(inc: Inc)
    requires Ramps(inc)
  {
    && inc.status.state == Releasing
    && inc.status.currentPercent > 0
    && inc.revision.value.target.scale.HasAutoscaler()
    && !IsWorker(inc.revision.value.target.scale)
  }

  function Next(inc: Inc): uint32
    requires Ramps(inc)
  {
    var release := inc.revision.value.target.release;
    NextIncrement(inc.status.currentPercent, release, release.max)
  }

  /** The revision with this many replicas. */
  function Running(inc: Inc, replicas: int): Inc {
    inc.(status := inc.status.(scale := inc.status.scale.(current := Max(0, replicas))))
  }

  /** Whatever budget the allocator has left when it reaches the revision, growth is
      not deferred once every live cluster runs its scaled minimum. */
  predicate OpensAtMinimum(cs: seq<ClusterInfo>, inc: Inc, saved: seq<Status>, budget: uint32)
    requires Count(cs, true) > 0 && Ramps(inc)
  {
    var ctrl := Controller(saved, cs);
    var desired := NextIncrement(inc.status.currentPercent, inc.revision.value.target.release, budget);
    desired > inc.status.currentPercent ==> CanRampTo(Running(inc, FleetAtMinimum(inc, ctrl)), ctrl, desired)
  }

  /** What the allocator may ask for is at most the next increment, so that is the worst. */
  lemma WorstBudget(cs: seq<ClusterInfo>, inc: Inc, saved: seq<Status>)
    requires Count(cs, true) > 0 && NonNegativeFactors(cs) && Ramps(inc)
    ensures (forall budget: uint32 :: OpensAtMinimum(cs, inc, saved, budget))
       <==> Next(inc) <= inc.status.currentPercent || MeetsRequirement(cs, inc, saved)
  {
    var release, current := inc.revision.value.target.release, inc.status.currentPercent;
    if forall budget: uint32 :: OpensAtMinimum(cs, inc, saved, budget) {
      assert OpensAtMinimum(cs, inc, saved, release.max);
    } else {
      var budget: uint32 :| !OpensAtMinimum(cs, inc, saved, budget);
      AllocatorAsksNoMore(current, release, budget);
      RequirementMonotone(inc, Controller(saved, cs), Next(inc), NextIncrement(current, release, budget));
    }
  }

  predicate MeetsRequirement(cs: seq<ClusterInfo>, inc: Inc, saved: seq<Status>)
    requires Count(cs, true) > 0 && Ramps(inc)
  {
    var ctrl := Controller(saved, cs);
    Max(0, FleetAtMinimum(inc, ctrl)) >= Requirement(inc, ctrl, Next(inc)).value
  }

  function Load(inc: Inc, saved: seq<Status>): nat
    requires Ramps(inc)
  {
    BaseCapacity(OtherRevisions(saved, inc.tag), inc.revision.value.target.scale)
  }

  // ---------------------------------------------------------------- raised minimums

  /** The gate opens at the minimum of every raised revision that sets a maximum. */
  ghost predicate AlwaysOpensAtMinimum(cs: seq<ClusterInfo>)
    requires Count(cs, true) > 0
  {
    forall inc: Inc, saved: seq<Status>, budget: uint32 ::
      Ramps(inc) && Raised(inc) && inc.revision.value.target.scale.max > 0 ==> OpensAtMinimum(cs, inc, saved, budget)
  }

  /** That is so if and only if the live factors average at least one, or no live cluster
      is given any replicas at all. */
  lemma GateIsReachableIff(cs: seq<ClusterInfo>)
    requires Count(cs, true) > 0 && NonNegativeFactors(cs)
    ensures AlwaysOpensAtMinimum(cs)
       <==> FactorSum(cs) == 0.0 || FactorSum(cs) >= Count(cs, true) as real
  {
    if FactorSum(cs) == 0.0 || FactorSum(cs) >= Count(cs, true) as real {
      forall inc: Inc, saved: seq<Status>, budget: uint32
        | Ramps(inc) && Raised(inc) && inc.revision.value.target.scale.max > 0
        ensures OpensAtMinimum(cs, inc, saved, budget)
      {
        MinimumSuffices(cs, inc, saved, budget);
      }
    } else {
      FactorSumIsNonNegative(cs);
      var inc, saved := DeferredForever(cs);
      assert !OpensAtMinimum(cs, inc, saved, 100);
    }
  }

  lemma {:induction false} FactorSumIsNonNegative(cs: seq<ClusterInfo>)
    requires NonNegativeFactors(cs)
    ensures FactorSum(cs) >= 0.0
  {
    if cs != [] {
      FactorSumIsNonNegative(cs[1..]);
    }
  }

  /** Factors of at least one each are enough. */
  lemma {:induction false} FactorsOfOneAverageOne(cs: seq<ClusterInfo>)
    requires forall i :: 0 <= i < |cs| && cs[i].live ==> cs[i].scalingFactor >= 1.0
    ensures FactorSum(cs) >= Count(cs, true) as real
  {
    if cs != [] {
      forall i | 0 <= i < |cs[1..]| && cs[1..][i].live ensures cs[1..][i].scalingFactor >= 1.0 {
        assert cs[1..][i] == cs[i + 1];
      }
      FactorsOfOneAverageOne(cs[1..]);
    }
  }

  // ---------------------------------------------------------------- sufficiency

  lemma MinimumSuffices(cs: seq<ClusterInfo>, inc: Inc, saved: seq<Status>, budget: uint32)
    requires Count(cs, true) > 0 && NonNegativeFactors(cs)
    requires FactorSum(cs) == 0.0 || FactorSum(cs) >= Count(cs, true) as real
    requires Ramps(inc) && Raised(inc) && inc.revision.value.target.scale.max > 0
    ensures OpensAtMinimum(cs, inc, saved, budget)
  {
    var ctrl := Controller(saved, cs);
    if Next(inc) > inc.status.currentPercent {
      var proactive := ProactiveRampMinReplicas(inc, ctrl);
      ProactiveMinimumMeetsRequirement(cs, Load(inc, saved), inc.revision.value.target.scale.max, Next(inc));
      TotalMonotone(cs, proactive, ScalePlan(inc, ctrl).min);
    }
    WorstBudget(cs, inc, saved);
  }

  lemma AllocatorAsksNoMore(current: uint32, release: Release, budget: uint32)
    requires release.strategy != Other
    requires NextIncrement(current, release, budget) > current
    ensures NextIncrement(current, release, budget) <= NextIncrement(current, release, release.max)
  {
    if budget <= release.max {
      GrowthIsMonotone(current, release, budget, release.max);
    } else {
      assert NextIncrement(current, release, budget) == NextIncrement(current, release, release.max);
    }
  }

  function ProactiveShare(cs: seq<ClusterInfo>, required: int, max: nat): int {
    Min(DivideReplicas(cs, required, 100), DivideReplicas(cs, max, 100))
  }

  lemma FullShare(cs: seq<ClusterInfo>, count: int)
    requires Count(cs, true) > 0
    ensures DivideReplicas(cs, count, 100) == Max(Ceil(count as real / Count(cs, true) as real), 1)
    ensures ExpectedTotalReplicas(cs, count, 100) == Total(cs, true, Ceil(count as real / Count(cs, true) as real))
  {
    DivideReplicasOfShare(cs, count, 100);
    assert Fraction(100) == 1.0;
    assert Fraction(100) * count as real == count as real;
    assert Ceil(count as real) == count;
  }

  lemma ProactiveMinimumMeetsRequirement(cs: seq<ClusterInfo>, base: nat, max: nat, percent: int)
    requires Count(cs, true) > 0 && NonNegativeFactors(cs) && max > 0
    requires FactorSum(cs) == 0.0 || FactorSum(cs) >= Count(cs, true) as real
    ensures var required := CappedRequirement(cs, base, max, percent);
            Total(cs, true, ProactiveShare(cs, required, max)) >= required
  {
    var n := Count(cs, true);
    var required := CappedRequirement(cs, base, max, percent);
    FullShare(cs, required);
    FullShare(cs, max);
    PositiveShare(max as real, n);
    if DivideReplicas(cs, required, 100) <= DivideReplicas(cs, max, 100) {
      var share := DivideReplicas(cs, required, 100);
      if FactorSum(cs) == 0.0 {
        NothingRequired(cs, base, max, percent);
        TotalIsNonNegative(cs, share);
      } else {
        ShareCovers(cs, required, share);
      }
    }
  }

  lemma NothingRequired(cs: seq<ClusterInfo>, base: nat, max: nat, percent: int)
    requires Count(cs, true) > 0 && NonNegativeFactors(cs) && max > 0 && FactorSum(cs) == 0.0
    ensures CappedRequirement(cs, base, max, percent) <= 0
  {
    FullShare(cs, max);
    ZeroFactors(cs, Ceil(max as real / Count(cs, true) as real));
  }

  lemma {:induction false} ZeroFactors(cs: seq<ClusterInfo>, k: int)
    requires NonNegativeFactors(cs) && FactorSum(cs) == 0.0
    ensures Total(cs, true, k) == 0
  {
    if cs != [] {
      FactorSumIsNonNegative(cs[1..]);
      ZeroFactors(cs[1..], k);
      if cs[0].live {
        assert cs[0].scalingFactor == 0.0;
        assert k as real * 0.0 == 0.0;
        CeilIsLeast(k as real * cs[0].scalingFactor, 0);
      }
    }
  }

  lemma ShareCovers(cs: seq<ClusterInfo>, required: int, share: int)
    requires Count(cs, true) > 0 && NonNegativeFactors(cs)
    requires FactorSum(cs) >= Count(cs, true) as real
    requires share == Max(Ceil(required as real / Count(cs, true) as real), 1)
    ensures Total(cs, true, share) >= required
  {
    var n := Count(cs, true);
    RoundingIsBounded(cs, share);
    RoundedShare(required as real, n, Ceil(required as real / n as real));
    ShareOrder(Ceil(required as real / n as real), share, n);
    UnroundedCovers(cs, required, share);
  }

  lemma UnroundedCovers(cs: seq<ClusterInfo>, required: int, share: int)
    requires FactorSum(cs) >= Count(cs, true) as real
    requires share >= 1 && required <= Count(cs, true) * share
    ensures UnroundedTotal(cs, share) >= required as real
  {
    var total := LargerFactor(Count(cs, true), FactorSum(cs), required, share);
    UnroundedTotalFollowsFactors(cs, share);
  }

  lemma LargerFactor(n: nat, s: real, required: int, share: int) returns (total: real)
    requires n as real <= s && share >= 0 && required <= n * share
    ensures total == share as real * s && total >= required as real
  {
    OneShareLess(share, n);
    total := share as real * s;
    ShareTimesMore(share as real, n as real, s);
  }

  lemma ShareTimesMore(share: real, n: real, s: real)
    requires n <= s && share >= 0.0
    ensures share * n <= share * s
  {
  }

  lemma ShareOrder(a: int, b: int, n: nat)
    requires a <= b
    ensures n * a <= n * b
  {
  }

  // ---------------------------------------------------------------- necessity

  /** A revision at 50% of the traffic, beside one that holds the rest with `pods` pods. */
  function HalfwayRevision(cs: seq<ClusterInfo>, max: nat, running: nat): Inc {
    var release := Release(true, 100, Linear, 50, 0, 10, 2, 0, 0);
    var scale := ScaleInfo(Some(1), max, 1, true, false, false);
    var target := Target(release, Canary(0, 0), 0, ExternalTest(false, false, false, false), scale);
    Inc("new", Some(Revision(0, 0, false, false, target)),
        Status("new", Releasing, None, 50, 50, true, None, None, 0, ScaleStatus(running, running, running), false),
        true, true)
  }

  function OtherHalf(pods: nat): Status {
    Status("old", Released, None, 50, 100, true, None, None, 0, ScaleStatus(pods, pods, pods), false)
  }

  /** Where the factors average strictly between zero and one, a large enough load is
      deferred forever: the scaled minimum falls short of the requirement. */
  lemma DeferredForever(cs: seq<ClusterInfo>) returns (inc: Inc, saved: seq<Status>)
    requires Count(cs, true) > 0 && NonNegativeFactors(cs)
    requires 0.0 < FactorSum(cs) < Count(cs, true) as real
    ensures Ramps(inc) && Raised(inc) && inc.revision.value.target.scale.max > 0
    ensures !OpensAtMinimum(cs, inc, saved, 100)
  {
    var k := LargeLoad(cs);
    var pods := Count(cs, true) * k;
    var required := CappedRequirement(cs, pods, pods, 100);
    var share := ProactiveShare(cs, required, pods);
    ShareFallsShort(cs, pods, required);
    FullShare(cs, pods);
    TotalIsNonNegative(cs, share);
    saved := [OtherHalf(pods)];
    inc := HalfwayRevision(cs, pods, Total(cs, true, share));
    HalfwayFacts(cs, Controller(saved, cs), pods, inc, required, share);
  }

  lemma HalfwayFacts(cs: seq<ClusterInfo>, ctrl: Controller, pods: nat, inc: Inc, required: int, share: int)
    requires Count(cs, true) > 0 && pods > 0
    requires ctrl == Controller([OtherHalf(pods)], cs)
    requires required == CappedRequirement(cs, pods, pods, 100)
    requires share == ProactiveShare(cs, required, pods)
    requires Total(cs, true, share) >= 0
    requires inc == HalfwayRevision(cs, pods, Total(cs, true, share))
    requires required > Total(cs, true, share)
    ensures Ramps(inc) && Raised(inc) && inc.revision.value.target.scale.max > 0
    ensures !OpensAtMinimum(cs, inc, ctrl.saved, 100)
  {
    assert ctrl.saved[..0] == [];
    assert OtherRevisions(ctrl.saved[..0], "new") == Fleet(0, 0, false);
    assert OtherRevisions(ctrl.saved, "new") == Fleet(pods, 50, true);
    assert NextIncrement(50, inc.revision.value.target.release, 100) == 100;
    assert Requirement(inc, ctrl, 100) == Some(required);
    assert ProactiveRampMinReplicas(inc, ctrl) == share;
    FullShare(cs, 1);
    DivOrder(1.0, Count(cs, true) as real, Count(cs, true) as real);
    CeilIsLeast(1.0 / Count(cs, true) as real, 1);
    assert InstanceReplicas(inc, ctrl, 1) == 1;
    assert ScalePlan(inc, ctrl).min == share;
  }

  /** Beyond this requirement rounding cannot make up for the missing factor. */
  function Enough(n: real, s: real): real
    requires s < n
  {
    n * (s + n) / (n - s)
  }

  lemma LoadToReach(cs: seq<ClusterInfo>, goal: real) returns (k: nat)
    requires FactorSum(cs) > 0.0
    ensures k >= 1 && UnroundedTotal(cs, k) >= goal && UnroundedTotal(cs, k) > 0.0
  {
    var s := FactorSum(cs);
    k := Max(Ceil(goal / s), 1);
    MulDiv(goal, s);
    ProductMonotone(goal / s, k as real, s);
    StrictProduct(0.0, k as real, s);
    UnroundedTotalFollowsFactors(cs, k);
  }

  lemma LargeLoad(cs: seq<ClusterInfo>) returns (k: nat)
    requires Count(cs, true) > 0 && NonNegativeFactors(cs)
    requires 0.0 < FactorSum(cs) < Count(cs, true) as real
    ensures Count(cs, true) * k > 0
    ensures CappedRequirement(cs, Count(cs, true) * k, Count(cs, true) * k, 100) > 0
    ensures CappedRequirement(cs, Count(cs, true) * k, Count(cs, true) * k, 100) as real
         >= Enough(Count(cs, true) as real, FactorSum(cs))
  {
    var enough := Enough(Count(cs, true) as real, FactorSum(cs));
    k := LoadToReach(cs, enough / THRESHOLD);
    ShareOrder(1, k, Count(cs, true));
    RoundingIsBounded(cs, k);
    RequirementOfLoad(cs, k);
    AtLeast(Total(cs, true, k) as real, enough);
  }

  lemma AtLeast(total: real, enough: real)
    requires total >= enough / THRESHOLD
    ensures total * THRESHOLD >= enough
  {
  }

  lemma RequirementOfLoad(cs: seq<ClusterInfo>, k: nat)
    requires Count(cs, true) > 0 && NonNegativeFactors(cs) && Count(cs, true) * k > 0
    ensures CappedRequirement(cs, Count(cs, true) * k, Count(cs, true) * k, 100)
         == Ceil(Total(cs, true, k) as real * THRESHOLD)
  {
    var n := Count(cs, true);
    FullShare(cs, n * k);
    MulDivInt(n, k);
    TotalIsNonNegative(cs, k);
    CeilIsLeast(Total(cs, true, k) as real * THRESHOLD, Total(cs, true, k));
  }

  lemma MulDivInt(n: nat, k: int)
    requires n > 0
    ensures Ceil((n * k) as real / n as real) == k
  {
    assert (n * k) as real / n as real == k as real;
  }

  lemma ShareFallsShort(cs: seq<ClusterInfo>, max: nat, required: int)
    requires Count(cs, true) > 0 && NonNegativeFactors(cs)
    requires 0.0 < FactorSum(cs) < Count(cs, true) as real
    requires required > 0 && required as real >= Enough(Count(cs, true) as real, FactorSum(cs))
    ensures ProactiveShare(cs, required, max) >= 1
    ensures Total(cs, true, ProactiveShare(cs, required, max)) < required
  {
    var n := Count(cs, true);
    var share := Ceil(required as real / n as real);
    FullShare(cs, required);
    PositiveShare(required as real, n);
    TotalMonotone(cs, ProactiveShare(cs, required, max), share);
    RoundingIsBounded(cs, share);
    UnroundedFallsShort(cs, required, share);
  }

  lemma EnoughMeans(n: real, s: real, required: real)
    requires s < n && required >= Enough(n, s)
    ensures required * (n - s) >= n * (s + n)
  {
    MulDiv(n * (s + n), n - s);
    ProductMonotone(Enough(n, s), required, n - s);
  }

  lemma TotalOfFactors(cs: seq<ClusterInfo>, k: int) returns (s: real, total: real)
    ensures s == FactorSum(cs) && total == UnroundedTotal(cs, k) && total == k as real * s
  {
    s, total := FactorSum(cs), UnroundedTotal(cs, k);
    UnroundedTotalFollowsFactors(cs, k);
  }

  lemma UnroundedFallsShort(cs: seq<ClusterInfo>, required: int, share: int)
    requires 0.0 < FactorSum(cs) < Count(cs, true) as real
    requires required as real >= Enough(Count(cs, true) as real, FactorSum(cs))
    requires (share - 1) as real < required as real / Count(cs, true) as real
    ensures UnroundedTotal(cs, share) + Count(cs, true) as real <= required as real
  {
    var s, total := TotalOfFactors(cs, share);
    Underrun(Count(cs, true) as real, s, required as real, share as real, total);
  }

  lemma Underrun(n: real, s: real, required: real, share: real, total: real)
    requires 0.0 < s < n && required >= Enough(n, s)
    requires share - 1.0 < required / n && total == share * s
    ensures total + n <= required
  {
    EnoughMeans(n, s, required);
    Shortfall(n, s, required, share);
  }

  lemma Shortfall(n: real, s: real, required: real, share: real)
    requires 0.0 < s < n
    requires required * (n - s) >= n * (s + n)
    requires share - 1.0 < required / n
    ensures share * s + n <= required
  {
    var q := required / n;
    MulDiv(required, n);
    StrictProduct(share, q + 1.0, s);
    assert n * q * (n - s) == n * (q * (n - s));
    CancelFactor(n, q * (n - s), s + n);
    assert q * n - q * s >= s + n;
  }

  lemma CancelFactor(n: real, x: real, y: real)
    requires n > 0.0 && n * x >= n * y
    ensures x >= y
  {
    if x < y {
      StrictProduct(x, y, n);
    }
  }

  /** A factor below one can leave a single cluster short: four pods wanted, one run. */
  lemma HalfFactorIsNotEnough()
    ensures var cs := [ClusterInfo(true, 0.5)];
            Count(cs, true) == 1 && !AlwaysOpensAtMinimum(cs)
  {
    var cs := [ClusterInfo(true, 0.5)];
    assert cs[1..] == [];
    assert FactorSum(cs) == 0.5 && Count(cs, true) == 1;
    GateIsReachableIff(cs);
  }

  // ---------------------------------------------------------------- minimums that are not raised

  /** What a minimum that is not raised is a share of: before the first traffic it is pinned
      to the maximum, and afterwards it is the configured minimum. */
  function SizedBy(inc: Inc): nat
    requires Ramps(inc)
  {
    var scale := inc.revision.value.target.scale;
    if inc.status.currentPercent == 0 then scale.max else scale.min.value
  }

  /** Replicas per cluster at such a minimum. A worker without a minimum may run none. */
  function UnraisedShare(cs: seq<ClusterInfo>, inc: Inc): int
    requires Ramps(inc)
  {
    var scale := inc.revision.value.target.scale;
    if inc.status.currentPercent > 0 && IsWorker(scale) && scale.min.value == 0 then 0
    else DivideReplicas(cs, SizedBy(inc), Next(inc))
  }

  /** The share amounts to nine tenths of what the load needs at the percent, or to the
      whole of what the maximum allows. */
  predicate ShareReaches(cs: seq<ClusterInfo>, share: int, load: nat, max: nat, percent: int)
    requires Count(cs, true) > 0
  {
    var n := Count(cs, true);
    || Total(cs, true, share) as real >= Total(cs, true, PerCluster(Fraction(percent), load, n)) as real * THRESHOLD
    || (max > 0 && Total(cs, true, share) >= Total(cs, true, PerCluster(Fraction(100), max, n)))
  }

  lemma RequirementReached(cs: seq<ClusterInfo>, share: int, load: nat, max: nat, percent: int)
    requires Count(cs, true) > 0
    ensures Total(cs, true, share) >= CappedRequirement(cs, load, max, percent)
       <==> ShareReaches(cs, share, load, max, percent)
  {
    var needed := ExpectedTotalReplicas(cs, load, percent) as real * THRESHOLD;
    if Total(cs, true, share) as real >= needed {
      CeilIsLeast(needed, Total(cs, true, share));
    }
  }

  lemma UnraisedMinimum(cs: seq<ClusterInfo>, inc: Inc, saved: seq<Status>)
    requires Count(cs, true) > 0 && NonNegativeFactors(cs) && Ramps(inc) && !Raised(inc)
    ensures FleetAtMinimum(inc, Controller(saved, cs)) == Total(cs, true, UnraisedShare(cs, inc)) >= 0
  {
    assert ProactiveRampMinReplicas(inc, Controller(saved, cs)) == 0;
    TotalIsNonNegative(cs, UnraisedShare(cs, inc));
  }

  /** For a revision whose minimum is not raised, which is every one before its first
      traffic, every worker and every release that only drains, the gate opens at the minimum,
      whatever the budget, if and only if no growth is wanted or the share reaches. */
  lemma UnraisedOpensExactlyWhen(cs: seq<ClusterInfo>, inc: Inc, saved: seq<Status>)
    requires Count(cs, true) > 0 && NonNegativeFactors(cs) && Ramps(inc) && !Raised(inc)
    ensures (forall budget: uint32 :: OpensAtMinimum(cs, inc, saved, budget))
       <==> || Next(inc) <= inc.status.currentPercent
            || ShareReaches(cs, UnraisedShare(cs, inc), Load(inc, saved), inc.revision.value.target.scale.max, Next(inc))
  {
    WorstBudget(cs, inc, saved);
    UnraisedMinimum(cs, inc, saved);
    RequirementReached(cs, UnraisedShare(cs, inc), Load(inc, saved), inc.revision.value.target.scale.max, Next(inc));
  }

  /** A load that is no larger than what the share is taken of is always reached, by any
      fleet: for a first step it is enough that the load does not exceed the maximum. */
  lemma SmallLoadIsReached(cs: seq<ClusterInfo>, count: nat, load: nat, max: nat, percent: nat)
    requires Count(cs, true) > 0 && NonNegativeFactors(cs) && load <= count
    ensures ShareReaches(cs, DivideReplicas(cs, count, percent), load, max, percent)
  {
    var n := Count(cs, true);
    var needed := PerCluster(Fraction(percent), load, n);
    DivisionIsPerCluster(cs, count, percent);
    PerClusterOrder(Fraction(percent), load, count, n);
    TotalMonotone(cs, needed, DivideReplicas(cs, count, percent));
    TotalIsNonNegative(cs, needed);
  }

  /** So whenever the load does not exceed the maximum, the first step is never deferred at
      the minimum, on any fleet and with any budget. */
  lemma FirstStepOpensForSmallLoads(cs: seq<ClusterInfo>, inc: Inc, saved: seq<Status>, budget: uint32)
    requires Count(cs, true) > 0 && NonNegativeFactors(cs)
    requires Ramps(inc) && inc.status.currentPercent == 0
    requires Load(inc, saved) <= inc.revision.value.target.scale.max
    ensures OpensAtMinimum(cs, inc, saved, budget)
  {
    var max := inc.revision.value.target.scale.max;
    SmallLoadIsReached(cs, max, Load(inc, saved), max, Next(inc));
    UnraisedOpensExactlyWhen(cs, inc, saved);
  }

  /** With unit factors the comparison is one of shares: ten of them cover nine of what each
      cluster needs, or one covers the maximum. */
  lemma UnitShareReachesWhen(cs: seq<ClusterInfo>, share: int, load: nat, max: nat, percent: int)
    requires Count(cs, true) > 0 && UnitFactors(cs)
    ensures ShareReaches(cs, share, load, max, percent)
       <==> || 10 * share >= 9 * PerCluster(Fraction(percent), load, Count(cs, true))
            || (max > 0 && share >= PerCluster(Fraction(100), max, Count(cs, true)))
  {
    UnitTotals(cs, share, PerCluster(Fraction(percent), load, Count(cs, true)));
    UnitTotals(cs, share, PerCluster(Fraction(100), max, Count(cs, true)));
  }

  lemma UnitTotals(cs: seq<ClusterInfo>, share: int, needed: int)
    requires Count(cs, true) > 0 && UnitFactors(cs)
    ensures Total(cs, true, share) as real >= Total(cs, true, needed) as real * THRESHOLD <==> 10 * share >= 9 * needed
    ensures Total(cs, true, share) >= Total(cs, true, needed) <==> share >= needed
  {
    TotalOfUnitFactors(cs, share);
    TotalOfUnitFactors(cs, needed);
    NineTenths(Total(cs, true, share), Total(cs, true, needed));
    OrderOfProducts(Count(cs, true), share, needed);
  }

  lemma NineTenths(x: int, y: int)
    ensures x as real >= y as real * THRESHOLD <==> 10 * x >= 9 * y
  {
  }

  lemma OrderOfProducts(n: nat, a: int, b: int)
    requires n > 0
    ensures n * a >= n * b <==> a >= b
    ensures 10 * (n * a) >= 9 * (n * b) <==> 10 * a >= 9 * b
  {
    SignOfProduct(n, a - b);
    SignOfProduct(n, 10 * a - 9 * b);
    assert n * (a - b) == n * a - n * b;
    assert n * (10 * a - 9 * b) == 10 * (n * a) - 9 * (n * b);
  }

  lemma SignOfProduct(n: nat, d: int)
    requires n > 0
    ensures n * d >= 0 <==> d >= 0
  {
  }

  // ---------------------------------------------------------------- the first step

  /** A revision that is about to take its first tenth of the traffic. */
  function FirstStep(max: nat): Inc {
    var release := Release(true, 100, Geometric, 0, 0, 10, 2, 0, 0);
    var target := Target(release, Canary(0, 0), 0, ExternalTest(false, false, false, false),
                         ScaleInfo(Some(1), max, 1, true, false, false));
    Inc("new", Some(Revision(0, 0, false, false, target)),
        Status("new", Releasing, None, 0, 0, true, None, None, 0, ScaleStatus(0, 0, 0), false),
        true, true)
  }

  /** The release before it, with all of the traffic on `pods` pods. */
  function AllElse(pods: nat): Status {
    Status("old", Released, None, 100, 100, true, None, None, 0, ScaleStatus(pods, pods, pods), false)
  }

  lemma FirstStepLoad(max: nat, pods: nat)
    requires pods > 0
    ensures Ramps(FirstStep(max)) && !Raised(FirstStep(max)) && Next(FirstStep(max)) == 10
    ensures Load(FirstStep(max), [AllElse(pods)]) == pods
  {
    var saved := [AllElse(pods)];
    assert saved[..0] == [];
    assert OtherRevisions(saved[..0], "new") == Fleet(0, 0, false);
    assert OtherRevisions(saved, "new") == Fleet(pods, 100, false);
    assert 100 as real / 100.0 == 1.0;
    assert Ceil(pods as real / 1.0) == pods;
  }

  /** One cluster with factor one: a maximum of 100 pins the revision to 10 replicas, and
      taking over a tenth of what 200 pods serve is deferred until there are 18. */
  lemma FirstStepStarves()
    ensures var cs, saved := [ClusterInfo(true, 1.0)], [AllElse(200)];
            var inc, ctrl := FirstStep(100), Controller(saved, cs);
            && Count(cs, true) == 1 && Ramps(inc)
            && ScalePlan(inc, ctrl) == Bounds(10, 10)
            && Requirement(inc, ctrl, 10) == Some(18)
            && !OpensAtMinimum(cs, inc, saved, 100)
  {
    var cs, saved := [ClusterInfo(true, 1.0)], [AllElse(200)];
    FirstStepLoad(100, 200);
    OneCluster();
    FirstStepNumbers();
  }

  lemma OneCluster()
    ensures var cs := [ClusterInfo(true, 1.0)];
            Count(cs, true) == 1 && forall k: int :: Total(cs, true, k) == k
  {
    var cs := [ClusterInfo(true, 1.0)];
    assert cs[1..] == [];
    forall k: int ensures Total(cs, true, k) == k {
      assert k as real * 1.0 == k as real;
    }
  }

  lemma FirstStepNumbers()
    ensures Ceil(Wanted(Fraction(10), 200)) == 20 && Ceil(Wanted(Fraction(10), 100)) == 10
    ensures Ceil(Wanted(Fraction(100), 100)) == 100
    ensures DividedUp(20, 1) == 20 && DividedUp(10, 1) == 10 && DividedUp(100, 1) == 100
    ensures Ceil(20 as real * THRESHOLD) == 18
  {
  }

  /** The gate opens for the first step of every release that sets a maximum. */
  ghost predicate AlwaysOpensFirstStep(cs: seq<ClusterInfo>)
    requires Count(cs, true) > 0
  {
    forall inc: Inc, saved: seq<Status>, budget: uint32 ::
      Ramps(inc) && inc.status.currentPercent == 0 && inc.revision.value.target.scale.max > 0 ==>
        OpensAtMinimum(cs, inc, saved, budget)
  }

  /** That is so of no fleet that is given replicas at all: whatever its factors, a load
      large enough beside the maximum keeps a release at zero. */
  lemma FirstStepIsReachableIff(cs: seq<ClusterInfo>)
    requires Count(cs, true) > 0 && NonNegativeFactors(cs)
    ensures AlwaysOpensFirstStep(cs) <==> FactorSum(cs) == 0.0
  {
    if FactorSum(cs) == 0.0 {
      forall inc: Inc, saved: seq<Status>, budget: uint32
        | Ramps(inc) && inc.status.currentPercent == 0 && inc.revision.value.target.scale.max > 0
        ensures OpensAtMinimum(cs, inc, saved, budget)
      {
        NothingToReach(cs, UnraisedShare(cs, inc), Load(inc, saved), inc.revision.value.target.scale.max, Next(inc));
        UnraisedOpensExactlyWhen(cs, inc, saved);
      }
    } else {
      FactorSumIsNonNegative(cs);
      var max, pods := StarvedFirstStep(cs);
      assert !forall budget: uint32 :: OpensAtMinimum(cs, FirstStep(max), [AllElse(pods)], budget);
    }
  }

  lemma NothingToReach(cs: seq<ClusterInfo>, share: int, load: nat, max: nat, percent: nat)
    requires Count(cs, true) > 0 && NonNegativeFactors(cs) && FactorSum(cs) == 0.0 && share >= 0
    ensures ShareReaches(cs, share, load, max, percent)
  {
    var n := Count(cs, true);
    PerClusterOrder(Fraction(percent), load, load, n);
    ZeroFactors(cs, PerCluster(Fraction(percent), load, n));
    TotalIsNonNegative(cs, share);
  }

  lemma StarvedFirstStep(cs: seq<ClusterInfo>) returns (max: nat, pods: nat)
    requires Count(cs, true) > 0 && NonNegativeFactors(cs) && FactorSum(cs) > 0.0
    ensures max > 0 && pods > 0 && Ramps(FirstStep(max))
    ensures !forall budget: uint32 :: OpensAtMinimum(cs, FirstStep(max), [AllElse(pods)], budget)
  {
    var n := Count(cs, true);
    var j := LoadToReach(cs, n as real);
    max, pods := n * (100 * j), n * (1000 * j);
    PositiveProduct(n, 100 * j);
    PositiveProduct(n, 1000 * j);
    FirstStepLoad(max, pods);
    FirstStepShares(cs, j);
    TenfoldFallsShort(cs, j);
    UnraisedOpensExactlyWhen(cs, FirstStep(max), [AllElse(pods)]);
  }

  lemma PositiveProduct(a: int, b: int)
    requires a > 0 && b > 0
    ensures a * b > 0
  {
  }

  lemma WholeParts(fraction: real, count: nat, n: nat, part: nat)
    requires n > 0 && Wanted(fraction, count) == (n * part) as real
    ensures PerCluster(fraction, count, n) == part
  {
    CeilOfWhole(Wanted(fraction, count), n * part);
    MulDivInt(n, part);
  }

  lemma CeilOfWhole(x: real, k: int)
    requires x == k as real
    ensures Ceil(x) == k
  {
  }

  lemma FirstStepShares(cs: seq<ClusterInfo>, j: nat)
    requires Count(cs, true) > 0 && j > 0
    ensures var n := Count(cs, true);
            && DivideReplicas(cs, n * (100 * j), 10) == 10 * j
            && PerCluster(Fraction(10), n * (1000 * j), n) == 100 * j
            && PerCluster(Fraction(100), n * (100 * j), n) == 100 * j
  {
    var n := Count(cs, true);
    Tenths(n, j);
    WholeParts(Fraction(10), n * (100 * j), n, 10 * j);
    WholeParts(Fraction(10), n * (1000 * j), n, 100 * j);
    WholeParts(Fraction(100), n * (100 * j), n, 100 * j);
    DivisionIsPerCluster(cs, n * (100 * j), 10);
  }

  lemma Tenths(n: nat, j: nat)
    ensures Wanted(Fraction(10), n * (100 * j)) == (n * (10 * j)) as real
    ensures Wanted(Fraction(10), n * (1000 * j)) == (n * (100 * j)) as real
    ensures Wanted(Fraction(100), n * (100 * j)) == (n * (100 * j)) as real
  {
    var whole := n * j;
    assert n * (10 * j) == 10 * whole && n * (100 * j) == 100 * whole && n * (1000 * j) == 1000 * whole;
  }

  lemma TenfoldFallsShort(cs: seq<ClusterInfo>, j: nat)
    requires Count(cs, true) > 0 && UnroundedTotal(cs, j) >= Count(cs, true) as real
    ensures Total(cs, true, 10 * j) < Total(cs, true, 100 * j)
    ensures (Total(cs, true, 10 * j) as real) < Total(cs, true, 100 * j) as real * THRESHOLD
  {
    TotalIsAtMost(cs, 10, j);
    TotalIsAtLeast(cs, 100, j);
    var less, more, unit := Total(cs, true, 10 * j) as real, Total(cs, true, 100 * j) as real, UnroundedTotal(cs, j);
    assert less <= 11.0 * unit && more >= 100.0 * unit;
  }

  lemma TotalIsAtMost(cs: seq<ClusterInfo>, a: int, k: int)
    ensures Total(cs, true, a * k) as real <= a as real * UnroundedTotal(cs, k) + Count(cs, true) as real
  {
    RoundingIsBounded(cs, a * k);
    UnroundedTotalTimes(cs, a, k);
  }

  lemma TotalIsAtLeast(cs: seq<ClusterInfo>, a: int, k: int)
    ensures Total(cs, true, a * k) as real >= a as real * UnroundedTotal(cs, k)
  {
    RoundingIsBounded(cs, a * k);
    UnroundedTotalTimes(cs, a, k);
  }

  lemma {:induction false} UnroundedTotalTimes(cs: seq<ClusterInfo>, a: int, k: int)
    ensures UnroundedTotal(cs, a * k) == a as real * UnroundedTotal(cs, k)
  {
    if cs != [] {
      UnroundedTotalTimes(cs[1..], a, k);
      TimesFactor(a, k, cs[0].scalingFactor);
      Distribute(a as real, if cs[0].live then k as real * cs[0].scalingFactor else 0.0, UnroundedTotal(cs[1..], k));
    }
  }

  lemma TimesFactor(a: int, k: int, f: real)
    ensures (a * k) as real * f == a as real * (k as real * f)
  {
  }
}
