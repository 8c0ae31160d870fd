/** Dividing a replica count over the fleet's clusters:
    controllers/incarnation_controller.go. */
module Replicas {
  import opened Base
  import opened Types

  function Count(cs: seq<ClusterInfo>, liveness: bool): nat {
    if cs == [] then 0
    else (if cs[0].live == liveness then 1 else 0) + Count(cs[1..], liveness)
  }

  function Scaled(replicas: int, factor: real): int { Ceil(replicas as real * factor) }

  /** Replicas of `perCluster`, scaled by each matching cluster's factor. */
  function Total(cs: seq<ClusterInfo>, liveness: bool, perCluster: int): int {
    if cs == [] then 0
    else (if cs[0].live == liveness then Scaled(perCluster, cs[0].scalingFactor) else 0)
         + Total(cs[1..], liveness, perCluster)
  }

  lemma {:induction false} CountAppend(cs: seq<ClusterInfo>, c: ClusterInfo, liveness: bool)
    ensures Count(cs + [c], liveness) == Count(cs, liveness) + (if c.live == liveness then 1 else 0)
  {
    if cs != [] {
      assert (cs + [c])[1..] == cs[1..] + [c];
      CountAppend(cs[1..], c, liveness);
    }
  }

  lemma {:induction false} TotalAppend(cs: seq<ClusterInfo>, c: ClusterInfo, liveness: bool, k: int)
    ensures Total(cs + [c], liveness, k)
         == Total(cs, liveness, k) + (if c.live == liveness then Scaled(k, c.scalingFactor) else 0)
  {
    if cs != [] {
      assert (cs + [c])[1..] == cs[1..] + [c];
      TotalAppend(cs[1..], c, liveness, k);
    }
  }

  function Matching(cs: seq<ClusterInfo>, liveness: bool): set<int> {
    set i | 0 <= i < |cs| && cs[i].live == liveness
  }

  lemma MatchingAppend(cs: seq<ClusterInfo>, c: ClusterInfo, liveness: bool)
    ensures Matching(cs + [c], liveness) == Matching(cs, liveness) + (if c.live == liveness then {|cs|} else {})
    ensures |cs| !in Matching(cs, liveness)
  {
  }

  /** The count is the number of clusters of that liveness. */
  lemma {:induction false} CountIsOfMatching(cs: seq<ClusterInfo>, liveness: bool)
    ensures Count(cs, liveness) == |Matching(cs, liveness)|
  {
    if cs != [] {
      var front, last := cs[..|cs| - 1], cs[|cs| - 1];
      assert cs == front + [last];
      CountIsOfMatching(front, liveness);
      CountAppend(front, last, liveness);
      MatchingAppend(front, last, liveness);
    }
  }

  method ClusterCount(cs: seq<ClusterInfo>, liveness: bool) returns (cnt: nat)
    ensures cnt == Count(cs, liveness)
  {
    cnt := 0;
    for i := 0 to |cs|
      invariant cnt == Count(cs[..i], liveness)
    {
      assert cs[..i + 1] == cs[..i] + [cs[i]];
      CountAppend(cs[..i], cs[i], liveness);
      if cs[i].live == liveness {
        cnt := cnt + 1;
      }
    }
    assert cs[..|cs|] == cs;
  }

  lemma {:induction false} NothingWithoutClusters(cs: seq<ClusterInfo>, liveness: bool, k: int)
    requires Count(cs, liveness) == 0
    ensures Total(cs, liveness, k) == 0
  {
    if cs != [] {
      NothingWithoutClusters(cs[1..], liveness, k);
    }
  }

  /** A fleet without live clusters has no share to give: what is divided by their number is
      infinite, and is only ever asked of standby clusters. */
  method ExpectedReplicaCount(cs: seq<ClusterInfo>, liveness: bool, count: int) returns (total: int)
    requires Count(cs, true) > 0 || Count(cs, liveness) == 0
    ensures Count(cs, true) > 0 ==> total == Total(cs, liveness, Ceil(count as real / Count(cs, true) as real))
    ensures Count(cs, true) == 0 ==> total == 0
  {
    var live := ClusterCount(cs, true);
    var perCluster := if live == 0 then 0 else Ceil(count as real / live as real);
    total := 0;
    for i := 0 to |cs|
      invariant total == Total(cs[..i], liveness, perCluster)
    {
      assert cs[..i + 1] == cs[..i] + [cs[i]];
      TotalAppend(cs[..i], cs[i], liveness, perCluster);
      if cs[i].live == liveness {
        total := total + Scaled(perCluster, cs[i].scalingFactor);
      }
    }
    assert cs[..|cs|] == cs;
    if live == 0 {
      NothingWithoutClusters(cs, liveness, perCluster);
    }
  }

  function Fraction(percent: int): real { Min(100, percent) as real / 100.0 }

  function ClusterShare(fraction: real, count: real, clusters: real): int
    requires clusters > 0.0
  {
    Ceil(fraction * (count / clusters))
  }

  function DivideReplicas(cs: seq<ClusterInfo>, count: int, percent: int): int {
    var denominator := Max(Count(cs, true), 1);
    Max(ClusterShare(Fraction(percent), count as real, denominator as real), 1)
  }

  function Wanted(fraction: real, count: int): real { fraction * count as real }

  function DividedUp(count: int, clusters: nat): int
    requires clusters > 0
  {
    Ceil(count as real / clusters as real)
  }

  function PerCluster(fraction: real, count: int, clusters: nat): int
    requires clusters > 0
  {
    DividedUp(Ceil(Wanted(fraction, count)), clusters)
  }

  function ExpectedTotalReplicas(cs: seq<ClusterInfo>, count: int, percent: int): int
    requires Count(cs, true) > 0
  {
    Total(cs, true, PerCluster(Fraction(percent), count, Count(cs, true)))
  }

  // ---------------------------------------------------------------- properties

  predicate NonNegativeFactors(cs: seq<ClusterInfo>) {
    forall i :: 0 <= i < |cs| ==> cs[i].scalingFactor >= 0.0
  }

  /** Sum of the live clusters' scaling factors. */
  function FactorSum(cs: seq<ClusterInfo>): real {
    if cs == [] then 0.0
    else (if cs[0].live then cs[0].scalingFactor else 0.0) + FactorSum(cs[1..])
  }

  lemma ProductMonotone(x: real, y: real, f: real)
    requires x <= y && f >= 0.0
    ensures x * f <= y * f
  {
  }

  lemma ScaledMonotone(j: int, k: int, f: real)
    requires j <= k && f >= 0.0
    ensures Scaled(j, f) <= Scaled(k, f)
  {
    ProductMonotone(j as real, k as real, f);
    CeilMonotone(j as real * f, k as real * f);
  }

  lemma {:induction false} TotalMonotone(cs: seq<ClusterInfo>, j: int, k: int)
    requires NonNegativeFactors(cs) && j <= k
    ensures Total(cs, true, j) <= Total(cs, true, k)
  {
    if cs != [] {
      ScaledMonotone(j, k, cs[0].scalingFactor);
      TotalMonotone(cs[1..], j, k);
    }
  }

  /** The fleet's replicas before rounding. */
  function UnroundedTotal(cs: seq<ClusterInfo>, k: int): real {
    if cs == [] then 0.0
    else (if cs[0].live then k as real * cs[0].scalingFactor else 0.0) + UnroundedTotal(cs[1..], k)
  }

  lemma Distribute(k: real, f: real, s: real)
    ensures k * (f + s) == k * f + k * s
  {
  }

  lemma {:induction false} UnroundedTotalFollowsFactors(cs: seq<ClusterInfo>, k: int)
    ensures UnroundedTotal(cs, k) == k as real * FactorSum(cs)
  {
    if cs != [] {
      UnroundedTotalFollowsFactors(cs[1..], k);
      Distribute(k as real, if cs[0].live then cs[0].scalingFactor else 0.0, FactorSum(cs[1..]));
    }
  }

  lemma ScaledIsRoundedUp(k: int, f: real)
    ensures k as real * f <= Scaled(k, f) as real < k as real * f + 1.0
  {
  }

  lemma {:induction false} RoundingIsBounded(cs: seq<ClusterInfo>, k: int)
    ensures UnroundedTotal(cs, k) <= Total(cs, true, k) as real
    ensures Total(cs, true, k) as real <= UnroundedTotal(cs, k) + Count(cs, true) as real
    ensures Count(cs, true) > 0 ==> Total(cs, true, k) as real < UnroundedTotal(cs, k) + Count(cs, true) as real
  {
    if cs != [] {
      RoundingIsBounded(cs[1..], k);
      ScaledIsRoundedUp(k, cs[0].scalingFactor);
    }
  }

  /** The fleet total follows the factor sum, with less than one replica of
      rounding per live cluster. */
  lemma TotalBounds(cs: seq<ClusterInfo>, k: int)
    ensures k as real * FactorSum(cs) <= Total(cs, true, k) as real
    ensures Count(cs, true) > 0 ==> Total(cs, true, k) as real < k as real * FactorSum(cs) + Count(cs, true) as real
  {
    UnroundedTotalFollowsFactors(cs, k);
    RoundingIsBounded(cs, k);
  }

  lemma {:induction false} TotalIsNonNegative(cs: seq<ClusterInfo>, k: int)
    requires NonNegativeFactors(cs) && k >= 0
    ensures Total(cs, true, k) >= 0
  {
    if cs != [] {
      ScaledMonotone(0, k, cs[0].scalingFactor);
      TotalIsNonNegative(cs[1..], k);
    }
  }

  lemma MulDiv(x: real, n: real)
    requires n > 0.0
    ensures n * (x / n) == x
  {
  }

  lemma DividedBy(x: real, n: real, k: real)
    requires n > 0.0
    ensures x / n <= k <==> x <= k * n
  {
    var q := x / n;
    assert q * n == x;
    if q <= k {
      assert q * n <= k * n;
    } else {
      assert q * n > k * n;
    }
  }

  lemma ProductAsReal(a: int, b: int)
    ensures a as real * b as real == (a * b) as real
  {
  }

  lemma DivOrder(x: real, y: real, n: real)
    requires n > 0.0 && x <= y
    ensures x / n <= y / n
  {
    assert y / n - x / n == (y - x) / n;
  }

  /** Rounding twice, before and after dividing, rounds once. */
  lemma NestedCeiling(x: real, n: nat)
    requires n > 0
    ensures Ceil(Ceil(x) as real / n as real) == Ceil(x / n as real)
  {
    var outer := Ceil(x / n as real);
    DivOrder(x, Ceil(x) as real, n as real);
    CeilMonotone(x / n as real, Ceil(x) as real / n as real);
    FitsTheShares(x, n, outer);
    DivOrder(Ceil(x) as real, (n * outer) as real, n as real);
    WholeShares(n, outer);
    CeilIsLeast(Ceil(x) as real / n as real, outer);
  }

  lemma FitsTheShares(x: real, n: nat, outer: int)
    requires n > 0 && x / n as real <= outer as real
    ensures Ceil(x) <= n * outer
  {
    MulDiv(x, n as real);
    ProductMonotone(x / n as real, outer as real, n as real);
    CeilIsLeast(x, n * outer);
  }

  lemma WholeShares(n: nat, share: int)
    requires n > 0
    ensures (n * share) as real / n as real == share as real
  {
  }

  lemma ShareOfProduct(f: real, c: real, n: real)
    requires n > 0.0
    ensures f * (c / n) == (f * c) / n
  {
  }

  /** A share rounded up and handed out n times covers the whole, and overshoots by
      less than n. */
  lemma RoundedShare(wanted: real, n: nat, share: int)
    requires n > 0 && share == Ceil(wanted / n as real)
    ensures wanted <= (n * share) as real < wanted + n as real
  {
    var exact := wanted / n as real;
    MulDiv(wanted, n as real);
    ShareTimesCount(exact, n, share);
  }

  lemma ShareTimesCount(exact: real, n: nat, share: int)
    requires n > 0 && (share - 1) as real < exact <= share as real
    ensures n as real * exact <= (n * share) as real < n as real * exact + n as real
  {
    OneShareLess(share, n);
    ProductMonotone(exact, share as real, n as real);
    StrictProduct((share - 1) as real, exact, n as real);
    var product, whole := (n * share) as real, n as real * exact;
    assert exact * n as real == whole;
    assert product - n as real < whole;
  }

  lemma OneShareLess(share: int, n: int)
    ensures share as real * n as real == (n * share) as real
    ensures (share - 1) as real * n as real == (n * share) as real - n as real
  {
  }

  lemma CeilOfShare(f: real, c: real, n: real)
    requires n > 0.0
    ensures ClusterShare(f, c, n) == Ceil((f * c) / n)
  {
    ShareOfProduct(f, c, n);
  }

  lemma DivideReplicasOfShare(cs: seq<ClusterInfo>, count: int, percent: int)
    requires Count(cs, true) > 0
    ensures DivideReplicas(cs, count, percent)
         == Max(Ceil((Fraction(percent) * count as real) / Count(cs, true) as real), 1)
  {
    CeilOfShare(Fraction(percent), count as real, Count(cs, true) as real);
  }

  /** The per-cluster share, given to every live cluster, covers the wanted share of
      the count; as soon as something is wanted it overshoots by less than one
      replica per cluster. */
  lemma DivisionCovers(cs: seq<ClusterInfo>, count: nat, percent: nat)
    requires Count(cs, true) > 0
    ensures Fraction(percent) * count as real <= (Count(cs, true) * DivideReplicas(cs, count, percent)) as real
    ensures count * percent > 0 ==>
              (Count(cs, true) * DivideReplicas(cs, count, percent)) as real
              < Fraction(percent) * count as real + Count(cs, true) as real
  {
    var n := Count(cs, true);
    var wanted := Fraction(percent) * count as real;
    var share := Ceil(wanted / n as real);
    DivideReplicasOfShare(cs, count, percent);
    RoundedShare(wanted, n, share);
    if count * percent > 0 {
      WantsSomething(count, percent);
      PositiveShare(wanted, n);
    } else if share < 1 {
      assert n * share <= 0;
    }
  }

  lemma TotalAgrees(n: nat, share: int)
    requires n > 0
    ensures n * Max(share, 1) == n * share <==> share >= 1
  {
    if share < 1 {
      assert n * share < n * 1;
    }
  }

  lemma StrictProduct(x: real, y: real, f: real)
    requires x < y && f > 0.0
    ensures x * f < y * f
  {
  }

  lemma WantsSomething(count: nat, percent: nat)
    requires count * percent > 0
    ensures Fraction(percent) * count as real > 0.0
  {
    assert count > 0 && percent > 0;
    StrictProduct(0.0, Fraction(percent), count as real);
  }

  lemma WantsNothing(count: nat, percent: nat)
    requires count * percent == 0
    ensures Fraction(percent) * count as real == 0.0
  {
    if count != 0 {
      assert percent == 0;
    }
  }

  lemma PositiveShare(wanted: real, n: nat)
    requires wanted > 0.0 && n > 0
    ensures Ceil(wanted / n as real) >= 1
  {
    MulDiv(wanted, n as real);
  }

  predicate UnitFactors(cs: seq<ClusterInfo>) {
    forall i :: 0 <= i < |cs| && cs[i].live ==> cs[i].scalingFactor == 1.0
  }

  lemma {:induction false} TotalOfUnitFactors(cs: seq<ClusterInfo>, k: int)
    requires UnitFactors(cs)
    ensures Total(cs, true, k) == Count(cs, true) * k
  {
    if cs != [] {
      assert UnitFactors(cs[1..]) by {
        forall i | 0 <= i < |cs[1..]| && cs[1..][i].live ensures cs[1..][i].scalingFactor == 1.0 {
          assert cs[1..][i] == cs[i + 1];
        }
      }
      TotalOfUnitFactors(cs[1..], k);
      if cs[0].live {
        assert k as real * cs[0].scalingFactor == k as real;
        assert Ceil(k as real) == k;
        assert Total(cs, true, k) == k + Count(cs[1..], true) * k;
        assert (1 + Count(cs[1..], true)) * k == k + Count(cs[1..], true) * k;
      }
    }
  }

  /** With unit factors the two ways of sizing a revision agree exactly when some
      replica is wanted: division never gives less than one per cluster. */
  lemma DivisionAgreesWithExpectedTotal(cs: seq<ClusterInfo>, count: nat, percent: nat)
    requires Count(cs, true) > 0 && UnitFactors(cs)
    ensures Count(cs, true) * DivideReplicas(cs, count, percent) == ExpectedTotalReplicas(cs, count, percent)
       <==> count * percent > 0
  {
    var share := PerCluster(Fraction(percent), count, Count(cs, true));
    DivisionIsPerCluster(cs, count, percent);
    TotalOfUnitFactors(cs, share);
    SomethingPerCluster(count, percent, Count(cs, true));
    TotalAgrees(Count(cs, true), share);
  }

  lemma SomethingPerCluster(count: nat, percent: nat, n: nat)
    requires n > 0
    ensures PerCluster(Fraction(percent), count, n) >= 1 <==> count * percent > 0
  {
    if count * percent > 0 {
      WantsSomething(count, percent);
      DividedPositive(Ceil(Wanted(Fraction(percent), count)), n);
    } else {
      WantsNothing(count, percent);
      CeilIsLeast(Wanted(Fraction(percent), count), 0);
      DividedCeiling(Ceil(Wanted(Fraction(percent), count)), 0, n);
    }
  }

  lemma DividedPositive(k: int, n: nat)
    requires k >= 1 && n > 0
    ensures DividedUp(k, n) >= 1
  {
    PositiveShare(k as real, n);
  }

  /** Division gives each cluster its part of the wanted total, and never less than one. */
  lemma DivisionIsPerCluster(cs: seq<ClusterInfo>, count: int, percent: int)
    requires Count(cs, true) > 0
    ensures DivideReplicas(cs, count, percent) == Max(PerCluster(Fraction(percent), count, Count(cs, true)), 1)
  {
    DivideReplicasOfShare(cs, count, percent);
    NestedCeiling(Wanted(Fraction(percent), count), Count(cs, true));
  }

  lemma WantedOrder(fraction: real, load: nat, count: nat)
    requires fraction >= 0.0 && load <= count
    ensures 0.0 <= Wanted(fraction, load) <= Wanted(fraction, count)
  {
  }

  lemma PerClusterOrder(fraction: real, load: nat, count: nat, n: nat)
    requires fraction >= 0.0 && load <= count && n > 0
    ensures 0 <= PerCluster(fraction, load, n) <= PerCluster(fraction, count, n)
  {
    WantedOrder(fraction, load, count);
    CeilMonotone(Wanted(fraction, load), Wanted(fraction, count));
    DividedCeiling(0, Ceil(Wanted(fraction, load)), n);
    DividedCeiling(Ceil(Wanted(fraction, load)), Ceil(Wanted(fraction, count)), n);
  }

  lemma FractionMonotone(p: int, q: int)
    requires q <= p
    ensures Fraction(q) <= Fraction(p)
  {
  }

  lemma ExpectedTotalMonotone(cs: seq<ClusterInfo>, count: nat, p: int, q: int)
    requires Count(cs, true) > 0 && NonNegativeFactors(cs) && q <= p
    ensures ExpectedTotalReplicas(cs, count, q) <= ExpectedTotalReplicas(cs, count, p)
  {
    FractionMonotone(p, q);
    PerClusterMonotone(Fraction(q), Fraction(p), count, Count(cs, true));
    TotalMonotone(cs, PerCluster(Fraction(q), count, Count(cs, true)), PerCluster(Fraction(p), count, Count(cs, true)));
  }

  lemma PerClusterMonotone(f: real, g: real, count: nat, n: nat)
    requires f <= g && n > 0
    ensures PerCluster(f, count, n) <= PerCluster(g, count, n)
  {
    WantedMonotone(f, g, count);
    CeilMonotone(Wanted(f, count), Wanted(g, count));
    DividedCeiling(Ceil(Wanted(f, count)), Ceil(Wanted(g, count)), n);
  }

  lemma WantedMonotone(f: real, g: real, count: nat)
    requires f <= g
    ensures Wanted(f, count) <= Wanted(g, count)
  {
    ProductMonotone(f, g, count as real);
  }

  lemma DividedCeiling(j: int, k: int, n: nat)
    requires j <= k && n > 0
    ensures DividedUp(j, n) <= DividedUp(k, n)
  {
    DivOrder(j as real, k as real, n as real);
    CeilMonotone(j as real / n as real, k as real / n as real);
  }
}
