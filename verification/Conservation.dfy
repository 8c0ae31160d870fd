/** Traffic is conserved: the weights handed to the routers and the percents kept on the
    statuses are the same, and add up to exactly 100, in whatever order equally old
    revisions were listed. */
module Conservation {
  import opened Base
  import opened Types
  import opened RampGate
  import opened Collections
  import opened Allocator
  import opened Preparation

  ghost function WeightSum(m: Weights): int {
    if m == map[] then 0
    else
      var t :| t in m;
      m[t] + WeightSum(m - {t})
  }

  /** The sum does not depend on the order in which the map is taken apart. */
  lemma {:induction false} WeightSumWithout(m: Weights, t: Tag)
    requires t in m
    ensures WeightSum(m) == m[t] + WeightSum(m - {t})
    decreases |m|
  {
    var u :| u in m && WeightSum(m) == m[u] + WeightSum(m - {u});
    if u != t {
      WeightSumWithout(m - {u}, t);
      WeightSumWithout(m - {t}, u);
      assert m - {u} - {t} == m - {t} - {u};
    }
  }

  function OrderSum(m: Weights, order: seq<Tag>): int
    requires forall t :: t in order ==> t in m
  {
    if order == [] then 0 else m[order[|order| - 1]] + OrderSum(m, order[..|order| - 1])
  }

  lemma {:induction false} ZeroWeights(m: Weights)
    requires forall t :: t in m ==> m[t] == 0
    ensures WeightSum(m) == 0
    decreases |m|
  {
    if m != map[] {
      var t :| t in m;
      WeightSumWithout(m, t);
      ZeroWeights(m - {t});
    }
  }

  /** A map sums up to the entries of any listing that leaves out only zeros. */
  lemma {:induction false} SumInOrder(m: Weights, order: seq<Tag>)
    requires Distinct(order) && forall t :: t in order ==> t in m
    requires forall t :: t in m && t !in order ==> m[t] == 0
    ensures WeightSum(m) == OrderSum(m, order)
    decreases |order|
  {
    if order == [] {
      ZeroWeights(m);
    } else {
      var front, last := order[..|order| - 1], order[|order| - 1];
      assert order == front + [last];
      assert forall t :: t in front ==> t != last by {
        forall i | 0 <= i < |front| ensures front[i] != last {
          assert front[i] == order[i];
        }
      }
      WeightSumWithout(m, last);
      SumInOrder(m - {last}, front);
      SameSum(m - {last}, m, front);
    }
  }

  lemma {:induction false} SameSum(m: Weights, n: Weights, order: seq<Tag>)
    requires forall t :: t in order ==> t in m && t in n && m[t] == n[t]
    ensures OrderSum(m, order) == OrderSum(n, order)
  {
    if order != [] {
      SameSum(m, n, order[..|order| - 1]);
    }
  }

  /** The percents the statuses carry. */
  function Percents(v: Views): Weights { map t | t in v :: v[t].status.currentPercent }

  /** `m` gives the listed revisions these percents. */
  ghost predicate Gives(m: Weights, percents: seq<uint32>, order: seq<Tag>) {
    && |percents| == |order|
    && forall i :: 0 <= i < |order| ==> order[i] in m && m[order[i]] == percents[i]
  }

  lemma {:induction false} SumOfListed(m: Weights, percents: seq<uint32>, order: seq<Tag>, n: nat)
    requires Gives(m, percents, order) && n <= |order|
    ensures forall t :: t in order[..n] ==> t in m
    ensures OrderSum(m, order[..n]) == SumTo(percents, n)
  {
    if n > 0 {
      SumOfListed(m, percents, order, n - 1);
      assert order[..n][..n - 1] == order[..n - 1];
      assert order[..n] == order[..n - 1] + [order[n - 1]];
    }
  }

  lemma ListedSum(m: Weights, v: seq<Inc>, order: seq<Tag>, gate: Gate, now: Time)
    requires Distinct(order) && Gives(m, FinalPercents(v, gate, now), order)
    requires forall t :: t in m && t !in order ==> m[t] == 0
    requires v != [] && !Trips(v, gate, now)
    ensures WeightSum(m) == 100
  {
    SumOfListed(m, FinalPercents(v, gate, now), order, |v|);
    assert order[..|v|] == order;
    SumInOrder(m, order);
    AllTrafficIsAllocated(v, gate, now);
  }

  /** Weights and percents agree everywhere, and only what is releasable carries anything. */
  ghost predicate WeightsMatch(after: Views, weights: Weights, order: seq<Tag>) {
    && (forall t :: t in weights ==> t in after && weights[t] == after[t].status.currentPercent)
    && (forall t :: t in after && t !in order ==> after[t].status.currentPercent == 0)
    && (forall t :: t in order ==> t in weights)
  }

  lemma AllocatedAt(v: Views, order: seq<Tag>, i: nat, gate: Gate, now: Time)
    requires Distinct(order) && (forall t :: t in order ==> t in v) && i < |order|
    ensures Allocated(v, order, gate, now)[order[i]] == Final(InOrder(v, order), i, gate, now)
    ensures RouteWeights(v, order, gate, now)[order[i]] == FinalPercent(InOrder(v, order), i, gate, now)
  {
    IndexOfDistinct(order, i);
  }

  lemma WeightsAreThePercents(v: Views, order: seq<Tag>, gate: Gate, now: Time)
    requires Distinct(order) && forall t :: t in order ==> t in v
    ensures WeightsMatch(Allocated(v, order, gate, now), RouteWeights(v, order, gate, now), order)
  {
  }

  lemma BothGiveFinal(v: Views, order: seq<Tag>, gate: Gate, now: Time)
    requires Distinct(order) && forall t :: t in order ==> t in v
    ensures Gives(RouteWeights(v, order, gate, now), FinalPercents(InOrder(v, order), gate, now), order)
    ensures Gives(Percents(Allocated(v, order, gate, now)), FinalPercents(InOrder(v, order), gate, now), order)
  {
    forall i | 0 <= i < |order|
      ensures Allocated(v, order, gate, now)[order[i]] == Final(InOrder(v, order), i, gate, now)
      ensures RouteWeights(v, order, gate, now)[order[i]] == FinalPercent(InOrder(v, order), i, gate, now)
    {
      AllocatedAt(v, order, i, gate, now);
    }
  }

  /** Whatever the allocation returns: weights equal percents, all of them zero where
      nothing is releasable, and summing up to exactly 100 where something is. */
  lemma TrafficIsConserved(before: Views, after: Views, weights: Weights, order: seq<Tag>, gate: Gate, now: Time)
    requires Prepared(before, after, Some(weights), order, gate, now)
    ensures WeightsMatch(after, weights, order)
    ensures WeightSum(weights) == WeightSum(Percents(after)) == if order == [] then 0 else 100
  {
    WeightsAreThePercents(before, order, gate, now);
    if order == [] {
      ZeroWeights(weights);
      ZeroWeights(Percents(after));
    } else {
      BothGiveFinal(before, order, gate, now);
      ListedSum(weights, InOrder(before, order), order, gate, now);
      ListedSum(Percents(after), InOrder(before, order), order, gate, now);
    }
  }

  /** Listed revisions with strategies that scale and percents below 2^31 never make the
      allocation panic, even where their increments wrap around. */
  lemma AllocationSucceeds(before: Views, after: Views, weights: Option<Weights>, order: seq<Tag>, gate: Gate, now: Time)
    requires Prepared(before, after, weights, order, gate, now)
    requires forall t :: t in order && t in before ==> Scales(before[t]) && FitsInt32(before[t])
    ensures weights.Some?
  {
    OrderlyNeverTrips(InOrder(before, order), gate, now);
  }

  /** A strategy that does not scale can bring the allocation down. */
  lemma UnknownStrategyCanPanic(a: Inc, b: Inc, gate: Gate, now: Time)
    requires a.revision.Some? && a.revision.value.target.release.strategy == Other && a.status.currentPercent == 60
    requires b.revision.Some? && b.revision.value.target.release.strategy == Other && b.status.currentPercent == 60
    ensures Trips([a, b], gate, now)
  {
    var v := [a, b];
    TripsExactlyWhen(v, 0, gate, now);
    TripsExactlyWhen(v, 1, gate, now);
    assert Budget(v, 0, gate, now) == 100;
    assert TripsAt(v, 1, gate, now);
  }

  // ---------------------------------------------------------------- everything else

  /** The tag is listed after one that is flagged. */
  ghost predicate ListedAfterFlagged(v: Views, order: seq<Tag>, t: Tag)
    requires forall u :: u in order ==> u in v
  {
    exists i, j :: 0 <= i < j < |order| && v[order[i]].isRamping && order[j] == t
  }

  lemma ListedAfter(v: Views, order: seq<Tag>, t: Tag)
    requires Distinct(order) && (forall u :: u in order ==> u in v) && t in order
    ensures AfterPivot(InOrder(v, order), IndexOf(order, t)) <==> ListedAfterFlagged(v, order, t)
  {
    var i, x := IndexOf(order, t), InOrder(v, order);
    if AfterPivot(x, i) {
      var k :| 0 <= k < i && x[k].isRamping;
      assert v[order[k]].isRamping && order[i] == t;
    }
    if ListedAfterFlagged(v, order, t) {
      var k, j :| 0 <= k < j < |order| && v[order[k]].isRamping && order[j] == t;
      assert j == i && x[k].isRamping;
    }
  }

  /** What an allocation that does not panic does to each member: listed or not, it keeps
      everything but its percent, that percent's time and peak, and, where it is left with
      nothing after the flagged revision, its eligibility. */
  lemma AllocationTouchesLittle(v: Views, order: seq<Tag>, t: Tag, gate: Gate, now: Time)
    requires ReleasableOrder(v, order) && !Trips(InOrder(v, order), gate, now) && t in v
    ensures GivenTo(v[t], Allocated(v, order, gate, now)[t], ListedAfterFlagged(v, order, t), now)
  {
    if t in order {
      FinalIsGiven(InOrder(v, order), IndexOf(order, t), gate, now);
      ListedAfter(v, order, t);
    }
  }

  /** The routes are those of the listed revisions and of the rest of what is deployed. */
  lemma RoutesAre(v: Views, order: seq<Tag>, t: Tag, gate: Gate, now: Time)
    requires forall u :: u in order ==> u in v
    ensures t in RouteWeights(v, order, gate, now)
       <==> t in order || (t in v && v[t].status.state in {Deployed, PendingTest, Testing, Tested, PendingRelease,
                                                           Releasing, Released, Canarying, Canaried})
  {
  }

  // ---------------------------------------------------------------- stability

  lemma {:induction false} SumAlongListing(v: Views, order: seq<Tag>, n: nat)
    requires n <= |order| && forall t :: t in order ==> t in v
    ensures forall t :: t in order[..n] ==> t in Percents(v)
    ensures OrderSum(Percents(v), order[..n]) == SumOfCurrent(InOrder(v, order), 0, n)
  {
    if n > 0 {
      SumAlongListing(v, order, n - 1);
      assert order[..n][..n - 1] == order[..n - 1];
      assert order[..n] == order[..n - 1] + [order[n - 1]];
    }
  }

  /** Everything is handed out, only to revisions that may keep it and may not grow. */
  ghost predicate Settled(v: Views, gate: Gate, now: Time) {
    && WeightSum(Percents(v)) == 100
    && forall t :: t in v ==> if IsReleasable(v[t]) then AtRest(v[t], gate, now) else v[t].status.currentPercent == 0
  }

  lemma SettledListing(v: Views, order: seq<Tag>, gate: Gate, now: Time)
    requires Settled(v, gate, now) && ReleasableOrder(v, order)
    ensures SumOfCurrent(InOrder(v, order), 0, |order|) == 100
    ensures forall i :: 0 <= i < |order| ==> AtRest(InOrder(v, order)[i], gate, now)
  {
    SumInOrder(Percents(v), order);
    SumAlongListing(v, order, |order|);
    assert order[..|order|] == order;
    forall i | 0 <= i < |order| ensures AtRest(v[order[i]], gate, now) {
      assert order[i] in order;
    }
  }

  /** An allocation of a settled collection changes no percent, and not the time of any
      percent's last change. */
  lemma SettledStaysPut(v: Views, order: seq<Tag>, t: Tag, gate: Gate, now: Time)
    requires Settled(v, gate, now) && ReleasableOrder(v, order) && t in v
    ensures var w := Allocated(v, order, gate, now);
            && w[t].status.currentPercent == v[t].status.currentPercent
            && w[t].status.lastUpdated == v[t].status.lastUpdated
  {
    if t in order {
      SettledListing(v, order, gate, now);
      NothingMovesAtRest(InOrder(v, order), IndexOf(order, t), gate, now);
    }
  }
}
