/** The gate that defers a traffic increase until enough replicas run, and the
    autoscaler bounds that are meant to get them running: controllers/scaling.go,
    the sizing functions of controllers/incarnation.go and the arithmetic of
    controllers/plan/scaleRevision.go. */
module RampGate {
  import opened Base
  import opened Types
  import opened Scaling
  import opened Replicas

  /** What the other revisions carry, as seen in the loaded statuses. Their percents are
      added up in uint32 arithmetic. */
  datatype Fleet = Fleet(pods: nat, percent: uint32, unscaled: bool)

  predicate CountsTowardFleet(s: Status, tag: Tag) {
    s.tag != tag && s.currentPercent > 0 && s.scale.current > 0
  }

  function OtherRevisions(saved: seq<Status>, tag: Tag): Fleet {
    if saved == [] then Fleet(0, 0, false)
    else
      var s := saved[|saved| - 1];
      var f := OtherRevisions(saved[..|saved| - 1], tag);
      if CountsTowardFleet(s, tag) then
        Fleet(f.pods + s.scale.current, (f.percent + s.currentPercent) % TWO_TO_THE_32,
              f.unscaled || (s.peakPercent == 100 && s.currentPercent < 100))
      else f
  }

  /** Capacity that would serve all traffic. */
  function BaseCapacity(f: Fleet, scale: ScaleInfo): (base: nat)
    requires scale.min.Some?
  {
    if f.pods == 0 || f.percent == 0 then scale.min.value
    else if f.unscaled then
      if !scale.HasAutoscaler() then
        if scale.min.value == 0 then scale.max else scale.min.value
      else f.pods
    else
      Ceil(f.pods as real / (f.percent as real / 100.0))
  }

  const THRESHOLD: real := 0.9

  function CappedRequirement(cs: seq<ClusterInfo>, base: nat, max: nat, percent: int): int
    requires Count(cs, true) > 0
  {
    var expected := Ceil(ExpectedTotalReplicas(cs, base, percent) as real * THRESHOLD);
    if max > 0 then Min(expected, ExpectedTotalReplicas(cs, max, 100)) else expected
  }

  /** Replicas the fleet must run before traffic may reach `percent`; none when the
      revision is gone or sets no minimum. */
  function Requirement(inc: Inc, ctrl: Controller, percent: int): Option<int>
    requires Count(ctrl.clusters, true) > 0
  {
    if inc.revision.None? || inc.revision.value.target.scale.min.None? then None
    else
      var scale := inc.revision.value.target.scale;
      var base := BaseCapacity(OtherRevisions(ctrl.saved, inc.tag), scale);
      Some(CappedRequirement(ctrl.clusters, base, scale.max, percent))
  }

  method ComputeFleetReplicasRequiredForRamp(inc: Inc, ctrl: Controller, desiredPercent: uint32)
    returns (expected: Option<int>)
    requires Count(ctrl.clusters, true) > 0
    ensures expected == Requirement(inc, ctrl, desiredPercent)
  {
    if inc.revision.None? || inc.revision.value.target.scale.min.None? {
      return None;
    }
    var scale := inc.revision.value.target.scale;
    var totalPods: nat, totalTrafficPercent: uint32, hasUnscaledRevision := 0, 0, false;
    for i := 0 to |ctrl.saved|
      invariant Fleet(totalPods, totalTrafficPercent, hasUnscaledRevision) == OtherRevisions(ctrl.saved[..i], inc.tag)
    {
      assert ctrl.saved[..i + 1][..i] == ctrl.saved[..i];
      var rev := ctrl.saved[i];
      if rev.tag != inc.tag {
        if rev.currentPercent > 0 && rev.scale.current > 0 {
          totalPods := totalPods + rev.scale.current;
          totalTrafficPercent := (totalTrafficPercent + rev.currentPercent) % TWO_TO_THE_32;
          if rev.peakPercent == 100 && rev.currentPercent < 100 {
            hasUnscaledRevision := true;
          }
        }
      }
    }
    assert ctrl.saved[..|ctrl.saved|] == ctrl.saved;
    var baseCapacity: nat;
    if totalPods == 0 || totalTrafficPercent == 0 {
      baseCapacity := scale.min.value;
    } else if hasUnscaledRevision {
      if !scale.HasAutoscaler() {
        baseCapacity := scale.min.value;
        if baseCapacity == 0 {
          baseCapacity := scale.max;
        }
      } else {
        baseCapacity := totalPods;
      }
    } else {
      baseCapacity := Ceil(totalPods as real / (totalTrafficPercent as real / 100.0));
    }
    var totalReplicas := ExpectedTotalReplicas(ctrl.clusters, baseCapacity, desiredPercent);
    var expectedReplicas := Ceil(totalReplicas as real * THRESHOLD);
    if scale.max > 0 {
      var maxFleet := ExpectedTotalReplicas(ctrl.clusters, scale.max, 100);
      if expectedReplicas > maxFleet {
        expectedReplicas := maxFleet;
      }
    }
    return Some(expectedReplicas);
  }

  predicate CanRampTo(inc: Inc, ctrl: Controller, desiredPercent: int)
    requires Count(ctrl.clusters, true) > 0
  {
    var c := Requirement(inc, ctrl, desiredPercent);
    c.Some? && inc.status.scale.current >= c.value
  }

  /** Decides whether a revision may take on a percent: the CanRampTo method of a
      scalable target. */
  type Gate = (Inc, uint32) -> bool

  function GateOf(ctrl: Controller): Gate {
    (inc: Inc, percent: uint32) => Count(ctrl.clusters, true) > 0 && CanRampTo(inc, ctrl, percent)
  }

  /** Traffic may grow only when the last change is old enough and the gate is open. */
  function Scale(inc: Inc, gate: Gate, max: uint32, t: Time): uint32
    requires inc.revision.Some?
  {
    var release := inc.revision.value.target.release;
    var current := inc.status.currentPercent;
    var desired := NextIncrement(current, release, max);
    if desired <= current then desired
    else if Waiting(inc, t) then current
    else if gate(inc, desired) then desired
    else current
  }

  predicate Waiting(inc: Inc, t: Time)
    requires inc.revision.Some?
  {
    var release := inc.revision.value.target.release;
    var since := if inc.status.lastUpdated.Some? then inc.status.lastUpdated.value else ZERO_TIME;
    since + (if release.strategy == Linear then release.linearDelay else release.geometricDelay) > t
  }

  // ---------------------------------------------------------------- autoscaler bounds

  /** Incarnation.divideReplicas: one cluster's share of `count` at the percent the
      revision is being sized for. */
  function InstanceReplicas(inc: Inc, ctrl: Controller, count: int): int
    requires inc.revision.Some?
  {
    var target := inc.revision.value.target;
    match inc.status.state
    case Deploying | Deployed | PendingRelease => 1
    case Canarying => DivideReplicas(ctrl.clusters, count, target.canary.percent)
    case _ =>
      DivideReplicas(ctrl.clusters, count,
                     if inc.isRamping then NextIncrement(inc.status.currentPercent, target.release, target.release.max)
                     else inc.status.currentPercent)
  }

  function ProactiveRampMinReplicas(inc: Inc, ctrl: Controller): int
    requires Count(ctrl.clusters, true) > 0
  {
    if !inc.isRamping then 0
    else if inc.status.currentPercent == 0 then 0
    else if inc.status.state != Releasing then 0
    else if inc.revision.None? || inc.revision.value.target.scale.min.None? then 0
    else
      var target := inc.revision.value.target;
      if target.scale.worker || target.scale.kedaWorker then 0
      else if !target.scale.HasAutoscaler() then 0
      else
        var next := NextIncrement(inc.status.currentPercent, target.release, target.release.max);
        if next <= inc.status.currentPercent then 0
        else
          var c := Requirement(inc, ctrl, next);
          Min(DivideReplicas(ctrl.clusters, c.value, 100), DivideReplicas(ctrl.clusters, target.scale.max, 100))
  }

  datatype Bounds = Bounds(min: int, max: int)

  /** genScalePlan. A revision without a minimum would dereference a nil pointer. */
  function ScalePlan(inc: Inc, ctrl: Controller): Bounds
    requires Count(ctrl.clusters, true) > 0
    requires inc.revision.Some? && inc.revision.value.target.scale.min.Some?
  {
    var scale := inc.revision.value.target.scale;
    var worker := scale.worker || scale.kedaWorker;
    var min := Max(InstanceReplicas(inc, ctrl, scale.min.value), ProactiveRampMinReplicas(inc, ctrl));
    var max := InstanceReplicas(inc, ctrl, scale.max);
    if worker && !inc.IsRoutable() then Bounds(0, 0)
    else if inc.status.currentPercent == 0 then Bounds(max, max)
    else if worker && scale.min.value == 0 then Bounds(0, max)
    else Bounds(min, max)
  }

  /** Incarnation.sync's replica count for the ReplicaSet it creates. */
  function SyncReplicas(inc: Inc, ctrl: Controller): int
    requires inc.revision.Some?
  {
    var scale := inc.revision.value.target.scale;
    if !inc.IsRoutable() then 0
    else if scale.HasAutoscaler() then InstanceReplicas(inc, ctrl, scale.initial)
    else DivideReplicas(ctrl.clusters, scale.initial, 100)
  }

  /** Replicas are taken away exactly from revisions that no traffic is routed to. */
  lemma SyncedWithoutReplicasWhen(inc: Inc, ctrl: Controller)
    requires inc.revision.Some?
    ensures SyncReplicas(inc, ctrl) == 0 <==> !inc.IsRoutable()
    ensures SyncReplicas(inc, ctrl) >= 0
  {
  }

  /** The bounds ScaleRevision.Apply gives one cluster's autoscaler. A cluster without
      a readable factor is an error; an event driven worker is scaled to zero where
      event driven scaling is disabled. */
  method ApplyBounds(plan: Bounds, factor: Option<real>, eventDrivenDisabled: bool, worker: bool)
    returns (r: Option<Bounds>)
    ensures r.None? <==> factor.None?
    ensures factor.Some? && !(eventDrivenDisabled && worker) ==>
              r.value.min == Scaled(plan.min, factor.value)
              && r.value.max == Scaled(Max(plan.min, plan.max), factor.value)
    ensures factor.Some? && eventDrivenDisabled && worker ==> r.value == Bounds(0, 0)
    ensures factor.Some? && factor.value >= 0.0 ==> r.value.min <= r.value.max
  {
    var max := plan.max;
    if plan.min > max {
      max := plan.min;
    }
    var scalingFactor := factor;
    if scalingFactor.None? {
      return None;
    }
    if eventDrivenDisabled {
      if worker {
        scalingFactor := Some(0.0);
      }
    }
    if scalingFactor.value >= 0.0 {
      ScaledMonotone(plan.min, max, scalingFactor.value);
    }
    return Some(Bounds(Scaled(plan.min, scalingFactor.value), Scaled(max, scalingFactor.value)));
  }

  /** What the live clusters run when each sits exactly at its scaled minimum. */
  function FleetAtMinimum(inc: Inc, ctrl: Controller): int
    requires Count(ctrl.clusters, true) > 0
    requires inc.revision.Some? && inc.revision.value.target.scale.min.Some?
  {
    Total(ctrl.clusters, true, ScalePlan(inc, ctrl).min)
  }

  // ---------------------------------------------------------------- the requirement

  lemma RequirementMonotone(inc: Inc, ctrl: Controller, p: int, q: int)
    requires Count(ctrl.clusters, true) > 0 && NonNegativeFactors(ctrl.clusters)
    requires Requirement(inc, ctrl, p).Some? && q <= p
    ensures Requirement(inc, ctrl, q).Some?
    ensures Requirement(inc, ctrl, q).value <= Requirement(inc, ctrl, p).value
  {
    var scale := inc.revision.value.target.scale;
    var base := BaseCapacity(OtherRevisions(ctrl.saved, inc.tag), scale);
    ExpectedTotalMonotone(ctrl.clusters, base, p, q);
    var tq, tp := ExpectedTotalReplicas(ctrl.clusters, base, q), ExpectedTotalReplicas(ctrl.clusters, base, p);
    ProductMonotone(tq as real, tp as real, THRESHOLD);
    CeilMonotone(tq as real * THRESHOLD, tp as real * THRESHOLD);
  }

  /** A gate that opens for a percent is open for every smaller one. */
  lemma CanRampToIsDownwardClosed(inc: Inc, ctrl: Controller, p: int, q: int)
    requires Count(ctrl.clusters, true) > 0 && NonNegativeFactors(ctrl.clusters)
    requires CanRampTo(inc, ctrl, p) && q <= p
    ensures CanRampTo(inc, ctrl, q)
  {
    RequirementMonotone(inc, ctrl, p, q);
  }
}
