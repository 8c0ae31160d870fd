/** The replica arithmetic in whole numbers: what a share, a base capacity, a requirement and a
    scale plan are, without ceilings of quotients. */
module Sizing {
  import opened Base
  import opened Types
  import opened Scaling
  import opened Replicas
  import opened RampGate

  /** The least number that, taken `step` times, reaches the goal. */
  predicate LeastReaching(k: int, step: int, goal: int) { (k - 1) * step < goal <= k * step }

  lemma CeilingReaches(goal: int, step: int)
    requires step > 0
    ensures LeastReaching(Ceil(goal as real / step as real), step, goal)
  {
    var k := Ceil(goal as real / step as real);
    DividedBy(goal as real, step as real, k as real);
    DividedBy(goal as real, step as real, (k - 1) as real);
    ProductAsReal(k, step);
    ProductAsReal(k - 1, step);
  }

  // ---------------------------------------------------------------- shares

  /** A percent as it counts: never more than 100. */
  function Counted(percent: int): int { if percent > 100 then 100 else percent }

  lemma HundredthsOf(percent: int, count: int, n: nat)
    requires n > 0
    ensures Wanted(Fraction(percent), count) / n as real == (Counted(percent) * count) as real / (100 * n) as real
  {
    var p, c := Counted(percent), count;
    var goal, whole := (p * c) as real, Wanted(Fraction(percent), count);
    ProductAsReal(p, c);
    assert whole * 100.0 == goal;
    SameQuotient(whole, n as real, goal);
  }

  lemma SameQuotient(whole: real, n: real, goal: real)
    requires n > 0.0 && goal == whole * 100.0
    ensures whole / n == goal / (100.0 * n)
  {
    var q := whole / n;
    assert q * n == whole;
    assert q * (100.0 * n) == goal;
  }

  /** Each cluster's part is the least that, from all of them, reaches the percent. */
  lemma PerClusterReaches(percent: int, count: int, n: nat)
    requires n > 0
    ensures LeastReaching(PerCluster(Fraction(percent), count, n), 100 * n, Counted(percent) * count)
  {
    NestedCeiling(Wanted(Fraction(percent), count), n);
    HundredthsOf(percent, count, n);
    CeilingReaches(Counted(percent) * count, 100 * n);
  }

  /** One cluster's share of a count: the least positive number that, from all live clusters,
      reaches the percent. */
  predicate IsShare(share: int, cs: seq<ClusterInfo>, count: int, percent: int) {
    && share >= 1
    && (LeastReaching(share, 100 * Count(cs, true), Counted(percent) * count)
        || (share == 1 && Counted(percent) * count <= 0))
  }

  lemma DivisionIsShare(cs: seq<ClusterInfo>, count: int, percent: int)
    requires Count(cs, true) > 0
    ensures IsShare(DivideReplicas(cs, count, percent), cs, count, percent)
  {
    var n, goal := Count(cs, true), Counted(percent) * count;
    var part := PerCluster(Fraction(percent), count, n);
    DivisionIsPerCluster(cs, count, percent);
    PerClusterReaches(percent, count, n);
    if part < 1 {
      NoPartOfNothing(part, 100 * n, goal);
    }
  }

  lemma NoPartOfNothing(part: int, step: int, goal: int)
    requires step > 0 && part < 1 && goal <= part * step
    ensures goal <= 0
  {
  }

  // ---------------------------------------------------------------- the load of the others

  predicate Serves(s: Status, tag: Tag) { s.tag != tag && s.currentPercent > 0 && s.scale.current > 0 }

  function PodsOfOthers(saved: seq<Status>, tag: Tag): nat {
    if saved == [] then 0 else (if Serves(saved[0], tag) then saved[0].scale.current else 0) + PodsOfOthers(saved[1..], tag)
  }

  function PercentsOfOthers(saved: seq<Status>, tag: Tag): nat {
    if saved == [] then 0 else (if Serves(saved[0], tag) then saved[0].currentPercent else 0) + PercentsOfOthers(saved[1..], tag)
  }

  /** One of the others has been at 100 percent and is not any more. */
  ghost predicate SomeUnscaled(saved: seq<Status>, tag: Tag) {
    exists s :: s in saved && Serves(s, tag) && s.peakPercent == 100 && s.currentPercent < 100
  }

  lemma {:induction false} OthersAppend(saved: seq<Status>, s: Status, tag: Tag)
    ensures PodsOfOthers(saved + [s], tag) == PodsOfOthers(saved, tag) + (if Serves(s, tag) then s.scale.current else 0)
    ensures PercentsOfOthers(saved + [s], tag)
         == PercentsOfOthers(saved, tag) + (if Serves(s, tag) then s.currentPercent else 0)
  {
    if saved != [] {
      assert (saved + [s])[1..] == saved[1..] + [s];
      OthersAppend(saved[1..], s, tag);
    }
  }

  lemma UnscaledAppend(saved: seq<Status>, s: Status, tag: Tag)
    ensures SomeUnscaled(saved + [s], tag)
       <==> SomeUnscaled(saved, tag) || (Serves(s, tag) && s.peakPercent == 100 && s.currentPercent < 100)
  {
    assert s in saved + [s];
  }

  lemma AddedModulo(a: nat, b: nat)
    ensures (a % TWO_TO_THE_32 + b) % TWO_TO_THE_32 == (a + b) % TWO_TO_THE_32
  {
  }

  lemma {:induction false} OthersAddUp(saved: seq<Status>, tag: Tag)
    ensures OtherRevisions(saved, tag)
         == Fleet(PodsOfOthers(saved, tag), PercentsOfOthers(saved, tag) % TWO_TO_THE_32, SomeUnscaled(saved, tag))
  {
    if saved != [] {
      var front, last := saved[..|saved| - 1], saved[|saved| - 1];
      assert saved == front + [last];
      OthersAddUp(front, tag);
      OthersAppend(front, last, tag);
      AddedModulo(PercentsOfOthers(front, tag), last.currentPercent);
      UnscaledAppend(front, last, tag);
    }
  }

  /** The base capacity: the configured minimum while nobody else serves; the others' pods, or
      the configured size without an autoscaler, while one of them is still at its old size;
      else the least that, at the others' percents, makes a hundred times their pods. */
  ghost predicate IsBase(base: int, saved: seq<Status>, tag: Tag, scale: ScaleInfo)
    requires scale.min.Some?
  {
    var pods, percents := PodsOfOthers(saved, tag), PercentsOfOthers(saved, tag) % TWO_TO_THE_32;
    if pods == 0 || percents == 0 then base == scale.min.value
    else if SomeUnscaled(saved, tag) then
      base == if scale.metricTarget || scale.worker || scale.kedaWorker then pods
              else if scale.min.value == 0 then scale.max
              else scale.min.value
    else LeastReaching(base, percents, 100 * pods)
  }

  lemma BaseIs(saved: seq<Status>, tag: Tag, scale: ScaleInfo)
    requires scale.min.Some?
    ensures IsBase(BaseCapacity(OtherRevisions(saved, tag), scale), saved, tag, scale)
  {
    OthersAddUp(saved, tag);
    var f := OtherRevisions(saved, tag);
    if f.pods > 0 && f.percent > 0 && !f.unscaled {
      HundredTimes(f.pods, f.percent);
      CeilingReaches(100 * f.pods, f.percent);
    }
  }

  lemma HundredTimes(pods: nat, percent: nat)
    requires percent > 0
    ensures pods as real / (percent as real / 100.0) == (100 * pods) as real / percent as real
  {
    var q := pods as real / (percent as real / 100.0);
    assert q * (percent as real / 100.0) == pods as real;
    assert q * percent as real == 100.0 * pods as real;
  }

  // ---------------------------------------------------------------- the requirement

  /** The fleet total for a count at a percent: every live cluster runs the least part that
      reaches it from all of them, scaled by its factor and rounded up. */
  ghost predicate IsFleetTotal(total: int, cs: seq<ClusterInfo>, count: int, percent: int) {
    exists part: int :: LeastReaching(part, 100 * Count(cs, true), Counted(percent) * count) && total == Total(cs, true, part)
  }

  lemma ExpectedIsFleetTotal(cs: seq<ClusterInfo>, count: int, percent: int)
    requires Count(cs, true) > 0
    ensures IsFleetTotal(ExpectedTotalReplicas(cs, count, percent), cs, count, percent)
  {
    PerClusterReaches(percent, count, Count(cs, true));
  }

  /** Nine tenths of the total for the base capacity, rounded up, and with a maximum no more
      than the total for it. */
  ghost predicate IsRequired(required: int, cs: seq<ClusterInfo>, base: int, max: nat, percent: int) {
    exists total: int, nine: int, most: int ::
      && IsFleetTotal(total, cs, base, percent) && LeastReaching(nine, 10, 9 * total)
      && IsFleetTotal(most, cs, max, 100)
      && required == if max > 0 && most < nine then most else nine
  }

  lemma NineTenthsUp(total: int)
    ensures LeastReaching(Ceil(total as real * THRESHOLD), 10, 9 * total)
  {
  }

  /** What the gate requires, from the saved statuses and the settings alone. */
  lemma RequirementMeans(inc: Inc, ctrl: Controller, percent: int)
    requires Count(ctrl.clusters, true) > 0
    ensures Requirement(inc, ctrl, percent).Some?
       <==> inc.revision.Some? && inc.revision.value.target.scale.min.Some?
    ensures Requirement(inc, ctrl, percent).Some? ==>
              var scale := inc.revision.value.target.scale;
              exists base: int :: IsBase(base, ctrl.saved, inc.tag, scale)
                && IsRequired(Requirement(inc, ctrl, percent).value, ctrl.clusters, base, scale.max, percent)
  {
    if Requirement(inc, ctrl, percent).Some? {
      var scale, cs := inc.revision.value.target.scale, ctrl.clusters;
      var base := BaseCapacity(OtherRevisions(ctrl.saved, inc.tag), scale);
      BaseIs(ctrl.saved, inc.tag, scale);
      RequiredIs(cs, base, scale.max, percent);
      assert IsBase(base, ctrl.saved, inc.tag, scale);
    }
  }

  lemma RequiredIs(cs: seq<ClusterInfo>, base: nat, max: nat, percent: int)
    requires Count(cs, true) > 0
    ensures IsRequired(CappedRequirement(cs, base, max, percent), cs, base, max, percent)
  {
    var total, most := ExpectedTotalReplicas(cs, base, percent), ExpectedTotalReplicas(cs, max, 100);
    var nine := Ceil(total as real * THRESHOLD);
    ExpectedIsFleetTotal(cs, base, percent);
    ExpectedIsFleetTotal(cs, max, 100);
    NineTenthsUp(total);
    assert IsFleetTotal(total, cs, base, percent) && LeastReaching(nine, 10, 9 * total) && IsFleetTotal(most, cs, max, 100);
  }

  /** The gate opens exactly when as many replicas run as are required. */
  lemma GateMeans(inc: Inc, ctrl: Controller, percent: int)
    requires Count(ctrl.clusters, true) > 0
    ensures CanRampTo(inc, ctrl, percent)
       <==> Requirement(inc, ctrl, percent).Some? && inc.status.scale.current >= Requirement(inc, ctrl, percent).value
  {
  }

  // ---------------------------------------------------------------- growth

  /** When the last change of percent is long enough ago. */
  predicate DelayOver(inc: Inc, now: Time)
    requires inc.revision.Some?
  {
    var release := inc.revision.value.target.release;
    var since := if inc.status.lastUpdated.Some? then inc.status.lastUpdated.value else ZERO_TIME;
    match release.strategy
    case Linear => since + release.linearDelay <= now
    case Geometric => since + release.geometricDelay <= now
    case Other => true
  }

  /** Traffic shrinks, or stays, at once; it grows to the next increment exactly when the delay
      is over and the gate opens for it, and else not at all. */
  lemma ScaleMeans(inc: Inc, gate: Gate, max: uint32, now: Time)
    requires inc.revision.Some?
    ensures var current, next := inc.status.currentPercent, NextIncrement(inc.status.currentPercent, inc.revision.value.target.release, max);
            Scale(inc, gate, max, now)
            == if next > current && !(DelayOver(inc, now) && gate(inc, next)) then current else next
  {
  }

  // ---------------------------------------------------------------- scale plans

  /** The percent a revision is sized for. */
  function SizedFor(inc: Inc): int
    requires inc.revision.Some?
  {
    var target := inc.revision.value.target;
    if inc.status.state == Canarying then target.canary.percent
    else if inc.isRamping then NextIncrement(inc.status.currentPercent, target.release, target.release.max)
    else inc.status.currentPercent
  }

  /** One replica per cluster before there is traffic to come; else the share of the count at
      the canary's percent, at the next increment of a flagged revision, or at the percent
      the revision has. */
  lemma InstanceMeans(inc: Inc, ctrl: Controller, count: int)
    requires inc.revision.Some? && Count(ctrl.clusters, true) > 0
    ensures inc.status.state in {Deploying, Deployed, PendingRelease} ==> InstanceReplicas(inc, ctrl, count) == 1
    ensures inc.status.state !in {Deploying, Deployed, PendingRelease} ==>
              IsShare(InstanceReplicas(inc, ctrl, count), ctrl.clusters, count, SizedFor(inc))
  {
    DivisionIsShare(ctrl.clusters, count, SizedFor(inc));
  }

  /** A revision without an autoscaler keeps the size for all of the traffic; nothing runs
      where nothing is routed. */
  lemma SyncMeans(inc: Inc, ctrl: Controller)
    requires inc.revision.Some? && Count(ctrl.clusters, true) > 0
    ensures var scale, r := inc.revision.value.target.scale, SyncReplicas(inc, ctrl);
            if inc.status.state == Canaried || inc.status.state == PendingRelease then r == 0
            else if !(scale.metricTarget || scale.worker || scale.kedaWorker) then
              IsShare(r, ctrl.clusters, scale.initial, 100)
            else if inc.status.state == Deploying || inc.status.state == Deployed then r == 1
            else IsShare(r, ctrl.clusters, scale.initial, SizedFor(inc))
  {
    DivisionIsShare(ctrl.clusters, inc.revision.value.target.scale.initial, 100);
    InstanceMeans(inc, ctrl, inc.revision.value.target.scale.initial);
  }

  /** A flagged release with traffic and an autoscaler, no worker, that has a next increment. */
  predicate IsRaised(inc: Inc)
    requires inc.revision.Some?
  {
    var scale := inc.revision.value.target.scale;
    && inc.isRamping && inc.status.state == Releasing && inc.status.currentPercent > 0
    && scale.metricTarget && !scale.worker && !scale.kedaWorker
    && SizedFor(inc) > inc.status.currentPercent
  }

  /** The raised minimum: the share of what is required for the next increment, or of the
      maximum if that is less. */
  ghost predicate IsRaise(raise: int, inc: Inc, ctrl: Controller)
    requires Count(ctrl.clusters, true) > 0 && inc.revision.Some? && inc.revision.value.target.scale.min.Some?
  {
    var scale := inc.revision.value.target.scale;
    exists a: int, b: int ::
      && IsShare(a, ctrl.clusters, Requirement(inc, ctrl, SizedFor(inc)).value, 100)
      && IsShare(b, ctrl.clusters, scale.max, 100)
      && raise == if a < b then a else b
  }

  lemma RaiseMeans(inc: Inc, ctrl: Controller)
    requires Count(ctrl.clusters, true) > 0 && inc.revision.Some? && inc.revision.value.target.scale.min.Some?
    ensures if IsRaised(inc) then IsRaise(ProactiveRampMinReplicas(inc, ctrl), inc, ctrl)
            else ProactiveRampMinReplicas(inc, ctrl) == 0
  {
    if IsRaised(inc) {
      DivisionIsShare(ctrl.clusters, Requirement(inc, ctrl, SizedFor(inc)).value, 100);
      DivisionIsShare(ctrl.clusters, inc.revision.value.target.scale.max, 100);
    }
  }

  /** The scale plan: none for a worker that is not routed to; pinned to the maximum before the
      first traffic; down to none for a worker whose minimum is zero; else from the share of
      the minimum, raised where it is, to the share of the maximum. */
  lemma ScalePlanMeans(inc: Inc, ctrl: Controller)
    requires Count(ctrl.clusters, true) > 0 && inc.revision.Some? && inc.revision.value.target.scale.min.Some?
    ensures var scale, plan := inc.revision.value.target.scale, ScalePlan(inc, ctrl);
            var worker, low := scale.worker || scale.kedaWorker, InstanceReplicas(inc, ctrl, scale.min.value);
            if worker && (inc.status.state == Canaried || inc.status.state == PendingRelease) then plan == Bounds(0, 0)
            else
              && plan.max == InstanceReplicas(inc, ctrl, scale.max)
              && if inc.status.currentPercent == 0 then plan.min == plan.max
                 else if worker && scale.min.value == 0 then plan.min == 0
                 else if IsRaised(inc) then
                   exists raise: int :: IsRaise(raise, inc, ctrl) && plan.min == if raise > low then raise else low
                 else plan.min == low
  {
    RaiseMeans(inc, ctrl);
    var low := InstanceReplicas(inc, ctrl, inc.revision.value.target.scale.min.value);
    var raise := ProactiveRampMinReplicas(inc, ctrl);
    InstanceMeans(inc, ctrl, inc.revision.value.target.scale.min.value);
  }
}
