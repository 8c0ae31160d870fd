/** Dividing 100 percent of the traffic: prepareRevisions in controllers/syncer.go, on
    a listing of the releasable revisions. Revisions are served newest first; the first
    one flagged as ramping is the pivot, and those after it can only lose. */
module Allocator {
  import opened Base
  import opened Types
  import opened Scaling
  import opened Replicas
  import opened RampGate
  import opened Incarnations

  /** Incarnation.currentPercentTarget */
  function CurrentPercentTarget(inc: Inc, gate: Gate, max: uint32, now: Time): uint32 {
    if inc.revision.None? then 0
    else
      var cap := inc.revision.value.target.canary.percent;
      Scale(inc, gate, if inc.status.state == Canarying && max > cap then cap else max, now)
  }

  /** The room a revision is offered. After the pivot the comparison is made on int32. */
  function Room(inc: Inc, afterPivot: bool, budget: uint32): uint32 {
    if afterPivot then AsUint32(Min(AsInt32(inc.status.currentPercent), AsInt32(budget))) else budget
  }

  function Ask(inc: Inc, afterPivot: bool, budget: uint32, gate: Gate, now: Time): uint32 {
    CurrentPercentTarget(inc, gate, Room(inc, afterPivot, budget), now)
  }

  predicate AfterPivot(v: seq<Inc>, i: nat)
    requires i <= |v|
  {
    exists k :: 0 <= k < i && v[k].isRamping
  }

  /** What is left of the 100 percent when the turn comes to `i`. */
  function Budget(v: seq<Inc>, i: nat, gate: Gate, now: Time): (b: uint32)
    requires i <= |v|
    ensures b <= 100
  {
    if i == 0 then 100
    else
      var b := Budget(v, i - 1, gate, now);
      var share := Ask(v[i - 1], AfterPivot(v, i - 1), b, gate, now);
      if share <= b then b - share else 0
  }

  function Share(v: seq<Inc>, i: nat, gate: Gate, now: Time): uint32
    requires i < |v|
  {
    Ask(v[i], AfterPivot(v, i), Budget(v, i, gate, now), gate, now)
  }

  predicate TripsAt(v: seq<Inc>, i: nat, gate: Gate, now: Time)
    requires i < |v|
  {
    Share(v, i, gate, now) > Budget(v, i, gate, now)
  }

  /** The allocation panics: some revision asks for more than what is left. */
  predicate Trips(v: seq<Inc>, gate: Gate, now: Time) {
    exists i :: 0 <= i < |v| && TripsAt(v, i, gate, now)
  }

  function Pivot(v: seq<Inc>): (p: Option<nat>)
    ensures p.Some? ==> p.value < |v| && v[p.value].isRamping && !AfterPivot(v, p.value)
    ensures p.None? ==> !AfterPivot(v, |v|)
  {
    if v == [] then None
    else
      var front := v[..|v| - 1];
      var p := Pivot(front);
      assert forall k :: 0 <= k < |front| ==> front[k] == v[k];
      if p.Some? then p
      else if v[|v| - 1].isRamping then
        assert forall k :: 0 <= k < |v| - 1 ==> !front[k].isRamping;
        Some(|v| - 1)
      else
        assert forall k :: 0 <= k < |v| - 1 ==> !front[k].isRamping;
        None
  }

  /** One turn of the loop: the new percent, and retirement for a revision after the
      pivot that is left with nothing. */
  function Served(inc: Inc, share: uint32, afterPivot: bool, now: Time): Inc {
    var s := WithPercent(inc, share, now);
    if share <= 0 && afterPivot then s.(status := s.status.(releaseEligible := false)) else s
  }

  /** Whoever receives what nobody asked for: the pivot, else the first listed. */
  function Recipient(v: seq<Inc>): nat {
    var p := Pivot(v);
    if p.Some? then p.value else 0
  }

  function Leftover(v: seq<Inc>, gate: Gate, now: Time): uint32 { Budget(v, |v|, gate, now) }

  function Final(v: seq<Inc>, i: nat, gate: Gate, now: Time): Inc
    requires i < |v|
  {
    var s := Served(v[i], Share(v, i, gate, now), AfterPivot(v, i), now);
    var left := Leftover(v, gate, now);
    if left > 0 && i == Recipient(v) then
      WithPercent(s, (s.status.currentPercent + left) % TWO_TO_THE_32, now)
    else s
  }

  function FinalPercent(v: seq<Inc>, i: nat, gate: Gate, now: Time): uint32
    requires i < |v|
  {
    Final(v, i, gate, now).status.currentPercent
  }

  // ---------------------------------------------------------------- a single ask

  predicate Scales(inc: Inc) { inc.revision.Some? ==> inc.revision.value.target.release.strategy != Other }

  predicate FitsInt32(inc: Inc) { inc.status.currentPercent < TWO_TO_THE_31 }

  lemma RoomIsMin(inc: Inc, budget: uint32)
    requires FitsInt32(inc) && budget <= 100
    ensures Room(inc, true, budget) == Min(inc.status.currentPercent, budget)
  {
  }

  lemma ScaleFits(inc: Inc, gate: Gate, max: uint32, now: Time)
    requires inc.revision.Some? && inc.revision.value.target.release.strategy != Other
    ensures Scale(inc, gate, max, now) <= max
    ensures Scale(inc, gate, max, now) <= inc.revision.value.target.release.max
  {
    NextIncrementIsClamped(inc.status.currentPercent, inc.revision.value.target.release, max);
  }

  lemma AskFits(inc: Inc, afterPivot: bool, budget: uint32, gate: Gate, now: Time)
    requires Scales(inc) && FitsInt32(inc) && budget <= 100
    ensures Ask(inc, afterPivot, budget, gate, now) <= Room(inc, afterPivot, budget) <= budget
    ensures inc.revision.Some? && inc.status.state == Canarying ==>
              Ask(inc, afterPivot, budget, gate, now) <= inc.revision.value.target.canary.percent
  {
    RoomIsMin(inc, budget);
    if inc.revision.Some? {
      var max, cap := Room(inc, afterPivot, budget), inc.revision.value.target.canary.percent;
      ScaleFits(inc, gate, if inc.status.state == Canarying && max > cap then cap else max, now);
    }
  }

  /** The largest percent the revision's own settings allow. */
  function OwnCeiling(inc: Inc): uint32
    requires inc.revision.Some?
  {
    var target := inc.revision.value.target;
    if inc.status.state == Canarying then Min(target.canary.percent, target.release.max) else target.release.max
  }

  /** Exactly when the assertion fires at a turn: a strategy that does not scale holds
      on to more than what is left, or, after the pivot, a percent beyond int32 makes
      the comparison pick the wrong side. */
  lemma TripsExactlyWhen(v: seq<Inc>, i: nat, gate: Gate, now: Time)
    requires i < |v|
    ensures TripsAt(v, i, gate, now)
       <==> && v[i].revision.Some?
            && var release, budget, current := v[i].revision.value.target.release, Budget(v, i, gate, now),
                                               v[i].status.currentPercent;
               if release.strategy == Other then current > budget
               else
                 && AfterPivot(v, i)
                 && !FitsInt32(v[i])
                 && (if OwnCeiling(v[i]) < current then OwnCeiling(v[i]) else RawNext(current, release)) > budget
  {
    var budget := Budget(v, i, gate, now);
    if v[i].revision.Some? && v[i].revision.value.target.release.strategy != Other {
      if FitsInt32(v[i]) {
        AskFits(v[i], AfterPivot(v, i), budget, gate, now);
      } else if AfterPivot(v, i) {
        assert Room(v[i], true, budget) == v[i].status.currentPercent;
        var cap := v[i].revision.value.target.canary.percent;
        var max := if v[i].status.state == Canarying && v[i].status.currentPercent > cap then cap
                   else v[i].status.currentPercent;
        NextIncrementIsClamped(v[i].status.currentPercent, v[i].revision.value.target.release, max);
      } else {
        var cap := v[i].revision.value.target.canary.percent;
        ScaleFits(v[i], gate, if v[i].status.state == Canarying && budget > cap then cap else budget, now);
      }
    }
  }

  // ---------------------------------------------------------------- conservation

  predicate Orderly(v: seq<Inc>) { forall i :: 0 <= i < |v| ==> Scales(v[i]) && FitsInt32(v[i]) }

  lemma OrderlyNeverTrips(v: seq<Inc>, gate: Gate, now: Time)
    requires Orderly(v)
    ensures !Trips(v, gate, now)
  {
    forall i | 0 <= i < |v| ensures !TripsAt(v, i, gate, now) {
      AskFits(v[i], AfterPivot(v, i), Budget(v, i, gate, now), gate, now);
    }
  }

  lemma {:induction false} BudgetShrinks(v: seq<Inc>, i: nat, j: nat, gate: Gate, now: Time)
    requires i <= j <= |v|
    ensures Budget(v, j, gate, now) <= Budget(v, i, gate, now)
    decreases j
  {
    if i < j {
      BudgetShrinks(v, i, j - 1, gate, now);
    }
  }

  lemma ShareLeavesBudget(v: seq<Inc>, i: nat, gate: Gate, now: Time)
    requires i < |v| && !Trips(v, gate, now)
    ensures Share(v, i, gate, now) + Budget(v, i + 1, gate, now) == Budget(v, i, gate, now)
  {
    assert !TripsAt(v, i, gate, now);
  }

  lemma FinalPercentIs(v: seq<Inc>, i: nat, gate: Gate, now: Time)
    requires i < |v| && !Trips(v, gate, now)
    ensures FinalPercent(v, i, gate, now)
         == Share(v, i, gate, now) + (if i == Recipient(v) then Leftover(v, gate, now) else 0)
    ensures FinalPercent(v, i, gate, now) <= 100
  {
    FinalPercentUnreduced(v, i, gate, now);
    ShareAndLeftoverFit(v, i, gate, now);
  }

  lemma FinalPercentUnreduced(v: seq<Inc>, i: nat, gate: Gate, now: Time)
    requires i < |v|
    ensures FinalPercent(v, i, gate, now)
         == if i == Recipient(v) then (Share(v, i, gate, now) + Leftover(v, gate, now)) % TWO_TO_THE_32
            else Share(v, i, gate, now)
  {
    ServedPercent(v[i], Share(v, i, gate, now), AfterPivot(v, i), now);
  }

  lemma ServedPercent(inc: Inc, share: uint32, afterPivot: bool, now: Time)
    ensures Served(inc, share, afterPivot, now).status.currentPercent == share
  {
  }

  lemma ShareAndLeftoverFit(v: seq<Inc>, i: nat, gate: Gate, now: Time)
    requires i < |v| && !Trips(v, gate, now)
    ensures Share(v, i, gate, now) + Leftover(v, gate, now) <= 100
  {
    ShareLeavesBudget(v, i, gate, now);
    BudgetShrinks(v, i + 1, |v|, gate, now);
  }

  function FinalPercents(v: seq<Inc>, gate: Gate, now: Time): (r: seq<uint32>)
    ensures |r| == |v|
  {
    seq(|v|, i requires 0 <= i < |v| => FinalPercent(v, i, gate, now))
  }

  function SumTo(percents: seq<uint32>, n: nat): int
    requires n <= |percents|
  {
    if n == 0 then 0 else SumTo(percents, n - 1) + percents[n - 1]
  }

  /** What is left of the 100 percent before each turn, and after the last. */
  function Budgets(v: seq<Inc>, gate: Gate, now: Time): (r: seq<int>)
    ensures |r| == |v| + 1
  {
    seq(|v| + 1, k requires 0 <= k <= |v| => Budget(v, k, gate, now))
  }

  lemma BudgetsAt(v: seq<Inc>, k: nat, gate: Gate, now: Time)
    requires k <= |v|
    ensures Budgets(v, gate, now)[k] == Budget(v, k, gate, now)
  {
  }

  /** What one turn takes from the budget is what it gives, the leftover aside. */
  predicate Balances(percents: seq<uint32>, budgets: seq<int>, i: nat, recipient: nat, left: int)
    requires i < |percents| < |budgets|
  {
    percents[i] == budgets[i] - budgets[i + 1] + (if i == recipient then left else 0)
  }

  lemma {:induction false} BalancedSum(percents: seq<uint32>, budgets: seq<int>, n: nat, recipient: nat, left: int)
    requires n <= |percents| < |budgets|
    requires forall i :: 0 <= i < n ==> Balances(percents, budgets, i, recipient, left)
    ensures SumTo(percents, n) == budgets[0] - budgets[n] + (if recipient < n then left else 0)
  {
    if n > 0 {
      BalancedSum(percents, budgets, n - 1, recipient, left);
      assert Balances(percents, budgets, n - 1, recipient, left);
    }
  }

  lemma FinalPercentBalances(v: seq<Inc>, i: nat, gate: Gate, now: Time)
    requires i < |v| && !Trips(v, gate, now)
    ensures Balances(FinalPercents(v, gate, now), Budgets(v, gate, now), i, Recipient(v), Leftover(v, gate, now))
  {
    FinalPercentIs(v, i, gate, now);
    ShareLeavesBudget(v, i, gate, now);
    BudgetsAt(v, i, gate, now);
    BudgetsAt(v, i + 1, gate, now);
  }

  /** All of the traffic is handed out, no more and no less. */
  lemma AllTrafficIsAllocated(v: seq<Inc>, gate: Gate, now: Time)
    requires v != [] && !Trips(v, gate, now)
    ensures SumTo(FinalPercents(v, gate, now), |v|) == 100
  {
    var percents, budgets := FinalPercents(v, gate, now), Budgets(v, gate, now);
    forall i | 0 <= i < |v| ensures Balances(percents, budgets, i, Recipient(v), Leftover(v, gate, now)) {
      FinalPercentBalances(v, i, gate, now);
    }
    BudgetsAt(v, 0, gate, now);
    BudgetsAt(v, |v|, gate, now);
    BalancedSum(percents, budgets, |v|, Recipient(v), Leftover(v, gate, now));
  }

  // ---------------------------------------------------------------- what else an allocation does

  /** What was given changes the percent, when it last changed and its peak; a revision loses
      its eligibility exactly when it stands after the pivot and is left with nothing. All
      else stays. */
  ghost predicate GivenTo(before: Inc, after: Inc, afterPivot: bool, now: Time) {
    var s, t := before.status, after.status;
    && after == before.(status := t)
    && t == s.(currentPercent := t.currentPercent, lastUpdated := t.lastUpdated,
               peakPercent := t.peakPercent, releaseEligible := t.releaseEligible)
    && t.peakPercent == (if t.currentPercent > s.peakPercent then t.currentPercent else s.peakPercent)
    && (t.releaseEligible <==> s.releaseEligible && !(afterPivot && t.currentPercent == 0))
    && (t.currentPercent != s.currentPercent ==> t.lastUpdated == Some(now))
    && (t.lastUpdated != s.lastUpdated ==> t.lastUpdated == Some(now))
  }

  lemma FinalIsGiven(v: seq<Inc>, i: nat, gate: Gate, now: Time)
    requires i < |v| && !Trips(v, gate, now)
    ensures GivenTo(v[i], Final(v, i, gate, now), AfterPivot(v, i), now)
  {
    ShareAndLeftoverFit(v, i, gate, now);
    if AfterPivot(v, i) {
      RecipientBefore(v, i);
    }
    GivenTwice(v[i], Share(v, i, gate, now), AfterPivot(v, i),
               if i == Recipient(v) then Leftover(v, gate, now) else 0, now);
  }

  lemma RecipientBefore(v: seq<Inc>, i: nat)
    requires i < |v| && AfterPivot(v, i)
    ensures Recipient(v) != i
  {
    assert AfterPivot(v, |v|);
  }

  /** A share and, to one that does not stand after the pivot, what is left over. */
  lemma GivenTwice(inc: Inc, share: uint32, afterPivot: bool, left: uint32, now: Time)
    requires share + left <= 100 && (left > 0 ==> !afterPivot)
    ensures var s := Served(inc, share, afterPivot, now);
            GivenTo(inc, if left > 0 then WithPercent(s, (s.status.currentPercent + left) % TWO_TO_THE_32, now) else s,
                    afterPivot, now)
  {
  }

  // ---------------------------------------------------------------- oldest drains first

  lemma RoomFits(inc: Inc, budget: uint32)
    requires budget <= 100
    ensures Room(inc, true, budget) <= inc.status.currentPercent
  {
  }

  lemma AskAfterPivotFits(inc: Inc, budget: uint32, gate: Gate, now: Time)
    requires budget <= 100
    ensures Ask(inc, true, budget, gate, now) <= inc.status.currentPercent
  {
    RoomFits(inc, budget);
    if inc.revision.Some? && inc.revision.value.target.release.strategy != Other {
      var room, cap := Room(inc, true, budget), inc.revision.value.target.canary.percent;
      ScaleFits(inc, gate, if inc.status.state == Canarying && room > cap then cap else room, now);
    }
  }

  /** After the pivot nobody gains, whatever anyone's settings, unless the allocation panics. */
  lemma NobodyGainsAfterPivot(v: seq<Inc>, i: nat, gate: Gate, now: Time)
    requires i < |v| && AfterPivot(v, i) && !Trips(v, gate, now)
    ensures FinalPercent(v, i, gate, now) <= v[i].status.currentPercent
  {
    FinalPercentIs(v, i, gate, now);
    AskAfterPivotFits(v[i], Budget(v, i, gate, now), gate, now);
  }

  /** A released revision whose settings allow its current percent. */
  predicate MayKeep(inc: Inc) {
    && inc.revision.Some?
    && Scales(inc)
    && FitsInt32(inc)
    && inc.status.state != Canarying
    && inc.revision.value.target.release.max >= inc.status.currentPercent
  }

  predicate NeverShrinks(inc: Inc) {
    inc.revision.Some? && Grows(inc.status.currentPercent, inc.revision.value.target.release)
  }

  /** After the pivot a revision keeps what fits in the budget, exactly unless its raw
      step wraps around below its current percent while there is room for it. */
  lemma KeepsWhatFitsIff(v: seq<Inc>, i: nat, gate: Gate, now: Time)
    requires i < |v| && AfterPivot(v, i) && MayKeep(v[i])
    ensures Share(v, i, gate, now) == Min(v[i].status.currentPercent, Budget(v, i, gate, now))
       <==> Budget(v, i, gate, now) < v[i].status.currentPercent || NeverShrinks(v[i])
  {
    var current, budget := v[i].status.currentPercent, Budget(v, i, gate, now);
    RoomIsMin(v[i], budget);
    NextIncrementIsClamped(current, v[i].revision.value.target.release, Min(current, budget));
  }

  /** Nothing is left for anyone after a revision that lost traffic. */
  lemma LossEmptiesTheRest(v: seq<Inc>, i: nat, j: nat, gate: Gate, now: Time)
    requires i < j < |v| && AfterPivot(v, i) && !Trips(v, gate, now)
    requires MayKeep(v[i]) && NeverShrinks(v[i])
    requires FinalPercent(v, i, gate, now) < v[i].status.currentPercent
    ensures FinalPercent(v, j, gate, now) == 0
  {
    LossTakesTheBudget(v, i, gate, now);
    BudgetShrinks(v, i + 1, j, gate, now);
    assert AfterPivot(v, j);
    NothingFromNothing(v, j, gate, now);
  }

  lemma LossTakesTheBudget(v: seq<Inc>, i: nat, gate: Gate, now: Time)
    requires i < |v| && AfterPivot(v, i) && !Trips(v, gate, now)
    requires MayKeep(v[i]) && NeverShrinks(v[i])
    requires FinalPercent(v, i, gate, now) < v[i].status.currentPercent
    ensures Budget(v, i + 1, gate, now) == 0
  {
    KeepsWhatFitsIff(v, i, gate, now);
    FinalPercentIs(v, i, gate, now);
    ShareLeavesBudget(v, i, gate, now);
  }

  lemma NothingFromNothing(v: seq<Inc>, j: nat, gate: Gate, now: Time)
    requires j < |v| && AfterPivot(v, j) && !Trips(v, gate, now) && Budget(v, j, gate, now) == 0
    ensures FinalPercent(v, j, gate, now) == 0
  {
    assert !TripsAt(v, j, gate, now);
    FinalPercentIs(v, j, gate, now);
  }

  function SumOfCurrent(v: seq<Inc>, i: nat, j: nat): nat
    requires i <= j <= |v|
    decreases j
  {
    if i == j then 0 else SumOfCurrent(v, i, j - 1) + v[j - 1].status.currentPercent
  }

  predicate KeepsAt(v: seq<Inc>, k: nat) { k < |v| && MayKeep(v[k]) && NeverShrinks(v[k]) }

  predicate DrainsPlainly(v: seq<Inc>, p: nat) {
    && p < |v|
    && v[p].isRamping
    && forall k :: p < k < |v| ==> KeepsAt(v, k)
  }

  lemma DrainingShare(v: seq<Inc>, p: nat, i: nat, gate: Gate, now: Time)
    requires p < i < |v| && DrainsPlainly(v, p)
    ensures Share(v, i, gate, now) == Min(v[i].status.currentPercent, Budget(v, i, gate, now))
  {
    assert v[p].isRamping && KeepsAt(v, i);
    KeepsWhatFitsIff(v, i, gate, now);
  }

  lemma DrainingStep(v: seq<Inc>, p: nat, i: nat, gate: Gate, now: Time)
    requires p < i < |v| && DrainsPlainly(v, p)
    ensures Budget(v, i + 1, gate, now) == Max(0, Budget(v, i, gate, now) - v[i].status.currentPercent)
  {
    DrainingShare(v, p, i, gate, now);
  }

  predicate DropsBy(budgets: seq<int>, i: nat, percent: int)
    requires i + 1 < |budgets|
  {
    budgets[i + 1] == Max(0, budgets[i] - percent)
  }

  lemma DroppedBudget(v: seq<Inc>, i: nat, percent: int, gate: Gate, now: Time)
    requires i < |v| && Budget(v, i + 1, gate, now) == Max(0, Budget(v, i, gate, now) - percent)
    ensures DropsBy(Budgets(v, gate, now), i, percent)
  {
    BudgetsAt(v, i, gate, now);
    BudgetsAt(v, i + 1, gate, now);
  }

  lemma DrainingStepAt(v: seq<Inc>, p: nat, i: nat, gate: Gate, now: Time)
    requires p < i < |v| && DrainsPlainly(v, p)
    ensures DropsBy(Budgets(v, gate, now), i, v[i].status.currentPercent)
  {
    DrainingStep(v, p, i, gate, now);
    DroppedBudget(v, i, v[i].status.currentPercent, gate, now);
  }

  /** Each turn in between takes what it can of the budget. */
  predicate DropsFrom(v: seq<Inc>, budgets: seq<int>, from: nat, i: nat)
    requires from <= i <= |v| < |budgets|
    decreases i
  {
    i == from || (DropsFrom(v, budgets, from, i - 1) && DropsBy(budgets, i - 1, v[i - 1].status.currentPercent))
  }

  lemma {:induction false} AllDrop(v: seq<Inc>, p: nat, i: nat, gate: Gate, now: Time)
    requires p < i < |v| && DrainsPlainly(v, p)
    ensures DropsFrom(v, Budgets(v, gate, now), p + 1, i)
    decreases i
  {
    if p + 1 < i {
      AllDrop(v, p, i - 1, gate, now);
      DrainingStepAt(v, p, i - 1, gate, now);
    }
  }

  /** What is left of a budget from which each percent in turn takes what it can. */
  lemma {:induction false} DrainedBudget(v: seq<Inc>, budgets: seq<int>, from: nat, i: nat)
    requires from <= i <= |v| < |budgets| && DropsFrom(v, budgets, from, i) && budgets[from] >= 0
    ensures budgets[i] == Max(0, budgets[from] - SumOfCurrent(v, from, i))
    decreases i
  {
    if from < i {
      DrainedBudget(v, budgets, from, i - 1);
    }
  }

  /** The loop is the closed-form greedy allocation: after the pivot each revision takes
      the smaller of its percent and what those between it and the pivot have not used. */
  lemma DrainIsGreedy(v: seq<Inc>, p: nat, i: nat, gate: Gate, now: Time)
    requires p < i < |v| && DrainsPlainly(v, p) && !Trips(v, gate, now)
    ensures FinalPercents(v, gate, now)[i]
         == Min(v[i].status.currentPercent,
                Max(0, Budgets(v, gate, now)[p + 1] - SumOfCurrent(v, p + 1, i)))
  {
    DrainingFinal(v, p, i, gate, now);
    BudgetsAfterPivot(v, p, i, gate, now);
  }

  lemma BudgetsAfterPivot(v: seq<Inc>, p: nat, i: nat, gate: Gate, now: Time)
    requires p < i < |v| && DrainsPlainly(v, p)
    ensures var b := Budgets(v, gate, now); b[i] == Max(0, b[p + 1] - SumOfCurrent(v, p + 1, i))
  {
    BudgetsAreNatural(v, p + 1, gate, now);
    AllDrop(v, p, i, gate, now);
    DrainedBudget(v, Budgets(v, gate, now), p + 1, i);
  }

  lemma BudgetsAreNatural(v: seq<Inc>, k: nat, gate: Gate, now: Time)
    requires k <= |v|
    ensures Budgets(v, gate, now)[k] >= 0
  {
    BudgetsAt(v, k, gate, now);
  }

  lemma DrainingFinal(v: seq<Inc>, p: nat, i: nat, gate: Gate, now: Time)
    requires p < i < |v| && DrainsPlainly(v, p) && !Trips(v, gate, now)
    ensures FinalPercents(v, gate, now)[i] == Min(v[i].status.currentPercent, Budgets(v, gate, now)[i])
  {
    DrainingShare(v, p, i, gate, now);
    FinalPercentIs(v, i, gate, now);
    RecipientIsFirst(v, p, i);
    BudgetsAt(v, i, gate, now);
  }

  lemma RecipientIsFirst(v: seq<Inc>, p: nat, i: nat)
    requires p < i < |v| && v[p].isRamping
    ensures Recipient(v) != i
  {
    assert AfterPivot(v, i);
  }

  // ---------------------------------------------------------------- stability

  predicate GrowthRefused(inc: Inc, gate: Gate, now: Time) {
    inc.revision.Some? && (Waiting(inc, now) || forall d: uint32 :: d > inc.status.currentPercent ==> !gate(inc, d))
  }

  predicate AtRest(inc: Inc, gate: Gate, now: Time) {
    && inc.revision.Some?
    && Scales(inc)
    && NeverShrinks(inc)
    && inc.status.currentPercent <= OwnCeiling(inc)
    && GrowthRefused(inc, gate, now)
  }

  lemma RestingAsk(inc: Inc, afterPivot: bool, budget: uint32, gate: Gate, now: Time)
    requires AtRest(inc, gate, now) && FitsInt32(inc)
    requires inc.status.currentPercent <= budget <= 100
    ensures Ask(inc, afterPivot, budget, gate, now) == inc.status.currentPercent
  {
    RoomIsMin(inc, budget);
    var release, current := inc.revision.value.target.release, inc.status.currentPercent;
    var cap := inc.revision.value.target.canary.percent;
    var room := Room(inc, afterPivot, budget);
    var max := if inc.status.state == Canarying && room > cap then cap else room;
    NextIncrementIsClamped(current, release, max);
  }

  lemma {:induction false} RestingBudget(v: seq<Inc>, i: nat, gate: Gate, now: Time)
    requires i <= |v| && forall k :: 0 <= k < |v| ==> AtRest(v[k], gate, now)
    requires SumOfCurrent(v, 0, |v|) <= 100
    ensures Budget(v, i, gate, now) == 100 - SumOfCurrent(v, 0, i)
    ensures i < |v| ==> Share(v, i, gate, now) == v[i].status.currentPercent
  {
    SumGrows(v, i, |v|);
    if i > 0 {
      RestingBudget(v, i - 1, gate, now);
    }
    if i < |v| {
      SumGrows(v, i + 1, |v|);
      RestingAsk(v[i], AfterPivot(v, i), Budget(v, i, gate, now), gate, now);
    }
  }

  lemma {:induction false} SumGrows(v: seq<Inc>, i: nat, j: nat)
    requires i <= j <= |v|
    ensures SumOfCurrent(v, 0, i) <= SumOfCurrent(v, 0, j)
    decreases j
  {
    if i < j {
      SumGrows(v, i, j - 1);
    }
  }

  /** Where everything is already handed out and growth is refused, nothing moves:
      neither a percent nor the time of its last change. */
  lemma NothingMovesAtRest(v: seq<Inc>, i: nat, gate: Gate, now: Time)
    requires i < |v| && forall k :: 0 <= k < |v| ==> AtRest(v[k], gate, now)
    requires SumOfCurrent(v, 0, |v|) == 100
    ensures !Trips(v, gate, now)
    ensures FinalPercent(v, i, gate, now) == v[i].status.currentPercent
    ensures Final(v, i, gate, now).status.lastUpdated == v[i].status.lastUpdated
  {
    forall k | 0 <= k < |v| ensures !TripsAt(v, k, gate, now) {
      RestingBudget(v, k, gate, now);
      SumGrows(v, k + 1, |v|);
    }
    RestingBudget(v, |v|, gate, now);
    RestingBudget(v, i, gate, now);
  }

  // ---------------------------------------------------------------- canary cap

  /** A canary asks for no more than its percent. */
  lemma CanaryAskFits(inc: Inc, afterPivot: bool, budget: uint32, gate: Gate, now: Time)
    requires inc.status.state == Canarying && inc.revision.Some? && Scales(inc)
    ensures Ask(inc, afterPivot, budget, gate, now) <= inc.revision.value.target.canary.percent
  {
    var room, cap := Room(inc, afterPivot, budget), inc.revision.value.target.canary.percent;
    ScaleFits(inc, gate, if room > cap then cap else room, now);
  }

  /** While some listed revision is flagged as ramping, a canary stays within its percent. */
  lemma CanaryIsCapped(v: seq<Inc>, i: nat, gate: Gate, now: Time)
    requires i < |v| && Pivot(v).Some? && !Trips(v, gate, now)
    requires v[i].status.state == Canarying && v[i].revision.Some? && Scales(v[i]) && !v[i].isRamping
    ensures FinalPercent(v, i, gate, now) <= v[i].revision.value.target.canary.percent
  {
    FinalPercentIs(v, i, gate, now);
    CanaryAskFits(v[i], AfterPivot(v, i), Budget(v, i, gate, now), gate, now);
  }

  // ---------------------------------------------------------------- without a flag

  /** What the settings let a revision have of the 100 percent. */
  function Ceiling(inc: Inc): uint32 { if inc.revision.None? then 0 else Min(100, OwnCeiling(inc)) }

  /** What a revision takes when all of the traffic is on offer. */
  function Take(inc: Inc, gate: Gate, now: Time): uint32 {
    if inc.revision.None? then 0
    else
      var current, top := inc.status.currentPercent, Ceiling(inc);
      var next := Min(RawNext(current, inc.revision.value.target.release), top);
      if current > top then top
      else if next <= current then next
      else if !Waiting(inc, now) && gate(inc, next) then next
      else current
  }

  /** A revision that takes all of a smaller room. */
  predicate UsesUp(inc: Inc, room: uint32, gate: Gate, now: Time) {
    || room == 0
    || (&& inc.revision.Some?
        && room <= Ceiling(inc)
        && var current, raw := inc.status.currentPercent, RawNext(inc.status.currentPercent, inc.revision.value.target.release);
           || room < current
           || (room <= raw && (room == current || (!Waiting(inc, now) && gate(inc, room)))))
  }

  /** A gate that opens for a percent opens for every smaller one, as the ramp gate does. */
  predicate DownwardClosed(inc: Inc, gate: Gate) {
    forall d: uint32, e: uint32 :: d <= e && gate(inc, e) ==> gate(inc, d)
  }

  lemma RampGateIsDownwardClosed(inc: Inc, ctrl: Controller)
    requires NonNegativeFactors(ctrl.clusters)
    ensures DownwardClosed(inc, GateOf(ctrl))
  {
    forall d: uint32, e: uint32 | d <= e && GateOf(ctrl)(inc, e) ensures GateOf(ctrl)(inc, d) {
      CanRampToIsDownwardClosed(inc, ctrl, e, d);
    }
  }

  lemma AskWithoutFlag(inc: Inc, room: uint32, gate: Gate, now: Time)
    requires Scales(inc) && DownwardClosed(inc, gate) && room <= 100
    ensures Ask(inc, false, room, gate, now) == if UsesUp(inc, room, gate, now) then room else Take(inc, gate, now)
  {
    if inc.revision.Some? {
      var current, release := inc.status.currentPercent, inc.revision.value.target.release;
      var cap := inc.revision.value.target.canary.percent;
      NextIncrementIsClamped(current, release, if inc.status.state == Canarying && room > cap then cap else room);
    }
  }

  predicate Unflagged(v: seq<Inc>) { forall k :: 0 <= k < |v| ==> !v[k].isRamping }

  predicate KnownTakers(v: seq<Inc>, gate: Gate) {
    forall k :: 0 <= k < |v| ==> Scales(v[k]) && DownwardClosed(v[k], gate)
  }

  function Taken(v: seq<Inc>, n: nat, gate: Gate, now: Time): nat
    requires n <= |v|
  {
    if n == 0 then 0 else Taken(v, n - 1, gate, now) + Take(v[n - 1], gate, now)
  }

  /** None of the first `n`, each taking what it takes, uses up the rest. */
  predicate Spares(v: seq<Inc>, n: nat, gate: Gate, now: Time)
    requires n <= |v|
  {
    n == 0 || (Spares(v, n - 1, gate, now) && SparesAt(v[n - 1], 100 - Taken(v, n - 1, gate, now), gate, now))
  }

  predicate SparesAt(inc: Inc, room: int, gate: Gate, now: Time) {
    0 < room <= 100 && !UsesUp(inc, room, gate, now)
  }

  lemma BudgetStep(v: seq<Inc>, n: nat, gate: Gate, now: Time)
    requires 0 < n <= |v| && Unflagged(v) && KnownTakers(v, gate)
    ensures var b := Budget(v, n - 1, gate, now);
            Budget(v, n, gate, now) == if UsesUp(v[n - 1], b, gate, now) then 0 else b - Take(v[n - 1], gate, now)
  {
    var b := Budget(v, n - 1, gate, now);
    AskWithoutFlag(v[n - 1], b, gate, now);
    assert !AfterPivot(v, n - 1);
    AskFitsWithoutFlag(v[n - 1], b, gate, now);
  }

  lemma AskFitsWithoutFlag(inc: Inc, room: uint32, gate: Gate, now: Time)
    requires Scales(inc) && room <= 100
    ensures Ask(inc, false, room, gate, now) <= Min(room, Ceiling(inc))
  {
    if inc.revision.Some? {
      var cap := inc.revision.value.target.canary.percent;
      ScaleFits(inc, gate, if inc.status.state == Canarying && room > cap then cap else room, now);
    }
  }

  predicate SparesBy(budgets: seq<int>, n: nat, inc: Inc, gate: Gate, now: Time)
    requires n + 1 < |budgets|
  {
    && 0 <= budgets[n] <= 100
    && budgets[n + 1] == if UsesUp(inc, budgets[n], gate, now) then 0 else budgets[n] - Take(inc, gate, now)
  }

  lemma SparesByStep(v: seq<Inc>, n: nat, gate: Gate, now: Time)
    requires n < |v| && Unflagged(v) && KnownTakers(v, gate)
    ensures SparesBy(Budgets(v, gate, now), n, v[n], gate, now)
  {
    BudgetsAt(v, n, gate, now);
    BudgetsAt(v, n + 1, gate, now);
    BudgetStep(v, n + 1, gate, now);
  }

  lemma {:induction false} SparedBudget(v: seq<Inc>, budgets: seq<int>, n: nat, gate: Gate, now: Time)
    requires n <= |v| < |budgets| && budgets[0] == 100 && budgets[n] >= 0
    requires forall k :: 0 <= k < n ==> SparesBy(budgets, k, v[k], gate, now)
    ensures budgets[n] == if Spares(v, n, gate, now) then 100 - Taken(v, n, gate, now) else 0
  {
    if n > 0 {
      assert SparesBy(budgets, n - 1, v[n - 1], gate, now);
      SparedBudget(v, budgets, n - 1, gate, now);
    }
  }

  lemma BudgetWithoutFlag(v: seq<Inc>, n: nat, gate: Gate, now: Time)
    requires n <= |v| && Unflagged(v) && KnownTakers(v, gate)
    ensures Budget(v, n, gate, now) == if Spares(v, n, gate, now) then 100 - Taken(v, n, gate, now) else 0
  {
    BudgetsAt(v, 0, gate, now);
    BudgetsAt(v, n, gate, now);
    forall k | 0 <= k < n ensures SparesBy(Budgets(v, gate, now), k, v[k], gate, now) {
      SparesByStep(v, k, gate, now);
    }
    SparedBudget(v, Budgets(v, gate, now), n, gate, now);
  }

  lemma {:induction false} SparesFirst(v: seq<Inc>, n: nat, gate: Gate, now: Time)
    requires 0 < n <= |v| && Spares(v, n, gate, now)
    ensures SparesAt(v[0], 100, gate, now)
  {
    if n > 1 {
      SparesFirst(v, n - 1, gate, now);
    } else {
      assert Taken(v, 0, gate, now) == 0;
    }
  }

  /** Without a flagged revision the first listed gets what it takes and what is left. */
  lemma FirstWithoutFlag(v: seq<Inc>, gate: Gate, now: Time)
    requires v != [] && Unflagged(v) && KnownTakers(v, gate)
    ensures Spares(v, |v|, gate, now) ==>
              FinalPercent(v, 0, gate, now) == Take(v[0], gate, now) + 100 - Taken(v, |v|, gate, now)
    ensures !Spares(v, |v|, gate, now) ==> FinalPercent(v, 0, gate, now) <= Ceiling(v[0])
  {
    UnflaggedNeverTrips(v, gate, now);
    BudgetWithoutFlag(v, |v|, gate, now);
    FinalPercentIs(v, 0, gate, now);
    assert Pivot(v).None?;
    AskWithoutFlag(v[0], 100, gate, now);
    AskFitsWithoutFlag(v[0], 100, gate, now);
    if Spares(v, |v|, gate, now) {
      SparesFirst(v, |v|, gate, now);
    }
  }

  lemma UnflaggedNeverTrips(v: seq<Inc>, gate: Gate, now: Time)
    requires Unflagged(v) && forall k :: 0 <= k < |v| ==> Scales(v[k])
    ensures !Trips(v, gate, now)
  {
    forall i | 0 <= i < |v| ensures !TripsAt(v, i, gate, now) {
      assert !AfterPivot(v, i);
      AskFitsWithoutFlag(v[i], Budget(v, i, gate, now), gate, now);
    }
  }

  /** A canary ends above its percent exactly when nobody is flagged, it is listed first,
      nobody uses up the rest, and what everyone takes leaves enough to lift it there. */
  lemma UncappedExactlyWhen(v: seq<Inc>, i: nat, gate: Gate, now: Time)
    requires i < |v| && KnownTakers(v, gate) && !Trips(v, gate, now)
    requires v[i].status.state == Canarying && v[i].revision.Some? && !v[i].isRamping
    ensures FinalPercent(v, i, gate, now) > v[i].revision.value.target.canary.percent
       <==> && Unflagged(v)
            && i == 0
            && Spares(v, |v|, gate, now)
            && Take(v[0], gate, now) + 100 - Taken(v, |v|, gate, now) > v[0].revision.value.target.canary.percent
  {
    if !Unflagged(v) {
      assert AfterPivot(v, |v|);
      CanaryIsCapped(v, i, gate, now);
    } else if i == 0 {
      FirstWithoutFlag(v, gate, now);
    } else {
      FinalPercentIs(v, i, gate, now);
      CanaryAskFits(v[i], AfterPivot(v, i), Budget(v, i, gate, now), gate, now);
    }
  }

  function CeilingSum(v: seq<Inc>, n: nat): nat
    requires n <= |v|
  {
    if n == 0 then 0 else CeilingSum(v, n - 1) + Ceiling(v[n - 1])
  }

  lemma {:induction false} OthersWithinCeilings(v: seq<Inc>, n: nat, gate: Gate, now: Time)
    requires 0 < n <= |v| && Unflagged(v) && forall k :: 0 <= k < |v| ==> Scales(v[k])
    ensures Budget(v, n, gate, now) >= Budget(v, 1, gate, now) - (CeilingSum(v, n) - Ceiling(v[0]))
  {
    if n > 1 {
      OthersWithinCeilings(v, n - 1, gate, now);
      assert !AfterPivot(v, n - 1);
      AskFitsWithoutFlag(v[n - 1], Budget(v, n - 1, gate, now), gate, now);
    } else {
      assert CeilingSum(v, 0) == 0;
    }
  }

  /** With any gate: ceilings that do not add up to 100 leave a remainder, and without a
      flag the first listed revision gets it. A canary whose percent and the others' ceilings
      stay below 100 therefore ends above its percent. */
  lemma LowCeilingsLiftTheFirst(v: seq<Inc>, gate: Gate, now: Time)
    requires v != [] && Unflagged(v) && forall k :: 0 <= k < |v| ==> Scales(v[k])
    ensures FinalPercent(v, 0, gate, now) >= 100 - (CeilingSum(v, |v|) - Ceiling(v[0]))
  {
    UnflaggedNeverTrips(v, gate, now);
    FinalPercentIs(v, 0, gate, now);
    assert Pivot(v).None?;
    ShareLeavesBudget(v, 0, gate, now);
    OthersWithinCeilings(v, |v|, gate, now);
  }

  /** A canary that is alone and not flagged is given all of the traffic. */
  lemma LoneCanaryTakesAll(canary: Inc, gate: Gate, now: Time)
    requires !canary.isRamping && Scales(canary)
    ensures FinalPercent([canary], 0, gate, now) == 100
  {
    var v := [canary];
    LowCeilingsLiftTheFirst(v, gate, now);
    UnflaggedNeverTrips(v, gate, now);
    FinalPercentIs(v, 0, gate, now);
    assert CeilingSum(v, 0) == 0 && CeilingSum(v, 1) == Ceiling(canary);
  }
}
