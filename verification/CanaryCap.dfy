/** Canaries stay within their percent through a whole reconcile: the flag set when it
    starts, the tick, and the division of traffic work together. */
module CanaryCap {
  import opened Base
  import opened Types
  import opened RampGate
  import opened StateMachine
  import opened Collections
  import opened Allocator
  import opened Preparation
  import opened Records
  import opened Reconciling
  import opened Lineage

  /** The revision that was flagged when the reconcile started. */
  ghost function Flagged(p: Pass): Option<Tag>
    requires p.Started()
  {
    RampingTag(p.Read(), p.ramping)
  }

  lemma {:induction false} RampingTagIs(v: Views, order: seq<Tag>)
    requires forall t :: t in order ==> t in v
    ensures var r := RampingTag(v, order);
            r.Some? ==> r.value in order && v[r.value].status.state != Canaried && v[r.value].status.state != Canarying
  {
    if order != [] {
      RampingTagIs(v, order[1..]);
    }
  }

  lemma LoadedUnflagged(p: Pass, t: Tag)
    requires t in p.Read()
    ensures !p.Read()[t].isRamping
  {
  }

  lemma OnlyOneIsFlagged(p: Pass, t: Tag)
    requires p.Started() && t in p.loaded
    ensures p.loaded[t].isRamping <==> Flagged(p) == Some(t)
    ensures t in p.Read() && p.loaded[t].status == p.Read()[t].status
  {
    LoadedUnflagged(p, t);
  }

  /** What the flag says of the revision that carries it. */
  ghost predicate MayRamp(s: Status) {
    && CarriesTraffic(s.state) && s.state != Canarying
    && (s.state in {Retiring, Deleting, Failing} ==> s.currentPercent > 0)
  }

  lemma FlaggedMayRamp(v: Views, order: seq<Tag>, r: Tag)
    requires ReleasableOrder(v, order) && RampingTag(v, order) == Some(r)
    ensures r in v && MayRamp(v[r].status)
  {
    RampingTagIs(v, order);
    assert IsReleasable(v[r]);
  }

  /** No tick makes a canary of the flagged revision. */
  lemma FlaggedIsNoCanary(p: Pass, r: Tag)
    requires p.Started() && Flagged(p) == Some(r)
    ensures r in p.loaded && AfterTick(p, r).status.state != Canarying
  {
    FlaggedMayRamp(p.Read(), p.ramping, r);
    OnlyOneIsFlagged(p, r);
    TickKeepsRampingOutOfCanary(p.loaded[r], p.env.TickOf(r));
  }

  lemma FlagSurvives(p: Pass, t: Tag)
    requires p.Observed() && t in p.observed
    ensures p.observed[t].isRamping <==> Flagged(p) == Some(t)
    ensures p.observed[t].status.state == AfterTick(p, t).status.state
  {
    ObservedMember(p, t);
    OnlyOneIsFlagged(p, t);
  }

  /** What the cap needs of the collection that traffic is divided among. */
  ghost predicate Capping(v: Views, r: Tag) {
    && r in v && IsReleasable(v[r]) && v[r].isRamping && v[r].status.state != Canarying
    && (forall t :: t in v && v[t].isRamping ==> t == r)
  }

  lemma CappedWhereAllocated(v: Views, order: seq<Tag>, r: Tag, t: Tag, gate: Gate, now: Time)
    requires Capping(v, r) && ReleasableOrder(v, order) && !Trips(InOrder(v, order), gate, now)
    requires t in v && v[t].status.state == Canarying && v[t].revision.Some? && Scales(v[t])
    ensures Allocated(v, order, gate, now)[t].status.currentPercent <= v[t].revision.value.target.canary.percent
  {
    var x := InOrder(v, order);
    assert IsReleasable(v[t]);
    var i, j := IndexOf(order, t), IndexOf(order, r);
    assert x[j].isRamping;
    assert AfterPivot(x, |x|);
    CanaryIsCapped(x, i, gate, now);
  }

  lemma CappedWhereSynced(before: Views, after: Views, weights: Weights, order: seq<Tag>, r: Tag, t: Tag, gate: Gate, now: Time)
    requires AppSynced(before, after, weights, order, gate, now) && Capping(before, r)
    requires t in before && before[t].status.state == Canarying && before[t].revision.Some? && Scales(before[t])
    ensures t in after && after[t].status.currentPercent <= before[t].revision.value.target.canary.percent
  {
    assert t in DeployedTags(before);
    CappedWhereAllocated(before, order, r, t, gate, now);
  }

  /** While the flagged revision is still releasable after the ticks, every canary with a
      known strategy ends the reconcile with at most the percent its settings allow. */
  lemma CanariesStayCapped(p: Pass, r: Tag, t: Tag)
    requires p.Placed() && Flagged(p) == Some(r) && r in p.observed && IsReleasable(p.observed[r])
    requires t in p.divided && p.divided[t].status.state == Canarying && Scales(p.divided[t])
    ensures p.divided[t].revision.Some?
    ensures p.divided[t].status.currentPercent <= p.divided[t].revision.value.target.canary.percent
  {
    FlaggedIsNoCanary(p, r);
    forall u | u in p.observed
      ensures p.observed[u].isRamping <==> u == r
      ensures p.observed[u].status.state == AfterTick(p, u).status.state
    {
      FlagSurvives(p, u);
    }
    NothingIsMissing(p);
    SyncedSettles(p.observed, p.divided, p.weights, p.allocating, t, p.TheGate(), p.env.now);
    CappedWhereSynced(p.observed, p.divided, p.weights, p.allocating, r, t, p.TheGate(), p.env.now);
  }

  /** And so it is saved. */
  lemma SavedCanariesStayCapped(p: Pass, rs: seq<Status>, k: nat, r: Tag)
    requires p.Completed(rs) && k < |rs| && rs[k].state == Canarying
    requires Flagged(p) == Some(r) && r in p.observed && IsReleasable(p.observed[r])
    requires rs[k].tag in p.divided ==> Scales(p.divided[rs[k].tag])
    ensures rs[k].tag in p.divided && p.divided[rs[k].tag].revision.Some?
    ensures rs[k].currentPercent <= p.divided[rs[k].tag].revision.value.target.canary.percent
  {
    SavedIsDivided(p, rs, k);
    CanariesStayCapped(p, r, rs[k].tag);
  }

  lemma SavedIsDivided(p: Pass, rs: seq<Status>, k: nat)
    requires p.Completed(rs) && k < |rs|
    ensures rs[k].tag in p.divided
    ensures var s := p.divided[rs[k].tag].status;
            rs[k].state == s.state && rs[k].currentPercent == s.currentPercent
  {
    DividedIsTagged(p);
    var order :| SavesAs(p.divided, order, rs);
    SavedIsListed(p.divided, order, rs, k);
  }

  lemma SavedIsListed(v: Views, order: seq<Tag>, rs: seq<Status>, k: nat)
    requires Tagged(v) && SavesAs(v, order, rs) && k < |rs|
    ensures rs[k].tag in v
    ensures rs[k].state == v[rs[k].tag].status.state && rs[k].currentPercent == v[rs[k].tag].status.currentPercent
  {
    var kept, c := SavedList(v, order);
    assert rs[k] == kept[k] || rs[k] == Recommissioned(kept[k]);
  }
}
