/** Where the statuses a reconcile saves come from: each descends from one that was loaded,
    through a tick, a second observation and the division of traffic. */
module Lineage {
  import opened Base
  import opened Types
  import opened RampGate
  import opened StateMachine
  import opened Observation
  import opened Incarnations
  import opened Collections
  import opened Allocator
  import opened Preparation
  import opened Ticks
  import opened Records
  import opened Reconciling

  // ---------------------------------------------------------------- loading

  /** What loading and observing may do to a status: traffic is kept or lost. */
  predicate Carried(a: Status, b: Status) {
    && b.tag == a.tag && b.state == a.state && b.canaryStart == a.canaryStart
    && (b.currentPercent == 0 || b.currentPercent == a.currentPercent)
  }

  predicate Blank(s: Status) { s.state == Created && s.currentPercent == 0 && s.canaryStart.None? }

  ghost predicate LoadedFrom(saved: seq<Status>, s: Status) {
    Blank(s) || exists k :: 0 <= k < |saved| && Carried(saved[k], s)
  }

  lemma {:induction false} FindFinds(saved: seq<Status>, tag: Tag)
    ensures var f := Find(saved, tag);
            f.Some? ==> f.value.tag == tag && exists k :: 0 <= k < |saved| && saved[k] == f.value
  {
    if saved != [] && saved[0].tag != tag {
      FindFinds(saved[1..], tag);
      var f := Find(saved[1..], tag);
      if f.Some? {
        var k :| 0 <= k < |saved[1..]| && saved[1..][k] == f.value;
        assert saved[k + 1] == f.value;
      }
    }
  }

  lemma ObservedCarries(inc: Inc, info: Option<DeploymentInfo>, liveCount: nat, now: Time)
    ensures Carried(inc.status, Observed(inc, info, liveCount, now).status)
    ensures var o := Observed(inc, info, liveCount, now);
            o.tag == inc.tag && o.revision == inc.revision && o.isRamping == inc.isRamping
  {
  }

  lemma LoadedDescends(saved: seq<Status>, tag: Tag, revision: Option<Revision>, info: Option<DeploymentInfo>,
                       liveCount: nat, now: Time)
    ensures var inc := Loaded(saved, tag, revision, info, liveCount, now);
            inc.tag == tag && inc.status.tag == tag && inc.revision == revision && LoadedFrom(saved, inc.status)
  {
    var s := LoadedStatus(saved, tag, revision, now);
    ObservedCarries(Inc(tag, revision, s, false, false), info, liveCount, now);
    FindFinds(saved, tag);
    var f := Find(saved, tag);
    if f.Some? {
      var k :| 0 <= k < |saved| && saved[k] == f.value;
      assert Carried(saved[k], s);
      assert Carried(saved[k], Loaded(saved, tag, revision, info, liveCount, now).status);
    }
  }

  /** A loaded member and the statuses it may come from. */
  ghost predicate WellLoaded(p: Pass, t: Tag) {
    && t in p.loaded
    && p.loaded[t].tag == t && p.loaded[t].status.tag == t
    && p.loaded[t].revision == Lookup(p.env.revisions, t)
    && LoadedFrom(p.saved, p.loaded[t].status)
  }

  lemma LoadedMember(p: Pass, t: Tag)
    requires p.Started() && t in p.loaded
    ensures WellLoaded(p, t)
  {
    LoadedDescends(p.saved, t, Lookup(p.env.revisions, t), LiveInfo(p.env.before, t), p.env.LiveCount(), p.env.now);
  }

  // ---------------------------------------------------------------- settling

  /** What becomes of a ticked status before it is saved: the state stays, and traffic is
      only found on what is releasable, or is what it was where nothing is deployed. */
  predicate Settled(a: Status, b: Status) {
    && b.tag == a.tag && b.state == a.state && b.canaryStart == a.canaryStart
    && (b.currentPercent <= 100 || b.currentPercent == a.currentPercent)
    && (b.currentPercent > 0 ==>
          || Rank(a.state) < 2
          || (a.currentPercent > 0 && (Rank(a.state) == 2 || !IsDeployedState(a.state))))
  }

  lemma NotDeployed(v: Views, t: Tag)
    requires DeployedTags(v) == {} && t in v
    ensures !IsDeployedState(v[t].status.state)
  {
    assert t !in DeployedTags(v);
  }

  lemma AllocatedSettles(v: Views, order: seq<Tag>, t: Tag, gate: Gate, now: Time)
    requires ReleasableOrder(v, order) && !Trips(InOrder(v, order), gate, now) && t in v
    ensures var d := Allocated(v, order, gate, now);
            Settled(v[t].status, d[t].status) && d[t].tag == v[t].tag && d[t].revision == v[t].revision
  {
    if t in order {
      var i := IndexOf(order, t);
      FinalKeepsState(InOrder(v, order), i, gate, now);
      FinalPercentIs(InOrder(v, order), i, gate, now);
      assert IsReleasable(v[t]);
    }
  }

  lemma SyncedSettles(before: Views, after: Views, weights: Weights, order: seq<Tag>, t: Tag, gate: Gate, now: Time)
    requires AppSynced(before, after, weights, order, gate, now)
    ensures after.Keys == before.Keys
    ensures t in before ==> Settled(before[t].status, after[t].status)
                            && after[t].tag == before[t].tag && after[t].revision == before[t].revision
  {
    if t in before {
      if DeployedTags(before) == {} {
        NotDeployed(before, t);
      } else {
        AllocatedSettles(before, order, t, gate, now);
      }
    }
  }

  lemma CarriedThenSettled(a: Status, b: Status, c: Status)
    requires Carried(a, b) && Settled(b, c)
    ensures Settled(a, c)
  {
  }

  function AfterTick(p: Pass, t: Tag): Inc
    requires t in p.loaded
  {
    Ticked(p.loaded[t], p.env.TickOf(t))
  }

  /** A member of the divided collection is its ticked self, settled. */
  ghost predicate WellSettled(p: Pass, t: Tag) {
    && t in p.loaded && t in p.divided
    && p.divided[t].tag == t && p.divided[t].status.tag == t
    && p.divided[t].revision == p.loaded[t].revision
    && Settled(AfterTick(p, t).status, p.divided[t].status)
  }

  lemma TickKeepsIdentity(d: Inc, env: TickEnv)
    ensures var w := Ticked(d, env);
            w.tag == d.tag && w.revision == d.revision && w.status.tag == d.status.tag && w.isRamping == d.isRamping
            && w.status.currentPercent == d.status.currentPercent
  {
  }

  /** How a member goes from loaded to observed. */
  ghost predicate WellObserved(l: Inc, env: TickEnv, o: Inc) {
    && Carried(Ticked(l, env).status, o.status)
    && o.tag == l.tag && o.revision == l.revision && o.isRamping == l.isRamping
  }

  lemma TickedThenObserved(l: Inc, env: TickEnv, info: Option<DeploymentInfo>, liveCount: nat, now: Time)
    ensures WellObserved(l, env, Observed(Ticked(l, env), info, liveCount, now))
  {
    TickKeepsIdentity(l, env);
    ObservedCarries(Ticked(l, env), info, liveCount, now);
  }

  lemma ObservedMember(p: Pass, t: Tag)
    requires p.Observed()
    ensures p.observed.Keys == p.loaded.Keys
    ensures t in p.loaded ==> WellObserved(p.loaded[t], p.env.TickOf(t), p.observed[t])
  {
    MemberIsObserved(p.loaded, p.env, p.observed, t);
  }

  lemma MemberIsObserved(loaded: Views, env: Env, observed: Views, t: Tag)
    requires observed == ObservedViews(AfterTicks(loaded, env), env.after, env.LiveCount(), env.now)
    ensures observed.Keys == loaded.Keys
    ensures t in loaded ==> WellObserved(loaded[t], env.TickOf(t), observed[t])
  {
    if t in loaded {
      TickedThenObserved(loaded[t], env.TickOf(t), LiveInfo(env.after, t), env.LiveCount(), env.now);
    }
  }

  lemma DividedMember(p: Pass, t: Tag)
    requires p.Placed() && t in p.divided
    ensures WellLoaded(p, t) && WellSettled(p, t)
  {
    SyncedSettles(p.observed, p.divided, p.weights, p.allocating, t, p.TheGate(), p.env.now);
    ObservedMember(p, t);
    LoadedMember(p, t);
    TickKeepsIdentity(p.loaded[t], p.env.TickOf(t));
    CarriedThenSettled(AfterTick(p, t).status, p.observed[t].status, p.divided[t].status);
  }

  lemma DividedIsTagged(p: Pass)
    requires p.Placed()
    ensures Tagged(p.divided)
  {
    forall t | t in p.divided ensures p.divided[t].tag == t && p.divided[t].status.tag == t {
      DividedMember(p, t);
    }
  }

  // ---------------------------------------------------------------- what is saved

  /** A saved status comes from a member of the collection. */
  ghost predicate Descends(p: Pass, s: Status) {
    && s.tag in p.loaded
    && WellLoaded(p, s.tag)
    && Settled(AfterTick(p, s.tag).status, s)
  }

  lemma SavedDescend(p: Pass, rs: seq<Status>, k: nat)
    requires p.Completed(rs) && k < |rs|
    ensures Descends(p, rs[k])
  {
    DividedIsTagged(p);
    var order :| SavesAs(p.divided, order, rs);
    var kept, c := SavedList(p.divided, order);
    assert kept[k].tag in p.divided && kept[k] == p.divided[kept[k].tag].status;
    DividedMember(p, kept[k].tag);
    assert rs[k] == kept[k] || rs[k] == Recommissioned(kept[k]);
  }

  /** What the ticks of a pass attempted was attempted on loaded members. */
  lemma LoggedDescends(p: Pass, e: Event)
    requires p.Began() && e in p.Log()
    ensures WellLoaded(p, e.before.tag) && e == Event(p.loaded[e.before.tag], p.env.TickOf(e.before.tag))
  {
    LogHolds(p.loaded, p.ticking, p.env, e);
    var t :| t in p.ticking && e == Event(p.loaded[t], p.env.TickOf(t));
    LoadedMember(p, t);
  }

  lemma EveryTickIsLogged(p: Pass, t: Tag)
    requires p.Observed() && t in p.loaded
    ensures Event(p.loaded[t], p.env.TickOf(t)) in p.Log()
  {
    LogIsComplete(p.loaded, p.ticking, p.env, t);
  }
}
