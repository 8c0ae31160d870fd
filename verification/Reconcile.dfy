/** The whole reconcile, put together: sync in controllers/syncer.go and the part of
    controllers/releasemanager_controller.go that decides what is saved. */
module Reconciling {
  import opened Base
  import opened Types
  import opened RampGate
  import opened StateMachine
  import opened Observation
  import opened Incarnations
  import opened Collections
  import opened Allocator
  import opened Preparation
  import opened Ticks
  import opened Records
  import Retention = GarbageCollector

  /** The collection at each stage of a reconcile, and the orders in which it was listed. */
  datatype Pass = Pass(
    saved: seq<Status>,
    env: Env,
    ramping: seq<Tag>,
    loaded: Views,
    ticking: seq<Tag>,
    observed: Views,
    allocating: seq<Tag>,
    weights: Weights,
    divided: Views)
  {
    ghost function Read(): Views {
      LoadedViews(saved, env.revisions, env.before, env.LiveCount(), env.now)
    }

    function TheGate(): Gate { GateOf(Controller(saved, env.clusters)) }

    /** Loaded, with one revision flagged as ramping. */
    ghost predicate Started() { ReleasableOrder(Read(), ramping) && loaded == WithRamping(Read(), ramping) }

    /** Past the check for revisions, and ticking. */
    ghost predicate Began() { Started() && !NoRevisions(loaded) && SortedOrder(loaded, ticking) }

    ghost function Log(): seq<Event>
      requires Began()
    {
      TickLog(loaded, ticking, env)
    }

    /** Every tick succeeded, and the clusters were observed again. */
    ghost predicate Observed() {
      && Began()
      && TicksSucceed(loaded, env)
      && observed == ObservedViews(AfterTicks(loaded, env), env.after, env.LiveCount(), env.now)
    }

    ghost predicate Placed() {
      Observed() && AppSynced(observed, divided, weights, allocating, TheGate(), env.now)
    }

    ghost predicate Completed(rs: seq<Status>) { Placed() && exists order :: SavesAs(divided, order, rs) }
  }

  ghost predicate NoRevisions(v: Views) { forall t :: t in v ==> v[t].revision.None? }

  /** Traffic is divided unless nothing is deployed. */
  ghost predicate AppSynced(before: Views, after: Views, weights: Weights, order: seq<Tag>, gate: Gate, now: Time) {
    if DeployedTags(before) == {} then after == before && weights == map[]
    else Prepared(before, after, Some(weights), order, gate, now)
  }

  /** Somebody is deployed or being deployed, so there are routes to apply. */
  ghost predicate AnyToRoute(v: Views) {
    exists t :: t in v && (IsDeployedState(v[t].status.state) || v[t].status.state == State.Deploying)
  }

  /** Tick, observe, allocate, record; or stop on the way and save nothing. */
  datatype Verdict = Gone | Aborted | SavedAs(statuses: seq<Status>)

  // ---------------------------------------------------------------- nil safety

  /** After ticks that all succeed, a revision that is gone is on its way out, so nobody
      deployed or being deployed lacks one. */
  lemma TicksLeaveRevisions(v: Views, env: Env)
    requires TicksSucceed(v, env)
    ensures RevisionsPresent(AfterTicks(v, env))
  {
    forall t | t in v ensures HasRevisionIfNeeded(Ticked(v[t], env.TickOf(t))) {
      TickLeavesRevision(v[t], env.TickOf(t));
    }
  }

  predicate HasRevisionIfNeeded(d: Inc) {
    IsDeployedState(d.status.state) || d.status.state == Deploying ==> d.revision.Some?
  }

  lemma TickLeavesRevision(d: Inc, env: TickEnv)
    requires Handle(d, env).next.Some?
    ensures HasRevisionIfNeeded(Ticked(d, env))
  {
    if d.revision.None? {
      TickWithoutRevision(d, env);
    }
  }

  lemma ObservingKeepsRevisions(v: Views, observation: seq<ReplicaSet>, liveCount: nat, now: Time)
    requires RevisionsPresent(v)
    ensures RevisionsPresent(ObservedViews(v, observation, liveCount, now))
  {
  }

  lemma FinalKeepsState(v: seq<Inc>, i: nat, gate: Gate, now: Time)
    requires i < |v|
    ensures var f := Final(v, i, gate, now);
            f.tag == v[i].tag && f.revision == v[i].revision && f.status.state == v[i].status.state
            && f.status.tag == v[i].status.tag && f.isRamping == v[i].isRamping
            && f.status.canaryStart == v[i].status.canaryStart
  {
  }

  lemma AllocatingKeepsRevisions(v: Views, order: seq<Tag>, gate: Gate, now: Time)
    requires RevisionsPresent(v) && forall t :: t in order ==> t in v
    ensures RevisionsPresent(Allocated(v, order, gate, now))
  {
    forall t | t in order
      ensures var f := Final(InOrder(v, order), IndexOf(order, t), gate, now);
              f.revision == v[t].revision && f.status.state == v[t].status.state
    {
      FinalKeepsState(InOrder(v, order), IndexOf(order, t), gate, now);
    }
  }

  lemma SyncingKeepsRevisions(before: Views, after: Views, weights: Weights, order: seq<Tag>, gate: Gate, now: Time)
    requires RevisionsPresent(before) && AppSynced(before, after, weights, order, gate, now)
    ensures RevisionsPresent(after)
  {
    if DeployedTags(before) != {} {
      AllocatingKeepsRevisions(before, order, gate, now);
    }
  }

  /** Nothing that a reconcile dereferences is missing. */
  lemma NothingIsMissing(p: Pass)
    requires p.Observed()
    ensures RevisionsPresent(p.observed)
    ensures p.Placed() ==> RevisionsPresent(p.divided)
  {
    TicksLeaveRevisions(p.loaded, p.env);
    ObservingKeepsRevisions(AfterTicks(p.loaded, p.env), p.env.after, p.env.LiveCount(), p.env.now);
    if p.Placed() {
      SyncingKeepsRevisions(p.observed, p.divided, p.weights, p.allocating, p.TheGate(), p.env.now);
    }
  }

  // ---------------------------------------------------------------- the methods

  method DeployingMembers(ic: IncarnationCollection) returns (r: seq<Incarnation>)
    requires ic.Valid()
    ensures ic.Owns(r) && forall i :: 0 <= i < |r| ==> r[i].status.state == State.Deploying
    ensures r == [] ==> forall t :: t in ic.Snapshot() ==> ic.Snapshot()[t].status.state != State.Deploying
  {
    var sorted := ic.Sorted();
    r := [];
    for i := 0 to |sorted|
      invariant ic.Owns(r) && forall k :: 0 <= k < |r| ==> r[k].status.state == State.Deploying
      invariant r == [] ==> forall k :: 0 <= k < i ==> sorted[k].status.state != State.Deploying
    {
      if sorted[i].status.state == State.Deploying {
        r := r + [sorted[i]];
      }
    }
    if r == [] {
      NoneDeploying(ic, sorted);
    }
  }

  lemma NoneDeploying(ic: IncarnationCollection, sorted: seq<Incarnation>)
    requires ic.Valid() && ic.Owns(sorted) && SortedOrder(ic.Snapshot(), Tags(sorted))
    requires forall k :: 0 <= k < |sorted| ==> sorted[k].status.state != State.Deploying
    ensures forall t :: t in ic.Snapshot() ==> ic.Snapshot()[t].status.state != State.Deploying
  {
    forall t | t in ic.Snapshot() ensures ic.Snapshot()[t].status.state != State.Deploying {
      assert t in Tags(sorted);
      var k :| 0 <= k < |sorted| && Tags(sorted)[k] == t;
      assert sorted[k].tag == t;
    }
  }

  lemma LastHasRevision(ic: IncarnationCollection, deployed: seq<Incarnation>, deploying: seq<Incarnation>)
    requires ic.Valid() && RevisionsPresent(ic.Snapshot())
    requires ic.Owns(deployed) && forall t :: t in Tags(deployed) <==> t in DeployedTags(ic.Snapshot())
    requires ic.Owns(deploying) && forall i :: 0 <= i < |deploying| ==> deploying[i].status.state == State.Deploying
    ensures DeployedTags(ic.Snapshot()) == {} <==> deployed == []
    ensures forall i :: 0 <= i < |deployed + deploying| ==> (deployed + deploying)[i].revision.Some?
  {
    forall i | 0 <= i < |deployed| ensures deployed[i].revision.Some? && deployed[i].tag in DeployedTags(ic.Snapshot()) {
      assert Tags(deployed)[i] in Tags(deployed);
      assert ic.Snapshot()[deployed[i].tag] == deployed[i].View();
    }
    if deployed == [] {
      assert forall t :: t !in DeployedTags(ic.Snapshot());
    } else {
      assert deployed[0].tag in DeployedTags(ic.Snapshot());
    }
    forall i | 0 <= i < |deploying| ensures deploying[i].revision.Some? {
      assert ic.Snapshot()[deploying[i].tag] == deploying[i].View();
    }
  }

  lemma NobodyToRoute(ic: IncarnationCollection, deployed: seq<Incarnation>, deploying: seq<Incarnation>)
    requires ic.Valid()
    requires ic.Owns(deployed) && forall t :: t in Tags(deployed) <==> t in DeployedTags(ic.Snapshot())
    requires ic.Owns(deploying) && forall i :: 0 <= i < |deploying| ==> deploying[i].status.state == State.Deploying
    requires deploying == [] ==> forall t :: t in ic.Snapshot() ==> ic.Snapshot()[t].status.state != State.Deploying
    ensures AnyToRoute(ic.Snapshot()) <==> deployed + deploying != []
  {
    if deployed != [] {
      assert Tags(deployed)[0] in DeployedTags(ic.Snapshot());
    } else if deploying != [] {
      assert ic.Snapshot()[deploying[0].tag] == deploying[0].View();
    } else {
      forall t | t in ic.Snapshot() ensures !IsDeployedState(ic.Snapshot()[t].status.state) {
        assert t !in Tags(deployed);
      }
    }
  }

  /** Whoever is deployed, and then whoever is being deployed. */
  method RoutedMembers(ic: IncarnationCollection) returns (incarnations: seq<Incarnation>)
    requires ic.Valid() && RevisionsPresent(ic.Snapshot())
    ensures AnyToRoute(ic.Snapshot()) <==> incarnations != []
    ensures DeployedTags(ic.Snapshot()) != {} ==> incarnations != []
    ensures forall i :: 0 <= i < |incarnations| ==> incarnations[i].revision.Some?
  {
    var deployed := ic.Deployed();
    var deploying := DeployingMembers(ic);
    incarnations := deployed + deploying;
    LastHasRevision(ic, deployed, deploying);
    NobodyToRoute(ic, deployed, deploying);
  }

  /** Returns the settings the routers get, unless it fails. */
  method SyncApp(ic: IncarnationCollection, env: Env, gate: Gate)
    returns (ok: bool, ghost weights: Weights, ghost order: seq<Tag>)
    requires ic.Valid() && RevisionsPresent(ic.Snapshot())
    modifies ic.Repr
    ensures ic.Valid()
    ensures ok ==> AppSynced(old(ic.Snapshot()), ic.Snapshot(), weights, order, gate, env.now)
    ensures ok ==> Applying !in env.failures || !AnyToRoute(old(ic.Snapshot()))
    ensures !ok ==> (Applying in env.failures && AnyToRoute(old(ic.Snapshot())))
                    || (DeployedTags(old(ic.Snapshot())) != {} && ReleasableOrder(old(ic.Snapshot()), order) && Trips(InOrder(old(ic.Snapshot()), order), gate, env.now))
  {
    var incarnations := RoutedMembers(ic);
    if |incarnations| < 1 {
      return true, map[], [];
    }
    var revisions;
    revisions, order := PrepareRevisions(ic, gate, env.now);
    if revisions.None? {
      return false, map[], order;
    }
    weights := revisions.value;
    var latestTarget := incarnations[|incarnations| - 1].revision.value.target;
    ok := Applying !in env.failures;
  }

  /** Load the collection and flag the revision that ramps. */
  method Start(saved: seq<Status>, env: Env) returns (ic: IncarnationCollection, ghost p: Pass)
    ensures fresh(ic) && ic.Valid() && fresh(ic.Repr)
    ensures p.Started() && p.saved == saved && p.env == env && p.ticking == [] && ic.Snapshot() == p.loaded
  {
    ic := new IncarnationCollection();
    ic.Load(saved, env.revisions, env.before, env.LiveCount(), env.now);
    ghost var order := ic.MarkRamping();
    p := Pass(saved, env, order, ic.Snapshot(), [], map[], [], map[], map[]);
  }

  method TickAndLog(ic: IncarnationCollection, env: Env, ghost p: Pass)
    returns (ok: bool, ghost order: seq<Tag>, ghost log: seq<Event>)
    requires ic.Valid() && p.Started() && !NoRevisions(p.loaded) && p.env == env && ic.Snapshot() == p.loaded
    modifies ic.Repr
    ensures ic.Valid()
    ensures p.(ticking := order).Began() && log == p.(ticking := order).Log()
    ensures ok <==> TicksSucceed(p.loaded, env)
    ensures ok ==> ic.Snapshot() == AfterTicks(p.loaded, env)
  {
    ok, order, log := TickIncarnations(ic, env);
  }

  method ObserveAgain(ic: IncarnationCollection, env: Env, ghost p: Pass) returns (ghost observed: Views)
    requires ic.Valid() && p.Began() && p.env == env
    requires TicksSucceed(p.loaded, env) && ic.Snapshot() == AfterTicks(p.loaded, env)
    modifies ic.Repr
    ensures ic.Valid() && ic.Snapshot() == observed && p.(observed := observed).Observed()
  {
    ic.Update(env.after, env.LiveCount(), env.now);
    observed := ic.Snapshot();
  }

  /** The allocation panics. */
  ghost predicate Stuck(p: Pass) {
    && DeployedTags(p.observed) != {}
    && ReleasableOrder(p.observed, p.allocating)
    && Trips(InOrder(p.observed, p.allocating), p.TheGate(), p.env.now)
  }

  datatype Placement = Placement(weights: Weights, order: seq<Tag>, after: Views)

  ghost function WithPlacement(p: Pass, q: Placement): Pass {
    p.(allocating := q.order, weights := q.weights, divided := q.after)
  }

  method PlaceTraffic(ic: IncarnationCollection, env: Env, gate: Gate, ghost p: Pass)
    returns (ok: bool, ghost q: Placement)
    requires ic.Valid() && p.Observed() && p.env == env && gate == p.TheGate() && ic.Snapshot() == p.observed
    modifies ic.Repr
    ensures ic.Valid() && ic.Snapshot() == q.after
    ensures ok ==> WithPlacement(p, q).Placed()
    ensures ok ==> Applying !in env.failures || !AnyToRoute(p.observed)
    ensures !ok ==> (Applying in env.failures && AnyToRoute(p.observed)) || Stuck(WithPlacement(p, q))
  {
    NothingIsMissing(p);
    ghost var weights, order;
    ok, weights, order := SyncApp(ic, env, gate);
    q := Placement(weights, order, ic.Snapshot());
    if ok {
      PlacedBy(p, q);
    }
  }

  lemma StillStarted(p: Pass, q: Placement)
    requires p.Started()
    ensures WithPlacement(p, q).Started()
  {
  }

  lemma StillObserved(p: Pass, q: Placement)
    requires p.Observed()
    ensures WithPlacement(p, q).Observed()
  {
    StillStarted(p, q);
  }

  lemma PlacedBy(p: Pass, q: Placement)
    requires p.Observed() && AppSynced(p.observed, q.after, q.weights, q.order, p.TheGate(), p.env.now)
    ensures WithPlacement(p, q).Placed()
  {
    StillObserved(p, q);
  }

  method AnyRevision(ic: IncarnationCollection) returns (any: bool)
    requires ic.Valid()
    ensures any <==> !NoRevisions(ic.Snapshot())
  {
    var revisioned := ic.Revisioned();
    any := |revisioned| > 0;
    if any {
      assert Tags(revisioned)[0] in Tags(revisioned);
      assert Tags(revisioned)[0] in ic.Snapshot();
    } else {
      assert forall t :: t in ic.itemSet ==> t !in Tags(revisioned);
    }
  }

  ghost predicate FailsEarly(p: Pass) {
    || p.env.LiveCount() == 0
    || Loading in p.env.failures
    || (p.Started() && (if NoRevisions(p.loaded) then Removing else Preparing) in p.env.failures)
  }

  ghost predicate FailsLate(env: Env) {
    Finishing in env.failures || Marking in env.failures || Saving in env.failures
  }

  /** Why a reconcile did not get as far as to save. */
  ghost predicate Excused(p: Pass) {
    || FailsEarly(p)
    || (p.Began() && (!TicksSucceed(p.loaded, p.env) || Observing in p.env.failures))
    || (p.Observed() && (Stuck(p) || (Applying in p.env.failures && AnyToRoute(p.observed))))
    || (p.Placed() && FailsLate(p.env))
  }

  /** Nothing has gone wrong before the ticks. */
  ghost predicate Enters(p: Pass) {
    p.env.LiveCount() > 0 && Loading !in p.env.failures && Preparing !in p.env.failures
  }

  /** The log is what the ticks of this pass attempted, and empty before they begin. */
  ghost predicate Logs(p: Pass, log: seq<Event>) { if p.Began() then log == p.Log() else log == [] }

  /** The whole reconcile as a relation between what it reads, what it attempts and how it ends. */
  ghost predicate Reconciled(p: Pass, verdict: Verdict, log: seq<Event>) {
    && Logs(p, log)
    && match verdict
       case Gone => p.Started() && NoRevisions(p.loaded) && !Excused(p)
       case Aborted => Excused(p)
       case SavedAs(rs) => p.Completed(rs) && !Excused(p)
  }

  lemma NoRevisionsMeans(p: Pass)
    requires p.Started()
    ensures NoRevisions(p.loaded) <==> p.env.revisions == map[]
  {
    if p.env.revisions != map[] {
      var t :| t in p.env.revisions;
      assert p.loaded[t].revision == Some(p.env.revisions[t]);
    }
  }

  lemma LoggedSucceed(p: Pass)
    requires p.Began() && TicksSucceed(p.loaded, p.env)
    ensures forall e :: e in p.Log() ==> e.Outcome().next.Some?
  {
    forall e | e in p.Log() ensures e.Outcome().next.Some? {
      LogHolds(p.loaded, p.ticking, p.env, e);
    }
  }

  /** Nothing is saved if anything fails: what did fail is either removing what is not to be
      removed, or applying routes that nobody has. */
  lemma SavesOnlyWhatSucceeds(p: Pass, rs: seq<Status>, log: seq<Event>)
    requires Reconciled(p, SavedAs(rs), log)
    ensures p.env.LiveCount() > 0 && p.env.revisions != map[]
    ensures forall step :: step in p.env.failures ==> step == Removing || step == Applying
    ensures Applying in p.env.failures ==> !AnyToRoute(p.observed)
    ensures forall e :: e in log ==> e.Outcome().next.Some?
  {
    NoRevisionsMeans(p);
    LoggedSucceed(p);
    MayOnlyFail(p);
  }

  lemma MayOnlyFail(p: Pass)
    requires p.Placed() && !Excused(p)
    ensures forall step :: step in p.env.failures ==> step == Removing || step == Applying
  {
    assert Loading !in p.env.failures && Preparing !in p.env.failures;
    assert Observing !in p.env.failures && !FailsLate(p.env);
  }

  /** It is gone exactly for want of revisions. */
  lemma GoneWithoutRevisions(p: Pass, verdict: Verdict, log: seq<Event>)
    requires Reconciled(p, verdict, log)
    requires p.env.LiveCount() > 0 && Loading !in p.env.failures && Removing !in p.env.failures
    requires p.Started()
    ensures verdict.Gone? <==> p.env.revisions == map[]
    ensures verdict.Gone? ==> log == []
  {
    NoRevisionsMeans(p);
  }

  lemma NotEarly(p: Pass)
    requires p.env.LiveCount() > 0 && p.env.failures == {}
    ensures !FailsEarly(p)
  {
  }

  /** An abandoned reconcile had no live cluster, a failing step, a failing tick in its log, or
      an allocation that panicked. */
  lemma AbortsForAReason(p: Pass, log: seq<Event>)
    requires Reconciled(p, Aborted, log) && p.env.LiveCount() > 0 && p.env.failures == {}
    requires forall e :: e in log ==> e.Outcome().next.Some?
    ensures p.Observed() && Stuck(p)
  {
    NotEarly(p);
    if p.Began() {
      NoFailureIsLogged(p);
    }
  }

  lemma NoFailureIsLogged(p: Pass)
    requires p.Began() && forall e :: e in p.Log() ==> e.Outcome().next.Some?
    ensures TicksSucceed(p.loaded, p.env)
  {
    forall t | t in p.loaded ensures Handle(p.loaded[t], p.env.TickOf(t)).next.Some? {
      if Handle(p.loaded[t], p.env.TickOf(t)).next.None? {
        FailingLogEnds(p.loaded, p.ticking, p.env, t);
      }
    }
  }

  lemma {:induction false} FailingLogEnds(v: Views, order: seq<Tag>, env: Env, t: Tag)
    requires forall u :: u in order ==> u in v
    requires t in order && Handle(v[t], env.TickOf(t)).next.None?
    ensures exists e :: e in TickLog(v, order, env) && e.Outcome().next.None?
  {
    var e := Event(v[order[0]], env.TickOf(order[0]));
    assert TickLog(v, order, env)[0] == e;
    if e.Outcome().next.Some? {
      FailingLogEnds(v, order[1..], env, t);
      var f :| f in TickLog(v, order[1..], env) && f.Outcome().next.None?;
      assert f in TickLog(v, order, env);
    }
  }

  /** From the ticks to what is saved. */
  method TickToSave(ic: IncarnationCollection, env: Env, gate: Gate, ghost start: Pass)
    returns (verdict: Verdict, ghost p: Pass, ghost log: seq<Event>)
    requires ic.Valid() && start.Started() && !NoRevisions(start.loaded) && Enters(start)
    requires start.env == env && gate == start.TheGate() && ic.Snapshot() == start.loaded
    modifies ic.Repr
    ensures p.saved == start.saved && p.env == env && Reconciled(p, verdict, log)
  {
    var ok;
    ghost var order;
    ok, order, log := TickAndLog(ic, env, start);
    p := start.(ticking := order);
    if !ok || Observing in env.failures {
      return Aborted, p, log;
    }
    verdict, p := ObserveToSave(ic, env, gate, p);
  }

  method ObserveToSave(ic: IncarnationCollection, env: Env, gate: Gate, ghost start: Pass)
    returns (verdict: Verdict, ghost p: Pass)
    requires ic.Valid() && start.Began() && Enters(start) && Observing !in env.failures
    requires start.env == env && gate == start.TheGate()
    requires TicksSucceed(start.loaded, env) && ic.Snapshot() == AfterTicks(start.loaded, env)
    modifies ic.Repr
    ensures p.saved == start.saved && p.env == env && p.Began() && p.Log() == start.Log()
    ensures !verdict.Gone? && Reconciled(p, verdict, p.Log())
  {
    ghost var observed := ObserveAgain(ic, env, start);
    ghost var q;
    verdict, q := PlaceToSave(ic, env, gate, start.(observed := observed));
    p := WithPlacement(start.(observed := observed), q);
    StillLogs(start, observed, q);
  }

  /** From the second observation to what is saved. */
  method PlaceToSave(ic: IncarnationCollection, env: Env, gate: Gate, ghost start: Pass)
    returns (verdict: Verdict, ghost q: Placement)
    requires ic.Valid() && start.Observed() && Enters(start) && Observing !in env.failures
    requires start.env == env && gate == start.TheGate() && ic.Snapshot() == start.observed
    modifies ic.Repr
    ensures match verdict
            case Gone => false
            case Aborted => Excused(WithPlacement(start, q))
            case SavedAs(rs) => WithPlacement(start, q).Completed(rs) && !Excused(WithPlacement(start, q))
  {
    var ok;
    ok, q := PlaceTraffic(ic, env, gate, start);
    StillObserved(start, q);
    if !ok {
      return Aborted, q;
    }
    PlacedHasRevisions(WithPlacement(start, q));
    CollectorIsNeverEmpty(WithPlacement(start, q));
    PlacedMayFailLate(WithPlacement(start, q));
    var rs := FinishAndSave(ic, env, q.after);
    verdict := if rs.None? then Aborted else SavedAs(rs.value);
  }

  lemma PlacedMayFailLate(p: Pass)
    requires p.Placed() && Enters(p) && Observing !in p.env.failures
    requires Applying !in p.env.failures || !AnyToRoute(p.observed)
    ensures Excused(p) <==> FailsLate(p.env)
  {
  }

  lemma StillLogs(start: Pass, observed: Views, q: Placement)
    requires start.Began()
    ensures var p := WithPlacement(start.(observed := observed), q); p.Began() && p.Log() == start.Log()
  {
  }

  lemma PlacedHasRevisions(p: Pass)
    requires p.Placed()
    ensures RevisionsPresent(p.divided)
  {
    NothingIsMissing(p);
  }

  // ---------------------------------------------------------------- garbage

  function CandidateOf(inc: Inc): Retention.Candidate {
    Retention.Candidate(inc.tag, inc.status.state, GitTime(inc), inc.status.ttl)
  }

  function Candidates(v: Views, order: seq<Tag>): (r: seq<Retention.Candidate>)
    requires forall t :: t in order ==> t in v
    ensures |r| == |order|
  {
    seq(|order|, i requires 0 <= i < |order| => CandidateOf(v[order[i]]))
  }

  /** What the retention strategy leaves to be deleted of a collection. */
  ghost predicate GarbageOf(v: Views, order: seq<Tag>, sorted: seq<Retention.Candidate>,
                            garbage: seq<Retention.Candidate>, now: Time)
  {
    && SortedOrder(v, order) && v != map[]
    && multiset(sorted) == multiset(Candidates(v, order)) && Retention.NewestFirst(sorted) && sorted != []
    && garbage == Retention.Spared(Retention.Garbage(sorted, |sorted|, now), |sorted|)
  }

  /** What the strategy sees of each member: its state, its commit time, zero where the revision
      is gone, and the time to live that is saved with it. */
  lemma CandidatesAre(v: Views, order: seq<Tag>, i: nat)
    requires i < |order| && forall t :: t in order ==> t in v
    ensures var c, inc := Candidates(v, order)[i], v[order[i]];
            && c.tag == inc.tag && c.state == inc.status.state && c.ttl == inc.status.ttl
            && c.createdOn == (if inc.revision.Some? then inc.revision.value.gitTimestamp else ZERO_TIME)
  {
  }

  /** Whatever is collected is a member that is retired, failed, being deleted or deleted, and
      whose commit is longer ago than its time to live. */
  lemma CollectedIsPast(v: Views, garbage: seq<Retention.Candidate>, now: Time, c: Retention.Candidate)
    requires Tagged(v) && MayCollect(v, garbage, now) && c in garbage
    ensures c.tag in v
    ensures var inc := v[c.tag];
            && inc.status.state in {Retired, Deleting, Deleted, State.Failed}
            && now > (if inc.revision.Some? then inc.revision.value.gitTimestamp else ZERO_TIME) + inc.status.ttl
  {
    var order: seq<Tag>, sorted: seq<Retention.Candidate> :| GarbageOf(v, order, sorted, garbage, now);
    assert c in Retention.Garbage(sorted, |sorted|, now);
    Retention.GarbageIsPast(sorted, |sorted|, c, now);
    assert c in multiset(Candidates(v, order));
    var i :| 0 <= i < |order| && Candidates(v, order)[i] == c;
    CandidatesAre(v, order, i);
    assert order[i] in order;
  }

  /** A reconcile that reaches its garbage collection has members to look at. */
  lemma CollectorIsNeverEmpty(p: Pass)
    requires p.Placed()
    ensures p.divided != map[]
    ensures forall order :: SortedOrder(p.divided, order) ==> Candidates(p.divided, order) != []
  {
    var t :| t in p.loaded && p.loaded[t].revision.Some?;
    assert t in AfterTicks(p.loaded, p.env);
    SyncingKeepsMembers(p.observed, p.divided, p.weights, p.allocating, p.TheGate(), p.env.now);
    assert t in p.divided;
    forall order | SortedOrder(p.divided, order) ensures Candidates(p.divided, order) != [] {
      ListedIsNotEmpty(p.divided, order);
    }
  }

  lemma SyncingKeepsMembers(before: Views, after: Views, weights: Weights, order: seq<Tag>, gate: Gate, now: Time)
    requires AppSynced(before, after, weights, order, gate, now)
    ensures after.Keys == before.Keys
  {
  }

  ghost predicate MayCollect(v: Views, garbage: seq<Retention.Candidate>, now: Time) {
    exists order: seq<Tag>, sorted: seq<Retention.Candidate> :: GarbageOf(v, order, sorted, garbage, now)
  }

  method CandidatesOf(ic: IncarnationCollection, items: seq<Incarnation>) returns (candidates: seq<Retention.Candidate>)
    requires ic.Valid() && ic.Owns(items)
    ensures candidates == Candidates(ic.Snapshot(), Tags(items))
  {
    candidates := [];
    for i := 0 to |items|
      invariant candidates == Candidates(ic.Snapshot(), Tags(items)[..i])
    {
      assert ic.Snapshot()[items[i].tag] == items[i].View();
      assert Tags(items)[..i + 1] == Tags(items)[..i] + [items[i].tag];
      candidates := candidates + [CandidateOf(items[i].View())];
    }
    assert Tags(items)[..|items|] == Tags(items);
  }

  /** markGarbage: the strategy panics on an empty list, and this one is not. */
  method CollectGarbage(ic: IncarnationCollection, now: Time) returns (garbage: seq<Retention.Candidate>)
    requires ic.Valid() && ic.Snapshot() != map[]
    ensures MayCollect(ic.Snapshot(), garbage, now)
  {
    var items := ic.Sorted();
    var candidates := CandidatesOf(ic, items);
    ListedIsNotEmpty(ic.Snapshot(), Tags(items));
    ghost var sorted;
    garbage, sorted := FindGarbage(candidates, now);
    CollectsThese(ic.Snapshot(), Tags(items), candidates, sorted, garbage, now);
  }

  lemma CollectsThese(v: Views, order: seq<Tag>, candidates: seq<Retention.Candidate>, sorted: seq<Retention.Candidate>,
                      garbage: seq<Retention.Candidate>, now: Time)
    requires SortedOrder(v, order) && v != map[] && candidates == Candidates(v, order)
    requires multiset(sorted) == multiset(candidates) && Retention.NewestFirst(sorted) && sorted != []
    requires garbage == Retention.Spared(Retention.Garbage(sorted, |sorted|, now), |sorted|)
    ensures MayCollect(v, garbage, now)
  {
    assert GarbageOf(v, order, sorted, garbage, now);
  }

  method FindGarbage(candidates: seq<Retention.Candidate>, now: Time)
    returns (garbage: seq<Retention.Candidate>, ghost sorted: seq<Retention.Candidate>)
    requires candidates != []
    ensures multiset(sorted) == multiset(candidates) && Retention.NewestFirst(sorted) && sorted != []
    ensures garbage == Retention.Spared(Retention.Garbage(sorted, |sorted|, now), |sorted|)
  {
    var found;
    found, sorted := Retention.DefaultStrategy(candidates, now);
    garbage := found.value;
    assert |multiset(sorted)| == |sorted|;
  }

  lemma ListedIsNotEmpty(v: Views, order: seq<Tag>)
    requires SortedOrder(v, order) && v != map[]
    ensures order != []
  {
    var t :| t in v;
    assert t in order;
  }

  /** Collect garbage, record, save. */
  method FinishAndSave(ic: IncarnationCollection, env: Env, ghost v: Views) returns (rs: Option<seq<Status>>)
    requires ic.Valid() && ic.Snapshot() == v && v != map[] && RevisionsPresent(v)
    ensures rs.None? <==> FailsLate(env)
    ensures rs.Some? ==> exists order :: SavesAs(v, order, rs.value)
  {
    if Finishing in env.failures {
      return None;
    }
    var garbage := CollectGarbage(ic, env.now);
    if Marking in env.failures {
      return None;
    }
    var statuses := RecordStatuses(ic);
    rs := if Saving in env.failures then None else Some(statuses);
  }

  lemma NotBegun(p: Pass)
    requires p.ticking == []
    ensures !p.Began()
  {
    if !NoRevisions(p.loaded) {
      var t :| t in p.loaded && p.loaded[t].revision.Some?;
      assert t !in p.ticking;
    }
  }

  lemma EndsUnread(p: Pass)
    requires p.ticking == [] && (Loading in p.env.failures || p.env.LiveCount() == 0)
    ensures Reconciled(p, Aborted, [])
  {
    NotBegun(p);
  }

  lemma EndsBeforeTicks(p: Pass, verdict: Verdict)
    requires p.ticking == [] && p.Started() && p.env.LiveCount() > 0 && Loading !in p.env.failures
    requires var step := if NoRevisions(p.loaded) then Removing else Preparing;
             match verdict
             case Gone => NoRevisions(p.loaded) && step !in p.env.failures
             case Aborted => step in p.env.failures
             case SavedAs(_) => false
    ensures Reconciled(p, verdict, [])
  {
    NotBegun(p);
  }

  /** `p` and `log` are what the reconcile read and what its ticks attempted. */
  method Reconcile(saved: seq<Status>, env: Env) returns (verdict: Verdict, ghost p: Pass, ghost log: seq<Event>)
    ensures p.saved == saved && p.env == env && Reconciled(p, verdict, log)
  {
    p := Pass(saved, env, [], map[], [], map[], [], map[], map[]);
    log := [];
    if Loading in env.failures || env.LiveCount() == 0 {
      EndsUnread(p);
      return Aborted, p, log;
    }
    var ic;
    ic, p := Start(saved, env);
    var any := AnyRevision(ic);
    if !any || Preparing in env.failures {
      verdict := if any || Removing in env.failures then Aborted else Gone;
      EndsBeforeTicks(p, verdict);
      return verdict, p, log;
    }
    verdict, p, log := TickToSave(ic, env, GateOf(Controller(saved, env.clusters)), p);
  }
}
