/** What holds on every run of reconciles from nothing, whatever the clusters, the clock and
    the settings do, and wherever a reconcile stops before it saves. */
module Runs {
  import opened Base
  import opened Types
  import opened StateMachine
  import Transitions
  import opened Collections
  import opened Allocator
  import opened Preparation
  import opened Ticks
  import opened Reconciling
  import opened Lineage

  /** The persisted statuses, and the ticks so far: all that were attempted, and those of
      the reconciles that saved. */
  datatype World = World(now: Time, saved: seq<Status>, attempted: seq<Event>, committed: seq<Event>)

  datatype Turn = Turn(p: Pass, verdict: Verdict, log: seq<Event>)

  function After(w: World, turn: Turn): World {
    var now, attempted := turn.p.env.now, w.attempted + turn.log;
    match turn.verdict
    case Gone => World(now, [], attempted, w.committed)
    case Aborted => World(now, w.saved, attempted, w.committed)
    case SavedAs(rs) => World(now, rs, attempted, w.committed + turn.log)
  }

  /** One reconcile. Time does not run backwards; everything else is arbitrary. */
  ghost predicate Round(w: World, turn: Turn, w': World) {
    && turn.p.saved == w.saved
    && w.now <= turn.p.env.now
    && Reconciled(turn.p, turn.verdict, turn.log)
    && w' == After(w, turn)
  }

  ghost predicate RoundAt(ws: seq<World>, turns: seq<Turn>, i: nat) {
    i < |turns| && i + 1 < |ws| && Round(ws[i], turns[i], ws[i + 1])
  }

  ghost predicate Run(ws: seq<World>, turns: seq<Turn>) {
    && |ws| == |turns| + 1
    && ws[0].saved == [] && ws[0].attempted == [] && ws[0].committed == []
    && forall i :: 0 <= i < |turns| ==> RoundAt(ws, turns, i)
  }

  // ---------------------------------------------------------------- traffic is safe

  predicate SafeStatus(s: Status) { TrafficFollowsState(s) && s.currentPercent <= 100 }

  ghost predicate SafeEvent(e: Event) { HarmlessEffects(e.before, e.Outcome().effects) }

  /** Nobody with traffic is retired, deleted or synced without replicas. */
  ghost predicate Safe(w: World) {
    && (forall k :: 0 <= k < |w.saved| ==> SafeStatus(w.saved[k]))
    && (forall e :: e in w.attempted ==> SafeEvent(e))
  }

  lemma LoadedIsSafe(p: Pass, t: Tag)
    requires WellLoaded(p, t) && forall k :: 0 <= k < |p.saved| ==> SafeStatus(p.saved[k])
    ensures SafeStatus(p.loaded[t].status)
  {
    var s := p.loaded[t].status;
    if !Blank(s) {
      var k :| 0 <= k < |p.saved| && Carried(p.saved[k], s);
    }
  }

  /** A tick may leave traffic on a canary that has just finished; settling takes it away. */
  lemma SettlingIsSafe(d: Inc, env: TickEnv, s: Status)
    requires SafeStatus(d.status) && Settled(Ticked(d, env).status, s)
    ensures SafeStatus(s)
  {
    TickKeepsIdentity(d, env);
    if d.status.currentPercent > 0 {
      TickMovesTraffic(d, env);
    }
  }

  lemma RoundIsSafe(w: World, turn: Turn, w': World)
    requires Safe(w) && Round(w, turn, w')
    ensures Safe(w')
  {
    var p := turn.p;
    forall e | e in turn.log ensures SafeEvent(e) {
      LoggedDescends(p, e);
      LoadedIsSafe(p, e.before.tag);
      TickIsHarmless(e.before, e.env);
    }
    if turn.verdict.SavedAs? {
      var rs := turn.verdict.statuses;
      forall k | 0 <= k < |rs| ensures SafeStatus(rs[k]) {
        SavedDescend(p, rs, k);
        LoadedIsSafe(p, rs[k].tag);
        SettlingIsSafe(p.loaded[rs[k].tag], p.env.TickOf(rs[k].tag), rs[k]);
      }
    }
  }

  /** On every run, a positive percent means a state that carries traffic, and a tick
      retires, deletes or syncs without replicas only what carries none. */
  lemma {:induction false} TrafficIsSafe(ws: seq<World>, turns: seq<Turn>, n: nat)
    requires Run(ws, turns) && n <= |turns|
    ensures Safe(ws[n])
  {
    if n > 0 {
      TrafficIsSafe(ws, turns, n - 1);
      SafeAfter(ws, turns, n - 1);
    }
  }

  lemma SafeAfter(ws: seq<World>, turns: seq<Turn>, i: nat)
    requires Run(ws, turns) && i < |turns| && Safe(ws[i])
    ensures Safe(ws[i + 1])
  {
    assert RoundAt(ws, turns, i);
    RoundIsSafe(ws[i], turns[i], ws[i + 1]);
  }

  // ---------------------------------------------------------------- the allocation never panics

  /** What is listed for traffic has a linear or a geometric strategy. */
  ghost predicate KnownStrategies(p: Pass) {
    forall t :: t in p.observed && IsReleasable(p.observed[t]) ==> Scales(p.observed[t])
  }

  lemma ObservedPercentFits(p: Pass, t: Tag)
    requires p.Observed() && t in p.observed && forall k :: 0 <= k < |p.saved| ==> SafeStatus(p.saved[k])
    ensures p.observed[t].status.currentPercent <= 100
  {
    ObservedMember(p, t);
    LoadedMember(p, t);
    LoadedIsSafe(p, t);
    TickKeepsIdentity(p.loaded[t], p.env.TickOf(t));
  }

  lemma ListedAreOrderly(v: Views, order: seq<Tag>)
    requires ReleasableOrder(v, order)
    requires forall t :: t in v ==> v[t].status.currentPercent <= 100
    requires forall t :: t in v && IsReleasable(v[t]) ==> Scales(v[t])
    ensures Orderly(InOrder(v, order))
  {
    forall i | 0 <= i < |order| ensures Scales(v[order[i]]) && FitsInt32(v[order[i]]) {
      assert order[i] in order;
    }
  }

  lemma SafePassIsNeverStuck(p: Pass)
    requires p.Observed() && KnownStrategies(p) && forall k :: 0 <= k < |p.saved| ==> SafeStatus(p.saved[k])
    ensures !Stuck(p)
  {
    forall t | t in p.observed ensures p.observed[t].status.currentPercent <= 100 {
      ObservedPercentFits(p, t);
    }
    if ReleasableOrder(p.observed, p.allocating) {
      ListedAreOrderly(p.observed, p.allocating);
      OrderlyNeverTrips(InOrder(p.observed, p.allocating), p.TheGate(), p.env.now);
    }
  }

  /** On every run, the allocation of a reconcile never panics while what it lists has known
      strategies, whatever was listed before. */
  lemma AllocationNeverPanics(ws: seq<World>, turns: seq<Turn>, n: nat)
    requires Run(ws, turns) && n < |turns|
    requires turns[n].p.Observed() && KnownStrategies(turns[n].p)
    ensures !Stuck(turns[n].p)
  {
    TrafficIsSafe(ws, turns, n);
    assert RoundAt(ws, turns, n);
    SafePassIsNeverStuck(turns[n].p);
  }

  /** On every run, a reconcile of a fleet with live clusters, where no step fails and what is
      listed has known strategies, is abandoned only by a tick that failed. */
  lemma OnlyFailuresAbandon(ws: seq<World>, turns: seq<Turn>, n: nat)
    requires Run(ws, turns) && n < |turns|
    requires turns[n].p.env.LiveCount() > 0 && turns[n].p.env.failures == {}
    requires turns[n].p.Observed() ==> KnownStrategies(turns[n].p)
    ensures turns[n].verdict.Aborted? <==> exists e :: e in turns[n].log && e.Outcome().next.None?
  {
    assert RoundAt(ws, turns, n);
    var p, log := turns[n].p, turns[n].log;
    match turns[n].verdict
    case Gone =>
      assert log == [];
    case SavedAs(rs) =>
      SavesOnlyWhatSucceeds(p, rs, log);
    case Aborted =>
      if forall e :: e in log ==> e.Outcome().next.Some? {
        AbortsForAReason(p, log);
        AllocationNeverPanics(ws, turns, n);
      }
  }

  // ---------------------------------------------------------------- no release without a canary

  /** The revision's settings configure this canary whenever it is there. */
  predicate CanaryFixed(turn: Turn, tag: Tag, canary: Canary) {
    tag in turn.p.env.revisions ==>
      var target := turn.p.env.revisions[tag].target;
      target.canary == canary && canary.percent != 0 && canary.ttl != 0 && target.objectives != 0
  }

  /** A tick that found the revision canarying with traffic, at the given time. */
  predicate Starts(e: Event, tag: Tag, start: Time) {
    && e.before.tag == tag
    && e.before.status.state == Canarying
    && e.before.status.currentPercent > 0
    && e.env.now == start
  }

  ghost predicate StartLogged(log: seq<Event>, tag: Tag, start: Option<Time>) {
    start.Some? ==> exists e :: e in log && Starts(e, tag, start.value)
  }

  ghost predicate CanaryRespected(s: Status, canary: Canary, now: Time, log: seq<Event>) {
    && (PastCanary(s.state) ==> CanaryServed(s, canary, now))
    && StartLogged(log, s.tag, s.canaryStart)
  }

  ghost predicate CanaryFollowed(w: World, tag: Tag, canary: Canary) {
    forall k :: 0 <= k < |w.saved| && w.saved[k].tag == tag ==> CanaryRespected(w.saved[k], canary, w.now, w.committed)
  }

  lemma LoadedRespectsCanary(p: Pass, t: Tag, canary: Canary, now: Time, log: seq<Event>)
    requires WellLoaded(p, t) && now <= p.env.now
    requires forall k :: 0 <= k < |p.saved| && p.saved[k].tag == t ==> CanaryRespected(p.saved[k], canary, now, log)
    ensures CanaryRespected(p.loaded[t].status, canary, p.env.now, log)
  {
    var s := p.loaded[t].status;
    if !Blank(s) {
      var k :| 0 <= k < |p.saved| && Carried(p.saved[k], s);
    }
  }

  lemma LongerLogStillStarts(log: seq<Event>, more: seq<Event>, tag: Tag, start: Option<Time>)
    requires StartLogged(log, tag, start)
    ensures StartLogged(log + more, tag, start)
  {
    if start.Some? {
      var e :| e in log && Starts(e, tag, start.value);
      assert e in log + more;
    }
  }

  lemma TickRespectsCanary(d: Inc, env: TickEnv, s: Status, canary: Canary, log: seq<Event>, more: seq<Event>)
    requires d.revision.Some? ==>
               d.revision.value.target.ConfiguresCanary() && d.revision.value.target.canary == canary
    requires d.tag == d.status.tag && TrafficFollowsState(d.status) && CanaryRespected(d.status, canary, env.now, log)
    requires Event(d, env) in more && Settled(Ticked(d, env).status, s)
    ensures CanaryRespected(s, canary, env.now, log + more)
  {
    TickServesCanary(d, env, canary);
    TickStartsClock(d, env);
    LongerLogStillStarts(log, more, d.tag, d.status.canaryStart);
    if s.canaryStart != d.status.canaryStart {
      assert Event(d, env) in log + more;
      assert Starts(Event(d, env), s.tag, s.canaryStart.value);
    }
  }

  lemma SavedRespectsCanary(w: World, turn: Turn, w': World, k: nat, canary: Canary)
    requires Safe(w) && Round(w, turn, w') && turn.verdict.SavedAs? && k < |w'.saved|
    requires CanaryFixed(turn, w'.saved[k].tag, canary) && CanaryFollowed(w, w'.saved[k].tag, canary)
    ensures CanaryRespected(w'.saved[k], canary, w'.now, w'.committed)
  {
    var p, s := turn.p, w'.saved[k];
    SavedDescend(p, w'.saved, k);
    LoadedIsSafe(p, s.tag);
    LoadedRespectsCanary(p, s.tag, canary, w.now, w.committed);
    EveryTickIsLogged(p, s.tag);
    TickRespectsCanary(p.loaded[s.tag], p.env.TickOf(s.tag), s, canary, w.committed, turn.log);
  }

  lemma RoundFollowsCanary(w: World, turn: Turn, w': World, tag: Tag, canary: Canary)
    requires Safe(w) && Round(w, turn, w') && CanaryFixed(turn, tag, canary) && CanaryFollowed(w, tag, canary)
    ensures CanaryFollowed(w', tag, canary)
  {
    forall k | 0 <= k < |w'.saved| && w'.saved[k].tag == tag
      ensures CanaryRespected(w'.saved[k], canary, w'.now, w'.committed)
    {
      if turn.verdict.SavedAs? {
        SavedRespectsCanary(w, turn, w', k, canary);
      }
    }
  }

  /** On every run in which a revision's canary stays configured as it is, whatever is past
      its canary has served the full time, counted from a tick that found it canarying with
      traffic. */
  lemma {:induction false} NoReleaseWithoutCanary(ws: seq<World>, turns: seq<Turn>, n: nat, tag: Tag, canary: Canary)
    requires Run(ws, turns) && n <= |turns|
    requires forall i :: 0 <= i < |turns| ==> CanaryFixed(turns[i], tag, canary)
    ensures CanaryFollowed(ws[n], tag, canary)
  {
    if n > 0 {
      NoReleaseWithoutCanary(ws, turns, n - 1, tag, canary);
      TrafficIsSafe(ws, turns, n - 1);
      CanaryFollowedAfter(ws, turns, n - 1, tag, canary);
    }
  }

  lemma CanaryFollowedAfter(ws: seq<World>, turns: seq<Turn>, i: nat, tag: Tag, canary: Canary)
    requires Run(ws, turns) && i < |turns| && Safe(ws[i])
    requires CanaryFixed(turns[i], tag, canary) && CanaryFollowed(ws[i], tag, canary)
    ensures CanaryFollowed(ws[i + 1], tag, canary)
  {
    assert RoundAt(ws, turns, i);
    RoundFollowsCanary(ws[i], turns[i], ws[i + 1], tag, canary);
  }

  // ---------------------------------------------------------------- no traffic before tests pass

  predicate Exits(e: Event, tag: Tag) {
    && e.before.tag == tag
    && e.Outcome().next.Some?
    && IsExit(e.before.status.state, e.Outcome().next.value)
  }

  /** The external test is over and has succeeded, or there is none. */
  predicate TestsAllow(d: Inc) {
    && d.revision.Some?
    && var test := d.revision.value.target.externalTest;
       if test.completed then test.succeeded else !test.started && !test.enabled
  }

  /** The most recent tick that took the revision from deployed or tested toward traffic. */
  function LastExit(log: seq<Event>, tag: Tag): (r: Option<Event>)
    ensures r.Some? ==> exists i :: 0 <= i < |log| && log[i] == r.value && Exits(r.value, tag)
                                    && forall j :: i < j < |log| ==> !Exits(log[j], tag)
    ensures r.None? ==> forall e :: e in log ==> !Exits(e, tag)
  {
    if log == [] then None
    else if Exits(log[|log| - 1], tag) then Some(log[|log| - 1])
    else
      assert log == log[..|log| - 1] + [log[|log| - 1]];
      LastExit(log[..|log| - 1], tag)
  }

  ghost predicate Exited(log: seq<Event>, tag: Tag) { exists e :: e in log && Exits(e, tag) }

  predicate OnTheWay(s: Status) { s.currentPercent > 0 || TowardTraffic(s.state) }

  ghost predicate ExitsLogged(w: World) {
    forall k :: 0 <= k < |w.saved| && OnTheWay(w.saved[k]) ==> Exited(w.committed, w.saved[k].tag)
  }

  lemma TickOnTheWay(d: Inc, env: TickEnv, s: Status)
    requires d.tag == d.status.tag && Settled(Ticked(d, env).status, s) && OnTheWay(s)
    ensures OnTheWay(d.status) || Exits(Event(d, env), d.tag)
  {
    TickExitsAfterTests(d, env);
    TickKeepsIdentity(d, env);
  }

  lemma LoadedHasExited(p: Pass, t: Tag, log: seq<Event>)
    requires WellLoaded(p, t) && OnTheWay(p.loaded[t].status)
    requires forall k :: 0 <= k < |p.saved| && OnTheWay(p.saved[k]) ==> Exited(log, p.saved[k].tag)
    ensures Exited(log, t)
  {
    var s := p.loaded[t].status;
    var k :| 0 <= k < |p.saved| && Carried(p.saved[k], s);
    assert OnTheWay(p.saved[k]);
  }

  lemma LongerLogStillExits(log: seq<Event>, more: seq<Event>, e: Event, tag: Tag)
    requires Exited(log, tag) || (e in more && Exits(e, tag))
    ensures Exited(log + more, tag)
  {
    if Exited(log, tag) {
      var e' :| e' in log && Exits(e', tag);
      assert e' in log + more;
    } else {
      assert e in log + more;
    }
  }

  lemma SavedHasExited(w: World, turn: Turn, w': World, k: nat)
    requires ExitsLogged(w) && Round(w, turn, w') && turn.verdict.SavedAs?
    requires k < |w'.saved| && OnTheWay(w'.saved[k])
    ensures Exited(w'.committed, w'.saved[k].tag)
  {
    var p, s := turn.p, w'.saved[k];
    SavedDescend(p, w'.saved, k);
    TickOnTheWay(p.loaded[s.tag], p.env.TickOf(s.tag), s);
    EveryTickIsLogged(p, s.tag);
    if OnTheWay(p.loaded[s.tag].status) {
      LoadedHasExited(p, s.tag, w.committed);
    }
    LongerLogStillExits(w.committed, turn.log, Event(p.loaded[s.tag], p.env.TickOf(s.tag)), s.tag);
  }

  lemma RoundLogsExits(w: World, turn: Turn, w': World)
    requires ExitsLogged(w) && Round(w, turn, w')
    ensures ExitsLogged(w')
  {
    forall k | 0 <= k < |w'.saved| && OnTheWay(w'.saved[k]) ensures Exited(w'.committed, w'.saved[k].tag) {
      if turn.verdict.SavedAs? {
        SavedHasExited(w, turn, w', k);
      }
    }
  }

  lemma {:induction false} ExitsAreLogged(ws: seq<World>, turns: seq<Turn>, n: nat)
    requires Run(ws, turns) && n <= |turns|
    ensures ExitsLogged(ws[n])
  {
    if n > 0 {
      ExitsAreLogged(ws, turns, n - 1);
      ExitsLoggedAfter(ws, turns, n - 1);
    }
  }

  lemma ExitsLoggedAfter(ws: seq<World>, turns: seq<Turn>, i: nat)
    requires Run(ws, turns) && i < |turns| && ExitsLogged(ws[i])
    ensures ExitsLogged(ws[i + 1])
  {
    assert RoundAt(ws, turns, i);
    RoundLogsExits(ws[i], turns[i], ws[i + 1]);
  }

  /** On every run, whatever carries traffic left the deployed or tested state, and did so
      the last time at a tick that saw its external test neither outstanding nor failed. */
  lemma NoTrafficBeforeTests(ws: seq<World>, turns: seq<Turn>, n: nat, k: nat)
    requires Run(ws, turns) && n <= |turns| && k < |ws[n].saved|
    requires ws[n].saved[k].currentPercent > 0
    ensures var exit := LastExit(ws[n].committed, ws[n].saved[k].tag);
            exit.Some? && TestsAllow(exit.value.before)
  {
    ExitsAreLogged(ws, turns, n);
    assert OnTheWay(ws[n].saved[k]);
    var exit := LastExit(ws[n].committed, ws[n].saved[k].tag);
    ExitsAfterTests(exit.value, ws[n].saved[k].tag);
  }

  lemma ExitsAfterTests(e: Event, tag: Tag)
    requires Exits(e, tag)
    ensures TestsAllow(e.before)
  {
    Transitions.ToCanarying(e.before, e.env);
    Transitions.ToPendingRelease(e.before, e.env);
  }
}
