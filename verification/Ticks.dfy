/** The ticks of one reconcile: tickIncarnations in controllers/syncer.go. The first tick
    that fails ends the reconcile. */
module Ticks {
  import opened Types
  import opened Replicas
  import opened StateMachine
  import opened Observation
  import opened Incarnations
  import opened Collections

  /** The steps of a reconcile, besides the ticks, that reach out and can fail: reading what
      there is, removing a release manager without revisions, what precedes the ticks, the second
      observation, the routers, what follows them, marking the garbage, and saving. */
  datatype Step = Loading | Removing | Preparing | Observing | Applying | Finishing | Marking | Saving

  /** Everything a reconcile reads from outside. The clock stands still while it runs. */
  datatype Env = Env(
    now: Time,
    revisions: map<Tag, Revision>,
    clusters: seq<ClusterInfo>,
    before: seq<ReplicaSet>,
    after: seq<ReplicaSet>,
    ticks: Tag -> TickEnv,
    failures: set<Step>)
  {
    function TickOf(tag: Tag): TickEnv { ticks(tag).(now := now) }

    function LiveCount(): nat { Count(clusters, true) }
  }

  /** A tick that was attempted: the revision as it was, and what the tick could not see. */
  datatype Event = Event(before: Inc, env: TickEnv)
  {
    function Outcome(): Outcome { Handle(before, env) }
  }

  /** The ticks attempted in this order, up to the first that fails. */
  function TickLog(v: Views, order: seq<Tag>, env: Env): seq<Event>
    requires forall t :: t in order ==> t in v
  {
    if order == [] then []
    else
      var e := Event(v[order[0]], env.TickOf(order[0]));
      if e.Outcome().next.None? then [e] else [e] + TickLog(v, order[1..], env)
  }

  function AfterTicks(v: Views, env: Env): Views { map t | t in v :: Ticked(v[t], env.TickOf(t)) }

  predicate TicksSucceed(v: Views, env: Env) { forall t :: t in v ==> Handle(v[t], env.TickOf(t)).next.Some? }

  lemma {:induction false} LogHolds(v: Views, order: seq<Tag>, env: Env, e: Event)
    requires forall t :: t in order ==> t in v
    requires e in TickLog(v, order, env)
    ensures exists t :: t in order && e == Event(v[t], env.TickOf(t))
  {
    if e != Event(v[order[0]], env.TickOf(order[0])) {
      LogHolds(v, order[1..], env, e);
      var t :| t in order[1..] && e == Event(v[t], env.TickOf(t));
      assert t in order;
    } else {
      assert order[0] in order;
    }
  }

  lemma {:induction false} LogIsComplete(v: Views, order: seq<Tag>, env: Env, t: Tag)
    requires forall u :: u in order ==> u in v && Handle(v[u], env.TickOf(u)).next.Some?
    requires t in order
    ensures Event(v[t], env.TickOf(t)) in TickLog(v, order, env)
  {
    if t != order[0] {
      LogIsComplete(v, order[1..], env, t);
    }
  }

  /** `i` of the listed members have ticked; `log` is what was attempted. */
  datatype Ticking = Ticking(v: Views, order: seq<Tag>, i: nat, env: Env, log: seq<Event>)
  {
    ghost predicate Logged() {
      && i <= |order|
      && (forall t :: t in order ==> t in v)
      && log + TickLog(v, order[i..], env) == TickLog(v, order, env)
    }

    ghost function Next(): Ticking
      requires i < |order| && order[i] in v
    {
      Ticking(v, order, i + 1, env, log + [Event(v[order[i]], env.TickOf(order[i]))])
    }
  }

  ghost predicate TickedTo(ic: IncarnationCollection, g: Ticking)
    reads ic, ic.Repr
  {
    && ic.Valid() && ic.itemSet.Keys == g.v.Keys && g.i <= |g.order|
    && (forall t :: t in g.v ==>
          ic.itemSet[t].View() == if t in g.order[..g.i] then Ticked(g.v[t], g.env.TickOf(t)) else g.v[t])
    && (forall t :: t in g.order[..g.i] && t in g.v ==> Handle(g.v[t], g.env.TickOf(t)).next.Some?)
  }

  method TickIncarnations(ic: IncarnationCollection, env: Env)
    returns (ok: bool, ghost order: seq<Tag>, ghost log: seq<Event>)
    requires ic.Valid()
    modifies ic.Repr
    ensures ic.Valid() && SortedOrder(old(ic.Snapshot()), order)
    ensures log == TickLog(old(ic.Snapshot()), order, env)
    ensures ok <==> TicksSucceed(old(ic.Snapshot()), env)
    ensures ok ==> ic.Snapshot() == AfterTicks(old(ic.Snapshot()), env)
  {
    ghost var v := ic.Snapshot();
    var sorted := ic.Sorted();
    order := Tags(sorted);
    ghost var g := Ticking(v, order, 0, env, []);
    NothingHasTicked(ic, g);
    ok, g := TickAll(ic, sorted, env, g);
    log := g.log;
    if ok {
      AllHaveTicked(ic, g);
    } else {
      SomeTickFails(v, order[g.i], env);
    }
  }

  lemma NothingHasTicked(ic: IncarnationCollection, g: Ticking)
    requires ic.Valid() && g == Ticking(ic.Snapshot(), g.order, 0, g.env, [])
    requires forall t :: t in g.order ==> t in g.v
    ensures TickedTo(ic, g) && g.Logged()
  {
    assert g.order[0..] == g.order;
  }

  lemma SomeTickFails(v: Views, t: Tag, env: Env)
    requires t in v && Handle(v[t], env.TickOf(t)).next.None?
    ensures !TicksSucceed(v, env)
  {
  }

  method TickAll(ic: IncarnationCollection, sorted: seq<Incarnation>, env: Env, ghost start: Ticking)
    returns (ok: bool, ghost g: Ticking)
    requires ic.Owns(sorted) && Distinct(Tags(sorted)) && TickedTo(ic, start) && start.Logged()
    requires start == Ticking(start.v, Tags(sorted), 0, env, [])
    modifies ic.Repr
    ensures ic.Valid()
    ensures g == Ticking(start.v, Tags(sorted), g.i, env, g.log)
    ensures ok ==> TickedTo(ic, g) && g.Logged() && g.i == |sorted|
    ensures !ok ==> g.i < |sorted| && g.log == TickLog(g.v, g.order, env)
                    && Handle(g.v[g.order[g.i]], env.TickOf(g.order[g.i])).next.None?
  {
    g := start;
    var i := 0;
    while i < |sorted|
      invariant i <= |sorted| && ic.Owns(sorted)
      invariant TickedTo(ic, g) && g.Logged()
      invariant g == Ticking(start.v, Tags(sorted), i, env, g.log)
    {
      LogNext(g);
      var ticked := TickMember(ic, sorted, i, env, g);
      if !ticked {
        return false, Ticking(g.v, g.order, i, env, g.Next().log);
      }
      g := g.Next();
      i := i + 1;
    }
    ok := true;
  }

  lemma AllHaveTicked(ic: IncarnationCollection, g: Ticking)
    requires TickedTo(ic, g) && g.Logged() && g.i == |g.order|
    requires forall t :: t in g.v ==> t in g.order
    ensures g.log == TickLog(g.v, g.order, g.env)
    ensures TicksSucceed(g.v, g.env) && ic.Snapshot() == AfterTicks(g.v, g.env)
  {
    assert g.order[..g.i] == g.order && g.order[g.i..] == [];
  }

  lemma LogNext(g: Ticking)
    requires g.i < |g.order| && g.Logged()
    ensures var t := g.order[g.i];
            if Handle(g.v[t], g.env.TickOf(t)).next.None? then g.Next().log == TickLog(g.v, g.order, g.env)
            else g.Next().Logged()
  {
    assert g.order[g.i..][1..] == g.order[g.i + 1..];
  }

  lemma NotYetListed(order: seq<Tag>, i: nat)
    requires Distinct(order) && i < |order|
    ensures order[i] !in order[..i]
  {
  }

  method TickMember(ic: IncarnationCollection, sorted: seq<Incarnation>, i: nat, env: Env, ghost g: Ticking)
    returns (ok: bool)
    requires i < |sorted| && ic.Owns(sorted) && Distinct(Tags(sorted))
    requires TickedTo(ic, g) && g == Ticking(g.v, Tags(sorted), i, env, g.log)
    modifies ic.Repr
    ensures ic.Valid()
    ensures ok <==> Handle(g.v[sorted[i].tag], env.TickOf(sorted[i].tag)).next.Some?
    ensures ok ==> TickedTo(ic, g.Next())
  {
    var item := sorted[i];
    assert g.order[..i + 1] == g.order[..i] + [item.tag];
    NotYetListed(g.order, i);
    assert item.View() == g.v[item.tag];
    var outcome := item.Tick(env.TickOf(item.tag));
    ok := outcome.next.Some?;
    forall t | t in g.v && t != item.tag ensures ic.itemSet[t] != item {
      assert ic.itemSet[t].tag == t;
    }
  }
}
