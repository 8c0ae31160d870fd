/** What leaves the saved list has been deleted: nothing of it stays in the clusters because
    its status was forgotten. */
module Removals {
  import opened Types
  import opened StateMachine
  import opened Collections
  import opened Ticks
  import opened Records
  import opened Reconciling
  import opened Lineage
  import opened Transitions
  import opened Runs

  ghost predicate NoneDeleted(saved: seq<Status>) { forall k :: 0 <= k < |saved| ==> saved[k].state != Deleted }

  /** A tick of a revision that was being deleted, in which all of the deletion succeeded. */
  predicate Deletes(e: Event, tag: Tag) {
    && e.before.tag == tag
    && e.before.revision.None?
    && e.before.status.state == Deleting
    && e.before.status.currentPercent == 0
    && e.Outcome().effects == [DeleteCanaryRules, DeleteTaggedServiceLevels, Delete]
    && Succeed(e.Outcome().effects, e.env)
  }

  lemma LoadedIsNotDeleted(p: Pass, t: Tag)
    requires WellLoaded(p, t) && NoneDeleted(p.saved)
    ensures p.loaded[t].status.state != Deleted
  {
  }

  lemma OnlyDeletingIsDeleted(d: Inc, env: TickEnv)
    requires d.status.state != Deleted && Ticked(d, env).status.state == Deleted
    ensures d.revision.None? && Deletes(Event(d, env), d.tag)
  {
    ToDeleted(d, env);
    TickTouchesOnlyTheState(d, env);
    TickDoesItsWork(d, env);
  }

  lemma TickedMember(p: Pass, t: Tag)
    requires p.Placed() && t in p.divided && NoneDeleted(p.saved)
    ensures t in p.loaded && p.divided[t].status.state == AfterTick(p, t).status.state
    ensures p.divided[t].status.state == Deleted ==>
              IsDropped(p.divided[t]) && Deletes(Event(p.loaded[t], p.env.TickOf(t)), t)
  {
    DividedMember(p, t);
    LoadedIsNotDeleted(p, t);
    if p.divided[t].status.state == Deleted {
      OnlyDeletingIsDeleted(p.loaded[t], p.env.TickOf(t));
    }
  }

  /** Which members are saved. */
  lemma SavedUnlessDropped(v: Views, order: seq<Tag>, rs: seq<Status>, t: Tag)
    requires Tagged(v) && SavesAs(v, order, rs) && t in v
    ensures (exists k :: 0 <= k < |rs| && rs[k].tag == t) <==> !IsDropped(v[t])
  {
    var kept, c := SavedList(v, order);
    assert forall k :: 0 <= k < |rs| ==> rs[k].tag == kept[k].tag;
    if !IsDropped(v[t]) {
      var k :| 0 <= k < |kept| && kept[k] == v[t].status;
      assert rs[k].tag == t;
    }
  }

  lemma SavedAreNotDeleted(p: Pass, rs: seq<Status>, k: nat)
    requires p.Completed(rs) && k < |rs| && NoneDeleted(p.saved)
    ensures rs[k].state != Deleted
  {
    DividedIsTagged(p);
    var order :| SavesAs(p.divided, order, rs);
    var kept, c := SavedList(p.divided, order);
    assert kept[k] == p.divided[kept[k].tag].status && !IsDropped(p.divided[kept[k].tag]);
    TickedMember(p, kept[k].tag);
    assert rs[k] == kept[k] || rs[k] == Recommissioned(kept[k]);
  }

  lemma RoundSavesNoneDeleted(w: World, turn: Turn, w': World)
    requires NoneDeleted(w.saved) && Round(w, turn, w')
    ensures NoneDeleted(w'.saved)
  {
    if turn.verdict.SavedAs? {
      forall k | 0 <= k < |w'.saved| ensures w'.saved[k].state != Deleted {
        SavedAreNotDeleted(turn.p, w'.saved, k);
      }
    }
  }

  lemma NoneDeletedAfter(ws: seq<World>, turns: seq<Turn>, i: nat)
    requires Run(ws, turns) && i < |turns| && NoneDeleted(ws[i].saved)
    ensures NoneDeleted(ws[i + 1].saved)
  {
    assert RoundAt(ws, turns, i);
    RoundSavesNoneDeleted(ws[i], turns[i], ws[i + 1]);
  }

  lemma {:induction false} NoneSavedAsDeleted(ws: seq<World>, turns: seq<Turn>, n: nat)
    requires Run(ws, turns) && n <= |turns|
    ensures NoneDeleted(ws[n].saved)
  {
    if n > 0 {
      NoneSavedAsDeleted(ws, turns, n - 1);
      NoneDeletedAfter(ws, turns, n - 1);
    }
  }

  predicate Listed(saved: seq<Status>, tag: Tag) { exists j :: 0 <= j < |saved| && saved[j].tag == tag }

  lemma DroppedWasDeleted(p: Pass, rs: seq<Status>, k: nat)
    requires p.Completed(rs) && NoneDeleted(p.saved) && k < |p.saved|
    requires !Listed(rs, p.saved[k].tag)
    ensures exists e :: e in p.Log() && Deletes(e, p.saved[k].tag)
  {
    var t := p.saved[k].tag;
    TagIsSaved(p.saved, k);
    SavedIsPlaced(p, t);
    DividedIsTagged(p);
    var order :| SavesAs(p.divided, order, rs);
    SavedUnlessDropped(p.divided, order, rs, t);
    TickedMember(p, t);
    EveryTickIsLogged(p, t);
  }

  lemma SavedIsPlaced(p: Pass, t: Tag)
    requires p.Placed() && t in SavedTags(p.saved)
    ensures t in p.divided
  {
    assert t in p.Read();
    ObservedMember(p, t);
    SyncedSettles(p.observed, p.divided, p.weights, p.allocating, t, p.TheGate(), p.env.now);
  }

  /** On every run, a tag that a saving reconcile leaves out of its list was being deleted
      until then, and all of the deletion succeeded in a tick of that reconcile. */
  lemma RemovedOnlyWhenDeleted(ws: seq<World>, turns: seq<Turn>, n: nat, k: nat)
    requires Run(ws, turns) && n < |turns| && turns[n].verdict.SavedAs? && k < |ws[n].saved|
    requires !Listed(ws[n + 1].saved, ws[n].saved[k].tag)
    ensures exists e :: e in turns[n].log && e in ws[n + 1].committed && Deletes(e, ws[n].saved[k].tag)
  {
    NoneSavedAsDeleted(ws, turns, n);
    assert RoundAt(ws, turns, n);
    DroppedWasDeleted(turns[n].p, ws[n + 1].saved, k);
    var e :| e in turns[n].p.Log() && Deletes(e, ws[n].saved[k].tag);
    assert e in turns[n].log && e in ws[n + 1].committed;
  }
}
