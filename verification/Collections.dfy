/** The incarnations of one release manager, and the selections the reconcile makes
    among them: IncarnationCollection in controllers/incarnation.go. */
module Collections {
  import opened Base
  import opened Types
  import opened Observation
  import opened Incarnations

  type Views = map<Tag, Inc>

  // ---------------------------------------------------------------- orders

  function GitTime(inc: Inc): Time { if inc.revision.Some? then inc.revision.value.gitTimestamp else ZERO_TIME }

  function CreatedTime(inc: Inc): Time { if inc.revision.Some? then inc.revision.value.created else ZERO_TIME }

  /** Commit time decides, creation time breaks ties; equal on both, either may come first. */
  predicate Newer(a: Inc, b: Inc) {
    GitTime(a) > GitTime(b) || (GitTime(a) == GitTime(b) && CreatedTime(a) > CreatedTime(b))
  }

  /** In commit times, and in creation times where those are equal: the first is not older.
      Without a revision both are the zero time. */
  predicate NotOlder(a: Option<Revision>, b: Option<Revision>) {
    match (a, b)
    case (Some(x), Some(y)) =>
      x.gitTimestamp > y.gitTimestamp || (x.gitTimestamp == y.gitTimestamp && x.created >= y.created)
    case (Some(x), None) => x.gitTimestamp > ZERO_TIME || (x.gitTimestamp == ZERO_TIME && x.created >= ZERO_TIME)
    case (None, Some(y)) => ZERO_TIME > y.gitTimestamp || (ZERO_TIME == y.gitTimestamp && ZERO_TIME >= y.created)
    case (None, None) => true
  }

  lemma NewerMeans(a: Inc, b: Inc)
    ensures Newer(a, b) <==> !NotOlder(b.revision, a.revision)
  {
  }

  predicate Distinct(order: seq<Tag>) { forall i, j :: 0 <= i < j < |order| ==> order[i] != order[j] }

  predicate NewestFirst(v: Views, order: seq<Tag>) {
    && (forall t :: t in order ==> t in v)
    && (forall i, j :: 0 <= i < j < |order| ==> !Newer(v[order[j]], v[order[i]]))
  }

  /** Any order in which sorted() may list the whole collection. */
  predicate SortedOrder(v: Views, order: seq<Tag>) {
    Distinct(order) && NewestFirst(v, order) && forall t :: t in v ==> t in order
  }

  /** Canaries first, then releases, then revisions that still drain traffic. */
  function Rank(s: State): int {
    match s
    case Canarying => 0
    case Releasing | Released => 1
    case Retiring | Deleting | Failing => 2
    case _ => 3
  }

  predicate IsReleasable(inc: Inc) {
    var r := Rank(inc.status.state);
    r < 2 || (r == 2 && inc.status.currentPercent > 0)
  }

  /** Any order in which releasable() may list the collection. */
  ghost predicate ReleasableOrder(v: Views, order: seq<Tag>) {
    && Distinct(order)
    && (forall t :: t in order <==> t in v && IsReleasable(v[t]))
    && (forall i, j :: 0 <= i < j < |order| ==>
          Rank(v[order[i]].status.state) <= Rank(v[order[j]].status.state))
    && (forall i, j :: 0 <= i < j < |order| && Rank(v[order[i]].status.state) == Rank(v[order[j]].status.state) ==>
          !Newer(v[order[j]], v[order[i]]))
  }

  predicate IsDeployedState(s: State) {
    s in {Deployed, PendingTest, Testing, Tested, PendingRelease, Releasing, Released, Canarying, Canaried}
  }

  function DeployedTags(v: Views): set<Tag> { set t | t in v && IsDeployedState(v[t].status.state) }

  function RevisionedTags(v: Views): set<Tag> { set t | t in v && v[t].revision.Some? }

  /** The revision that takes traffic over from the others: the first releasable one
      that is not a canary. */
  function RampingTag(v: Views, order: seq<Tag>): Option<Tag>
    requires forall t :: t in order ==> t in v
  {
    if order == [] then None
    else if v[order[0]].status.state != Canaried && v[order[0]].status.state != Canarying then Some(order[0])
    else RampingTag(v, order[1..])
  }

  function WithRamping(v: Views, order: seq<Tag>): Views
    requires forall t :: t in order ==> t in v
  {
    map t | t in v :: if RampingTag(v, order) == Some(t) then v[t].(isRamping := true) else v[t]
  }

  lemma WithRampingIs(v: Views, order: seq<Tag>)
    requires forall t :: t in order ==> t in v
    ensures match RampingTag(v, order)
            case None => WithRamping(v, order) == v
            case Some(t) => t in v && WithRamping(v, order) == v[t := v[t].(isRamping := true)]
  {
  }

  // ---------------------------------------------------------------- listings by age

  /** A sorted listing goes by commit time, and by creation time where that is equal. */
  lemma SortedByAge(v: Views, order: seq<Tag>, i: nat, j: nat)
    requires NewestFirst(v, order) && i < j < |order|
    ensures NotOlder(v[order[i]].revision, v[order[j]].revision)
    ensures v[order[i]].revision.Some? && v[order[j]].revision.Some? ==>
              && v[order[i]].revision.value.gitTimestamp >= v[order[j]].revision.value.gitTimestamp
              && (v[order[i]].revision.value.gitTimestamp == v[order[j]].revision.value.gitTimestamp ==>
                    v[order[i]].revision.value.created >= v[order[j]].revision.value.created)
  {
    assert order[i] in order && order[j] in order;
    NewerMeans(v[order[j]], v[order[i]]);
  }

  /** Among releasable members canaries come first, then releases, then those that drain, and
      within each of these the newer. */
  lemma ReleasableByAge(v: Views, order: seq<Tag>, i: nat, j: nat)
    requires ReleasableOrder(v, order) && i < j < |order|
    ensures order[i] in v && order[j] in v
    ensures var a, b := v[order[i]].status.state, v[order[j]].status.state;
            && (b == Canarying ==> a == Canarying)
            && (b in {Releasing, Released} ==> a in {Canarying, Releasing, Released})
            && ((a == Canarying && b == Canarying) || (a in {Releasing, Released} && b in {Releasing, Released})
                || (a in {Retiring, Deleting, Failing} && b in {Retiring, Deleting, Failing}) ==>
                  NotOlder(v[order[i]].revision, v[order[j]].revision))
  {
    assert order[i] in order && order[j] in order;
    NewerMeans(v[order[j]], v[order[i]]);
  }

  /** What is releasable: canaries, releases, and what still drains traffic. */
  lemma ReleasableAre(v: Views, order: seq<Tag>, t: Tag)
    requires ReleasableOrder(v, order)
    ensures t in order
       <==> t in v && (v[t].status.state in {Canarying, Releasing, Released}
                       || (v[t].status.state in {Retiring, Deleting, Failing} && v[t].status.currentPercent > 0))
  {
  }

  /** The release with the greatest commit time is the one that is flagged. */
  lemma NewestReleaseIsFlagged(v: Views, order: seq<Tag>, p: Tag)
    requires ReleasableOrder(v, order) && p in v && v[p].revision.Some? && v[p].status.state in {Releasing, Released}
    requires forall t :: t in v && t != p && v[t].status.state in {Releasing, Released} ==>
      v[p].revision.value.gitTimestamp > (if v[t].revision.Some? then v[t].revision.value.gitTimestamp else ZERO_TIME)
    ensures RampingTag(v, order) == Some(p)
  {
    ReleasableAre(v, order, p);
    var i :| 0 <= i < |order| && order[i] == p;
    forall k | 0 <= k < i ensures v[order[k]].status.state == Canarying {
      assert order[k] in order && order[k] != p;
      ReleasableByAge(v, order, k, i);
    }
    FirstNonCanaryRamps(v, order, i);
  }

  /** The flag goes to the first that is listed after canaries only. */
  lemma {:induction false} FirstNonCanaryRamps(v: Views, order: seq<Tag>, i: nat)
    requires i < |order| && forall t :: t in order ==> t in v
    requires forall k :: 0 <= k < i ==> v[order[k]].status.state == Canarying
    requires v[order[i]].status.state != Canarying && v[order[i]].status.state != Canaried
    ensures RampingTag(v, order) == Some(order[i])
  {
    if i > 0 {
      assert v[order[0]].status.state == Canarying;
      FirstNonCanaryRamps(v, order[1..], i - 1);
    }
  }

  // ---------------------------------------------------------------- loading

  function LiveInfo(observation: seq<ReplicaSet>, tag: Tag): Option<DeploymentInfo> {
    var info := Summary(observation, tag);
    if info.Some? then Some(info.value.live) else None
  }

  function SavedTags(saved: seq<Status>): set<Tag> { set s | s in saved :: s.tag }

  function Lookup<V>(m: map<Tag, V>, tag: Tag): Option<V> { if tag in m then Some(m[tag]) else None }

  function LoadedViews(saved: seq<Status>, revisions: map<Tag, Revision>, observation: seq<ReplicaSet>,
                       liveCount: nat, now: Time): Views
  {
    map t | t in revisions.Keys + SavedTags(saved) ::
      Loaded(saved, t, Lookup(revisions, t), LiveInfo(observation, t), liveCount, now)
  }

  /** What a collection is loaded from. */
  datatype Source = Source(
    saved: seq<Status>,
    revisions: map<Tag, Revision>,
    observation: seq<ReplicaSet>,
    liveCount: nat,
    now: Time)
  {
    function Load(tag: Tag): Inc {
      Loaded(saved, tag, Lookup(revisions, tag), LiveInfo(observation, tag), liveCount, now)
    }
  }

  /** The tag's entry is what loading it gives. */
  lemma TakenFrom(all: set<Tag>, rest: set<Tag>, t: Tag)
    requires rest <= all && t in rest
    ensures all - (rest - {t}) == (all - rest) + {t}
  {
  }

  /** Every one of these statuses has its tag among these. */
  predicate SavedIn(saved: seq<Status>, tags: set<Tag>) { forall k :: 0 <= k < |saved| ==> saved[k].tag in tags }

  lemma OneMoreSaved(saved: seq<Status>, n: nat, tags: set<Tag>)
    requires n < |saved| && SavedIn(saved[..n], tags)
    ensures SavedIn(saved[..n + 1], tags + {saved[n].tag})
  {
    forall k | 0 <= k < n + 1 ensures saved[k].tag in tags + {saved[n].tag} {
      if k < n {
        assert saved[..n][k] == saved[k];
      }
    }
  }

  predicate LoadsAs(v: Views, tag: Tag, src: Source) { tag in v && v[tag] == src.Load(tag) }

  function ObservedViews(v: Views, observation: seq<ReplicaSet>, liveCount: nat, now: Time): Views {
    map t | t in v :: Observed(v[t], LiveInfo(observation, t), liveCount, now)
  }

  // ---------------------------------------------------------------- the collection

  lemma {:induction false} NewestExists(v: Views, rest: set<Tag>)
    requires rest != {} && rest <= v.Keys
    ensures exists t :: t in rest && forall u :: u in rest ==> !Newer(v[u], v[t])
  {
    var t :| t in rest;
    if rest == {t} {
      assert forall u :: u in rest ==> !Newer(v[u], v[t]);
    } else {
      var others := rest - {t};
      NewestExists(v, others);
      var best :| best in others && forall u :: u in others ==> !Newer(v[u], v[best]);
      var winner := if Newer(v[t], v[best]) then t else best;
      assert forall u :: u in rest ==> !Newer(v[u], v[winner]) by {
        forall u | u in rest ensures !Newer(v[u], v[winner]) {
          assert u == t || u in others;
        }
      }
    }
  }

  lemma EveryTagSaved(saved: seq<Status>, tags: set<Tag>)
    requires SavedIn(saved, tags)
    ensures SavedTags(saved) <= tags
  {
  }

  lemma TagIsSaved(saved: seq<Status>, k: nat)
    requires k < |saved|
    ensures saved[k].tag in SavedTags(saved)
  {
  }

  /** The newest part has been listed, the rest is still to come. */
  ghost predicate PartlySorted(v: Views, order: seq<Tag>, rest: set<Tag>) {
    && Distinct(order)
    && NewestFirst(v, order)
    && rest <= v.Keys
    && (forall t :: t in v ==> (t in rest <==> t !in order))
    && (forall i, t :: 0 <= i < |order| && t in rest ==> !Newer(v[t], v[order[i]]))
  }

  lemma PickNewest(v: Views, order: seq<Tag>, rest: set<Tag>, t: Tag)
    requires PartlySorted(v, order, rest)
    requires t in rest && forall u :: u in rest ==> !Newer(v[u], v[t])
    ensures PartlySorted(v, order + [t], rest - {t})
  {
    var longer := order + [t];
    assert forall i :: 0 <= i < |order| ==> longer[i] in order;
  }

  /** The part of a listing that is kept. */
  ghost function Keep(order: seq<Tag>, keep: set<Tag>): seq<Tag> {
    if order == [] then []
    else
      var front := Keep(order[..|order| - 1], keep);
      if order[|order| - 1] in keep then front + [order[|order| - 1]] else front
  }

  lemma KeepOneMore(order: seq<Tag>, i: nat, keep: set<Tag>)
    requires i < |order|
    ensures Keep(order[..i + 1], keep) == Keep(order[..i], keep) + (if order[i] in keep then [order[i]] else [])
  {
    assert order[..i + 1][..i] == order[..i];
  }

  lemma {:induction false} KeepKeepsOrder(v: Views, order: seq<Tag>, keep: set<Tag>)
    requires Distinct(order) && NewestFirst(v, order)
    ensures var kept := Keep(order, keep);
            && Distinct(kept) && NewestFirst(v, kept)
            && forall t :: t in kept <==> t in order && t in keep
  {
    if order != [] {
      var front, last := order[..|order| - 1], order[|order| - 1];
      KeepKeepsOrder(v, front, keep);
      assert forall t :: t in order <==> t in front || t == last;
      var kept := Keep(front, keep);
      forall i | 0 <= i < |kept| ensures kept[i] != last && !Newer(v[last], v[kept[i]]) {
        assert kept[i] in front;
        var k :| 0 <= k < |front| && front[k] == kept[i];
        assert order[k] == kept[i];
      }
    }
  }

  lemma KeepFacts(v: Views, order: seq<Tag>, keep: set<Tag>)
    requires SortedOrder(v, order) && keep <= v.Keys
    ensures var kept := Keep(order[..|order|], keep);
            && Distinct(kept) && NewestFirst(v, kept)
            && forall t :: t in kept <==> t in keep
  {
    assert order[..|order|] == order;
    KeepKeepsOrder(v, order, keep);
  }

  function RankedTags(v: Views, rank: int): set<Tag> {
    set t | t in v && Rank(v[t].status.state) == rank && IsReleasable(v[t])
  }

  function Tags(items: seq<Incarnation>): seq<Tag> {
    seq(|items|, i requires 0 <= i < |items| => items[i].tag)
  }

  class IncarnationCollection {
    var itemSet: map<Tag, Incarnation>
    ghost var Repr: set<Incarnation>

    ghost predicate Valid()
      reads this
    {
      forall t :: t in itemSet ==> itemSet[t] in Repr && itemSet[t].tag == t
    }

    ghost function Snapshot(): Views
      requires Valid()
      reads this, Repr
    {
      map t | t in itemSet :: itemSet[t].View()
    }

    /** The items are members of the collection. */
    ghost predicate Owns(items: seq<Incarnation>)
      reads this
    {
      forall i :: 0 <= i < |items| ==> items[i].tag in itemSet && itemSet[items[i].tag] == items[i]
    }

    constructor ()
      ensures Valid() && itemSet == map[] && Repr == {}
    {
      itemSet := map[];
      Repr := {};
    }

    /** The members listed so far are as they should be. */
    ghost predicate Agrees(v: Views)
      requires Valid()
      reads this, Repr
    {
      forall t :: t in itemSet ==> t in v && itemSet[t].View() == v[t]
    }

    /** newIncarnationCollection: every revision, then the statuses left without one. */
    method Load(saved: seq<Status>, revisions: map<Tag, Revision>, observation: seq<ReplicaSet>,
                liveCount: nat, now: Time)
      requires Valid() && itemSet == map[] && Repr == {}
      modifies this
      ensures Valid() && fresh(Repr)
      ensures Snapshot() == LoadedViews(saved, revisions, observation, liveCount, now)
    {
      var src := Source(saved, revisions, observation, liveCount, now);
      ghost var v := LoadedViews(saved, revisions, observation, liveCount, now);
      LoadRevisions(src, v);
      forall k | 0 <= k < |saved| ensures LoadsAs(v, saved[k].tag, src) {
        TagIsSaved(saved, k);
      }
      LoadStatuses(src, v);
      EveryTagSaved(saved, itemSet.Keys);
      AgreesEverywhere(v);
    }

    lemma AgreesEverywhere(v: Views)
      requires Valid() && Agrees(v) && itemSet.Keys == v.Keys
      ensures Snapshot() == v
    {
    }

    method LoadRevisions(src: Source, ghost v: Views)
      requires Valid() && itemSet == map[]
      requires forall t :: t in src.revisions ==> LoadsAs(v, t, src)
      modifies this
      ensures Valid() && fresh(Repr - old(Repr))
      ensures itemSet.Keys == src.revisions.Keys && Agrees(v)
    {
      var rest := src.revisions.Keys;
      while rest != {}
        invariant Valid() && fresh(Repr - old(Repr)) && rest <= src.revisions.Keys
        invariant itemSet.Keys == src.revisions.Keys - rest
        invariant Agrees(v)
      {
        var t :| t in rest;
        TakenFrom(src.revisions.Keys, rest, t);
        Add(t, src, v);
        rest := rest - {t};
      }
    }

    method LoadStatuses(src: Source, ghost v: Views)
      requires Valid() && Agrees(v)
      requires forall k :: 0 <= k < |src.saved| ==> LoadsAs(v, src.saved[k].tag, src)
      modifies this
      ensures Valid() && fresh(Repr - old(Repr))
      ensures Agrees(v) && old(itemSet.Keys) <= itemSet.Keys
      ensures SavedIn(src.saved, itemSet.Keys)
    {
      for i := 0 to |src.saved|
        invariant Valid() && fresh(Repr - old(Repr)) && Agrees(v)
        invariant old(itemSet.Keys) <= itemSet.Keys
        invariant SavedIn(src.saved[..i], itemSet.Keys)
      {
        OneMoreSaved(src.saved, i, itemSet.Keys);
        AddMissing(src.saved[i].tag, src, v);
      }
      assert src.saved[..|src.saved|] == src.saved;
    }

    method AddMissing(tag: Tag, src: Source, ghost v: Views)
      requires Valid() && Agrees(v) && LoadsAs(v, tag, src)
      modifies this
      ensures Valid() && fresh(Repr - old(Repr))
      ensures itemSet.Keys == old(itemSet.Keys) + {tag}
      ensures Agrees(v)
    {
      if tag !in itemSet {
        Add(tag, src, v);
      }
    }

    method Add(tag: Tag, src: Source, ghost v: Views)
      requires Valid() && Agrees(v) && LoadsAs(v, tag, src)
      modifies this
      ensures Valid() && fresh(Repr - old(Repr))
      ensures itemSet.Keys == old(itemSet.Keys) + {tag}
      ensures Agrees(v)
    {
      var live := LiveInfo(src.observation, tag);
      var item := new Incarnation(src.saved, tag, Lookup(src.revisions, tag), live, src.liveCount, src.now);
      assert item.View() == v[tag];
      itemSet := itemSet[tag := item];
      Repr := Repr + {item};
    }

    /** Newest first; Go's map order makes ties arbitrary. */
    method Sorted() returns (r: seq<Incarnation>)
      requires Valid()
      ensures Owns(r) && SortedOrder(Snapshot(), Tags(r))
    {
      r := [];
      var rest := itemSet.Keys;
      ghost var v := Snapshot();
      while rest != {}
        invariant rest <= itemSet.Keys
        invariant Owns(r) && PartlySorted(v, Tags(r), rest)
      {
        var t := Newest(rest);
        PickNewest(v, Tags(r), rest, t);
        r := AppendMember(r, t);
        rest := rest - {t};
      }
    }

    function AppendMember(r: seq<Incarnation>, t: Tag): (r': seq<Incarnation>)
      requires Valid() && Owns(r) && t in itemSet
      reads this, Repr
      ensures Owns(r') && Tags(r') == Tags(r) + [t]
    {
      r + [itemSet[t]]
    }

    method Newest(rest: set<Tag>) returns (t: Tag)
      requires Valid() && rest != {} && rest <= itemSet.Keys
      ensures t in rest && forall u :: u in rest ==> !Newer(Snapshot()[u], Snapshot()[t])
    {
      NewestExists(Snapshot(), rest);
      t :| t in rest && forall u :: u in rest ==> !Newer(itemSet[u].View(), itemSet[t].View());
    }

    lemma IsDeployedMember(item: Incarnation)
      requires Valid() && Owns([item])
      ensures item.tag in DeployedTags(Snapshot()) <==> IsDeployedState(item.status.state)
    {
      assert [item][0] == item;
      assert Snapshot()[item.tag] == item.View();
    }

    method Deployed() returns (r: seq<Incarnation>)
      requires Valid()
      ensures Owns(r) && Distinct(Tags(r)) && NewestFirst(Snapshot(), Tags(r))
      ensures forall t :: t in Tags(r) <==> t in DeployedTags(Snapshot())
    {
      var sorted := Sorted();
      ghost var keep := DeployedTags(Snapshot());
      r := [];
      for i := 0 to |sorted|
        invariant Owns(r) && Tags(r) == Keep(Tags(sorted)[..i], keep)
      {
        KeepOneMore(Tags(sorted), i, keep);
        IsDeployedMember(sorted[i]);
        if IsDeployedState(sorted[i].status.state) {
          r := AppendMember(r, sorted[i].tag);
        }
      }
      KeepFacts(Snapshot(), Tags(sorted), keep);
    }

    lemma IsRevisioned(item: Incarnation)
      requires Valid() && Owns([item])
      ensures item.tag in RevisionedTags(Snapshot()) <==> item.revision.Some?
    {
      assert [item][0] == item;
      assert Snapshot()[item.tag] == item.View();
    }

    method Revisioned() returns (r: seq<Incarnation>)
      requires Valid()
      ensures Owns(r)
      ensures forall t :: t in Tags(r) <==> t in itemSet && Snapshot()[t].revision.Some?
    {
      var sorted := Sorted();
      ghost var keep := RevisionedTags(Snapshot());
      r := [];
      for i := 0 to |sorted|
        invariant Owns(r) && Tags(r) == Keep(Tags(sorted)[..i], keep)
      {
        KeepOneMore(Tags(sorted), i, keep);
        IsRevisioned(sorted[i]);
        if sorted[i].revision.Some? {
          r := AppendMember(r, sorted[i].tag);
        }
      }
      KeepFacts(Snapshot(), Tags(sorted), keep);
    }

    lemma IsRanked(item: Incarnation, rank: int)
      requires Valid() && Owns([item])
      ensures item.tag in RankedTags(Snapshot(), rank)
         <==> Rank(item.status.state) == rank && (rank < 2 || (rank == 2 && item.status.currentPercent > 0))
    {
      assert [item][0] == item;
      assert Snapshot()[item.tag] == item.View();
    }

    /** The members of one rank that releasable() lists, newest first. */
    method Ranked(rank: int) returns (r: seq<Incarnation>)
      requires Valid()
      ensures Owns(r) && RankOrder(Snapshot(), Tags(r), rank)
    {
      var sorted := Sorted();
      ghost var keep := RankedTags(Snapshot(), rank);
      r := [];
      for i := 0 to |sorted|
        invariant Owns(r) && Tags(r) == Keep(Tags(sorted)[..i], keep)
      {
        KeepOneMore(Tags(sorted), i, keep);
        var item := sorted[i];
        IsRanked(item, rank);
        if Rank(item.status.state) == rank && (rank < 2 || (rank == 2 && item.status.currentPercent > 0)) {
          r := AppendMember(r, item.tag);
        }
      }
      KeepFacts(Snapshot(), Tags(sorted), keep);
    }

    lemma TagsConcatenate(a: seq<Incarnation>, b: seq<Incarnation>, c: seq<Incarnation>)
      ensures Tags(a + b + c) == Tags(a) + Tags(b) + Tags(c)
    {
    }

    method Releasable() returns (r: seq<Incarnation>)
      requires Valid()
      ensures Owns(r) && ReleasableOrder(Snapshot(), Tags(r))
    {
      var canaries := Ranked(0);
      var releases := Ranked(1);
      var draining := Ranked(2);
      r := canaries + releases + draining;
      ConcatenatedRanks(Snapshot(), Tags(canaries), Tags(releases), Tags(draining));
      TagsConcatenate(canaries, releases, draining);
    }

    method Unreleasable() returns (r: seq<Incarnation>)
      requires Valid()
      ensures Owns(r) && Distinct(Tags(r))
      ensures forall t :: t in Tags(r) <==> t in itemSet && !IsReleasable(Snapshot()[t])
    {
      var releasable := Releasable();
      var releasableTags: set<Tag> := set t | t in Tags(releasable);
      var sorted := Sorted();
      ghost var keep := itemSet.Keys - releasableTags;
      r := [];
      for i := 0 to |sorted|
        invariant Owns(r) && Tags(r) == Keep(Tags(sorted)[..i], keep)
      {
        KeepOneMore(Tags(sorted), i, keep);
        if sorted[i].tag !in releasableTags {
          r := AppendMember(r, sorted[i].tag);
        }
      }
      KeepFacts(Snapshot(), Tags(sorted), keep);
    }

    /** The last step of newIncarnationCollection: flag the revision that ramps. */
    method MarkRamping() returns (ghost order: seq<Tag>)
      requires Valid()
      modifies Repr
      ensures ReleasableOrder(old(Snapshot()), order)
      ensures Valid() && Snapshot() == WithRamping(old(Snapshot()), order)
    {
      var sorted := Releasable();
      order := Tags(sorted);
      ghost var v := Snapshot();
      var i := FirstRampable(sorted);
      WithRampingIs(v, order);
      if i < |sorted| {
        Flag(sorted[i], v);
      }
    }

    method FirstRampable(sorted: seq<Incarnation>) returns (i: nat)
      requires Valid() && Owns(sorted)
      ensures i <= |sorted|
      ensures RampingTag(Snapshot(), Tags(sorted)) == if i < |sorted| then Some(sorted[i].tag) else None
    {
      ghost var order := Tags(sorted);
      i := 0;
      while i < |sorted|
        invariant i <= |sorted|
        invariant RampingTag(Snapshot(), order) == RampingTag(Snapshot(), order[i..])
      {
        assert order[i..][0] == sorted[i].tag && order[i..][1..] == order[i + 1..];
        assert Snapshot()[sorted[i].tag] == sorted[i].View();
        if sorted[i].status.state != Canaried && sorted[i].status.state != Canarying {
          return;
        }
        i := i + 1;
      }
      assert order[|sorted|..] == [];
    }

    method Flag(inc: Incarnation, ghost v: Views)
      requires Valid() && Snapshot() == v
      requires inc.tag in itemSet && itemSet[inc.tag] == inc
      modifies Repr
      ensures Valid() && Snapshot() == v[inc.tag := v[inc.tag].(isRamping := true)]
    {
      inc.isRamping := true;
      forall t | t in itemSet && t != inc.tag ensures itemSet[t].View() == v[t] {
        assert itemSet[t].tag == t;
      }
    }

    method Update(observation: seq<ReplicaSet>, liveCount: nat, now: Time)
      requires Valid()
      modifies Repr
      ensures Valid() && Snapshot() == ObservedViews(old(Snapshot()), observation, liveCount, now)
    {
      var rest := itemSet.Keys;
      ghost var v := Snapshot();
      while rest != {}
        invariant Valid() && rest <= itemSet.Keys
        invariant forall t :: t in itemSet ==>
          itemSet[t].View() == if t in rest then v[t] else Observed(v[t], LiveInfo(observation, t), liveCount, now)
      {
        var t :| t in rest;
        rest := rest - {t};
        var live := LiveInfo(observation, t);
        itemSet[t].Update(live, liveCount, now);
      }
    }
  }

  ghost predicate RankOrder(v: Views, order: seq<Tag>, rank: int) {
    && Distinct(order)
    && NewestFirst(v, order)
    && (forall t :: t in order <==> t in v && Rank(v[t].status.state) == rank && IsReleasable(v[t]))
  }

  lemma ConcatenatedRanks(v: Views, a: seq<Tag>, b: seq<Tag>, c: seq<Tag>)
    requires RankOrder(v, a, 0) && RankOrder(v, b, 1) && RankOrder(v, c, 2)
    ensures ReleasableOrder(v, a + b + c)
  {
    var order := a + b + c;
    forall i | 0 <= i < |order|
      ensures Rank(v[order[i]].status.state) == if i < |a| then 0 else if i < |a| + |b| then 1 else 2
    {
      assert order[i] in if i < |a| then a else if i < |a| + |b| then b else c;
    }
    forall t | t in v && IsReleasable(v[t]) ensures t in order {
      assert t in a || t in b || t in c;
    }
  }
}
