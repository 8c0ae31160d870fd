/** The statuses a reconcile saves: the end of sync in controllers/syncer.go. */
module Records {
  import opened Types
  import opened Incarnations
  import opened Collections

  predicate IsDropped(inc: Inc) { inc.status.state == Deleted && inc.revision.None? }

  predicate MayBeGood(s: State) { s in {Deploying, Deployed, PendingRelease, Releasing, Released} }

  predicate IsRetired(s: State) { s == Retired || s == Retiring }

  /** An unfailed release that has carried traffic. Its revision must be there. */
  predicate IsGood(inc: Inc)
    requires MayBeGood(inc.status.state) ==> inc.revision.Some?
  {
    MayBeGood(inc.status.state) && !inc.revision.value.failedAt && inc.status.peakPercent > 0
  }

  /** Whoever is deployed or being deployed has its revision. */
  predicate RevisionsPresent(v: Views) {
    forall t :: t in v && (IsDeployedState(v[t].status.state) || v[t].status.state == Deploying) ==> v[t].revision.Some?
  }

  predicate FoundGood(v: Views)
    requires RevisionsPresent(v)
  {
    exists t :: t in v && IsGood(v[t])
  }

  predicate GoodAmong(v: Views, tags: seq<Tag>)
    requires RevisionsPresent(v) && forall t :: t in tags ==> t in v
  {
    exists t :: t in tags && IsGood(v[t])
  }

  /** Oldest first, without what is deleted for good. */
  function Kept(v: Views, order: seq<Tag>): seq<Status>
    requires forall t :: t in order ==> t in v
  {
    if order == [] then []
    else Kept(v, order[1..]) + (if IsDropped(v[order[0]]) then [] else [v[order[0]].status])
  }

  /** The newest retired or retiring status, the list being oldest first; -1 without one. */
  function LatestRetired(rs: seq<Status>): (k: int)
    ensures -1 <= k < |rs|
    ensures k >= 0 ==> IsRetired(rs[k].state)
    ensures forall j :: k < j < |rs| ==> !IsRetired(rs[j].state)
  {
    if rs == [] then -1
    else if IsRetired(rs[|rs| - 1].state) then |rs| - 1
    else LatestRetired(rs[..|rs| - 1])
  }

  function Recommissioned(s: Status): Status { s.(releaseEligible := true, peakPercent := 100) }

  /** The statuses a reconcile saves: everything kept, with the newest retired release
      called back when no good one is left. */
  function Recorded(v: Views, order: seq<Tag>): seq<Status>
    requires RevisionsPresent(v) && forall t :: t in order ==> t in v
  {
    CallBack(Kept(v, order), FoundGood(v))
  }

  function CallBack(rs: seq<Status>, good: bool): seq<Status> {
    var k := LatestRetired(rs);
    if good || k < 0 then rs else rs[k := Recommissioned(rs[k])]
  }

  /** The loop over the listed members has `i` to go. */
  datatype Recording = Recording(v: Views, order: seq<Tag>, i: nat, rs: seq<Status>, latest: int, good: bool)
  {
    ghost predicate Sound() {
      && i <= |order|
      && RevisionsPresent(v)
      && (forall t :: t in order ==> t in v)
      && rs == Kept(v, order[i..])
      && latest == LatestRetired(rs)
      && good == GoodAmong(v, order[i..])
    }
  }

  lemma NothingRecorded(v: Views, order: seq<Tag>)
    requires RevisionsPresent(v) && forall t :: t in order ==> t in v
    ensures Recording(v, order, |order|, [], -1, false).Sound()
  {
  }

  lemma RecordNext(g: Recording, rs: seq<Status>, latest: int, good: bool)
    requires g.Sound() && g.i > 0
    requires var inc := g.v[g.order[g.i - 1]];
             && rs == (if IsDropped(inc) then g.rs else g.rs + [inc.status])
             && latest == (if IsRetired(inc.status.state) then |g.rs| else g.latest)
             && good == (g.good || IsGood(inc))
    ensures Recording(g.v, g.order, g.i - 1, rs, latest, good).Sound()
  {
    var k := g.i - 1;
    KeptOfLonger(g.v, g.order, k);
    LatestOfLonger(g.rs, g.v[g.order[k]].status);
    GoodOfLonger(g.v, g.order, k);
  }

  lemma KeptOfLonger(v: Views, order: seq<Tag>, k: nat)
    requires k < |order| && forall t :: t in order ==> t in v
    ensures Kept(v, order[k..])
         == Kept(v, order[k + 1..]) + (if IsDropped(v[order[k]]) then [] else [v[order[k]].status])
  {
    assert order[k..][1..] == order[k + 1..];
  }

  lemma LatestOfLonger(rs: seq<Status>, s: Status)
    ensures LatestRetired(rs + [s]) == if IsRetired(s.state) then |rs| else LatestRetired(rs)
  {
    assert (rs + [s])[..|rs|] == rs;
  }

  lemma GoodOfLonger(v: Views, order: seq<Tag>, k: nat)
    requires k < |order| && RevisionsPresent(v) && forall t :: t in order ==> t in v
    ensures GoodAmong(v, order[k..]) <==> GoodAmong(v, order[k + 1..]) || IsGood(v[order[k]])
  {
    assert order[k..] == [order[k]] + order[k + 1..];
  }

  lemma AllRecorded(g: Recording)
    requires g.Sound() && g.i == 0 && SortedOrder(g.v, g.order)
    ensures g.rs == Kept(g.v, g.order)
    ensures g.good <==> FoundGood(g.v)
  {
    assert g.order[0..] == g.order;
  }

  /** The list saved of a collection, listed in some order. */
  ghost predicate SavesAs(v: Views, order: seq<Tag>, rs: seq<Status>) {
    RevisionsPresent(v) && SortedOrder(v, order) && rs == Recorded(v, order)
  }

  method RecordStatuses(ic: IncarnationCollection) returns (rs: seq<Status>)
    requires ic.Valid() && RevisionsPresent(ic.Snapshot())
    ensures exists order :: SavesAs(ic.Snapshot(), order, rs)
  {
    var sorted := ic.Sorted();
    rs := RecordInOrder(ic, sorted);
  }

  method RecordInOrder(ic: IncarnationCollection, sorted: seq<Incarnation>) returns (rs: seq<Status>)
    requires ic.Valid() && ic.Owns(sorted)
    requires RevisionsPresent(ic.Snapshot()) && SortedOrder(ic.Snapshot(), Tags(sorted))
    ensures SavesAs(ic.Snapshot(), Tags(sorted), rs)
  {
    var foundGoodRelease, latestRetiredStatus;
    rs, latestRetiredStatus, foundGoodRelease := RecordAll(ic, sorted, ic.Snapshot());
    rs := Recommission(rs, latestRetiredStatus, foundGoodRelease);
  }

  method Recommission(kept: seq<Status>, latestRetiredStatus: int, foundGoodRelease: bool) returns (rs: seq<Status>)
    requires latestRetiredStatus == LatestRetired(kept)
    ensures rs == CallBack(kept, foundGoodRelease)
  {
    rs := kept;
    if !foundGoodRelease && latestRetiredStatus > -1 && latestRetiredStatus < |rs| {
      var k := latestRetiredStatus;
      rs := rs[k := rs[k].(releaseEligible := true)];
      rs := rs[k := rs[k].(peakPercent := 100)];
    }
  }

  method RecordAll(ic: IncarnationCollection, sorted: seq<Incarnation>, ghost v: Views)
    returns (rs: seq<Status>, latest: int, good: bool)
    requires ic.Valid() && ic.Owns(sorted) && v == ic.Snapshot()
    requires RevisionsPresent(v) && SortedOrder(v, Tags(sorted))
    ensures rs == Kept(v, Tags(sorted)) && latest == LatestRetired(rs) && good == FoundGood(v)
  {
    ghost var start := Recording(v, Tags(sorted), |sorted|, [], -1, false);
    NothingRecorded(v, Tags(sorted));
    ghost var g;
    rs, latest, good, g := RecordEach(ic, sorted, start);
    AllRecorded(g);
  }

  /** The reverse loop, oldest to newest. */
  method RecordEach(ic: IncarnationCollection, sorted: seq<Incarnation>, ghost start: Recording)
    returns (rs: seq<Status>, latest: int, good: bool, ghost g: Recording)
    requires ic.Valid() && ic.Owns(sorted) && start.Sound()
    requires start == Recording(ic.Snapshot(), Tags(sorted), |sorted|, [], -1, false)
    ensures g.Sound() && g == Recording(ic.Snapshot(), Tags(sorted), 0, rs, latest, good)
  {
    rs, latest, good := [], -1, false;
    var i: nat := |sorted|;
    g := start;
    while i > 0
      invariant i <= |sorted| && g.Sound()
      invariant g == Recording(ic.Snapshot(), Tags(sorted), i, rs, latest, good)
    {
      rs, latest, good, g := RecordOne(ic, sorted, i - 1, rs, latest, good, g);
      i := i - 1;
    }
  }

  /** Dereferencing a missing revision would be a nil pointer; none is missing here. */
  method RecordOne(ic: IncarnationCollection, sorted: seq<Incarnation>, i: nat, rs: seq<Status>, latest: int, good: bool,
                   ghost g: Recording)
    returns (rs': seq<Status>, latest': int, good': bool, ghost g': Recording)
    requires ic.Valid() && ic.Owns(sorted) && i < |sorted|
    requires g.Sound() && g == Recording(ic.Snapshot(), Tags(sorted), i + 1, rs, latest, good)
    ensures g'.Sound() && g' == Recording(g.v, g.order, i, rs', latest', good')
  {
    rs', latest', good' := rs, latest, good;
    var item := sorted[i];
    assert g.v[item.tag] == item.View();
    var status, revision := item.status, item.revision;
    if status.state == Deleted && revision.None? {
    } else {
      if IsRetired(status.state) {
        latest' := |rs|;
      } else if MayBeGood(status.state) {
        if !revision.value.failedAt && status.peakPercent > 0 {
          good' := true;
        }
      }
      rs' := rs + [status];
    }
    RecordNext(g, rs', latest', good');
    g' := Recording(g.v, g.order, i, rs', latest', good');
  }

  // ---------------------------------------------------------------- recommissioning

  predicate Tagged(v: Views) { forall t :: t in v ==> v[t].tag == t && v[t].status.tag == t }

  lemma {:induction false} KeptHolds(v: Views, order: seq<Tag>, s: Status)
    requires forall t :: t in order ==> t in v
    ensures s in Kept(v, order) <==> exists t :: t in order && !IsDropped(v[t]) && s == v[t].status
  {
    if order != [] {
      KeptHolds(v, order[1..], s);
      assert order == [order[0]] + order[1..];
    }
  }

  /** Each entry of the list is older than those after it. */
  ghost predicate OldestFirst(v: Views, rs: seq<Status>) {
    && (forall s :: s in rs ==> s.tag in v)
    && (forall i, j :: 0 <= i < j < |rs| ==> rs[i].tag != rs[j].tag && !Newer(v[rs[i].tag], v[rs[j].tag]))
  }

  lemma {:induction false} KeptIsOldestFirst(v: Views, order: seq<Tag>)
    requires Tagged(v) && Distinct(order) && NewestFirst(v, order)
    ensures OldestFirst(v, Kept(v, order))
  {
    if order != [] {
      var first, rest := order[0], order[1..];
      KeptIsOldestFirst(v, rest);
      var kept := Kept(v, rest);
      forall i | 0 <= i < |kept| ensures kept[i].tag != first && !Newer(v[kept[i].tag], v[first]) && kept[i].tag in v {
        KeptHolds(v, rest, kept[i]);
        var t :| t in rest && kept[i] == v[t].status;
        var k :| 0 <= k < |rest| && rest[k] == t;
        assert order[k + 1] == t;
      }
    }
  }

  /** The newest of the retired and retiring entries, which are those kept. */
  ghost predicate NewestRetired(v: Views, t: Tag) {
    t in v && IsRetired(v[t].status.state)
    && forall u :: u in v && IsRetired(v[u].status.state) ==> !Newer(v[u], v[t])
  }

  /** Exactly the members that are not deleted for good, as they are. */
  ghost predicate ListsKept(v: Views, rs: seq<Status>) {
    && (forall i :: 0 <= i < |rs| ==> rs[i].tag in v && rs[i] == v[rs[i].tag].status && !IsDropped(v[rs[i].tag]))
    && (forall t :: t in v && !IsDropped(v[t]) ==> v[t].status in rs)
  }

  lemma KeptIsListed(v: Views, order: seq<Tag>)
    requires Tagged(v) && SortedOrder(v, order)
    ensures ListsKept(v, Kept(v, order))
  {
    var kept := Kept(v, order);
    forall i | 0 <= i < |kept|
      ensures kept[i].tag in v && kept[i] == v[kept[i].tag].status && !IsDropped(v[kept[i].tag])
    {
      KeptHolds(v, order, kept[i]);
    }
    forall t | t in v && !IsDropped(v[t]) ensures v[t].status in kept {
      KeptHolds(v, order, v[t].status);
    }
  }

  /** One entry may be called back at full speed. */
  ghost predicate OneCalledBack(v: Views, kept: seq<Status>, rs: seq<Status>, k: int) {
    && |rs| == |kept|
    && -1 <= k < |rs|
    && (forall i :: 0 <= i < |rs| && i != k ==> rs[i] == kept[i])
    && (k >= 0 ==> rs[k] == Recommissioned(kept[k]) && NewestRetired(v, rs[k].tag))
  }

  /** What is saved is every member but those deleted for good, oldest first, unchanged;
      but exactly when no good release is left and some release is retired or retiring,
      one entry, a newest such, is called back. */
  lemma SavedList(v: Views, order: seq<Tag>) returns (kept: seq<Status>, k: int)
    requires Tagged(v) && SortedOrder(v, order) && RevisionsPresent(v)
    ensures ListsKept(v, kept) && OldestFirst(v, kept)
    ensures OneCalledBack(v, kept, Recorded(v, order), k)
    ensures k >= 0 <==> !FoundGood(v) && exists t :: t in v && IsRetired(v[t].status.state)
  {
    kept := Kept(v, order);
    k := if FoundGood(v) then -1 else LatestRetired(kept);
    KeptIsOldestFirst(v, order);
    KeptIsListed(v, order);
    LatestIsNewest(v, kept);
  }

  lemma LatestIsNewest(v: Views, kept: seq<Status>)
    requires Tagged(v) && OldestFirst(v, kept) && ListsKept(v, kept)
    ensures LatestRetired(kept) >= 0 <==> exists t :: t in v && IsRetired(v[t].status.state)
    ensures LatestRetired(kept) >= 0 ==> NewestRetired(v, kept[LatestRetired(kept)].tag)
  {
    var k := LatestRetired(kept);
    forall u | u in v && IsRetired(v[u].status.state)
      ensures k >= 0 && !Newer(v[u], v[kept[k].tag])
    {
      assert v[u].status in kept;
      var i :| 0 <= i < |kept| && kept[i] == v[u].status;
      assert i <= k;
    }
  }

  // ---------------------------------------------------------------- the list, field by field

  predicate IsListed(rs: seq<Status>, t: Tag) { exists i :: 0 <= i < |rs| && rs[i].tag == t }

  /** Listed is what is not deleted without a revision, as it is but for entry `k`, and the
      newer after the older. */
  ghost predicate ListsAllBut(v: Views, rs: seq<Status>, k: int) {
    && (forall t :: t in v ==> (IsListed(rs, t) <==> !(v[t].status.state == Deleted && v[t].revision.None?)))
    && (forall i :: 0 <= i < |rs| ==> rs[i].tag in v && (i != k ==> rs[i] == v[rs[i].tag].status))
    && (forall i, j :: 0 <= i < j < |rs| ==> NotOlder(v[rs[j].tag].revision, v[rs[i].tag].revision))
  }

  lemma KeptListsAll(v: Views, kept: seq<Status>, rs: seq<Status>, k: int)
    requires Tagged(v) && ListsKept(v, kept) && OldestFirst(v, kept) && OneCalledBack(v, kept, rs, k)
    ensures ListsAllBut(v, rs, k)
  {
    assert forall i :: 0 <= i < |rs| ==> rs[i].tag == kept[i].tag;
    forall t | t in v ensures IsListed(rs, t) <==> !(v[t].status.state == Deleted && v[t].revision.None?) {
      if !IsDropped(v[t]) {
        var i :| 0 <= i < |kept| && kept[i] == v[t].status;
        assert rs[i].tag == t;
      }
    }
    forall i, j | 0 <= i < j < |rs| ensures NotOlder(v[rs[j].tag].revision, v[rs[i].tag].revision) {
      NewerMeans(v[kept[i].tag], v[kept[j].tag]);
    }
  }

  /** A release that could carry on: being deployed or released, not annotated as failed, and
      it has had traffic. */
  predicate CouldCarryOn(inc: Inc) {
    && inc.status.state in {Deploying, Deployed, PendingRelease, Releasing, Released}
    && inc.status.peakPercent > 0
    && inc.revision.Some? && !inc.revision.value.failedAt
  }

  predicate OnItsWayOut(inc: Inc) { inc.status.state == Retired || inc.status.state == Retiring }

  /** Entry `k` is called back: eligible, with peak 100, and with the greatest commit time of
      all that are retired or retiring. */
  ghost predicate CalledBack(v: Views, rs: seq<Status>, k: nat)
    requires k < |rs| && rs[k].tag in v
  {
    var was := v[rs[k].tag];
    && OnItsWayOut(was)
    && rs[k].releaseEligible && rs[k].peakPercent == 100
    && rs[k] == was.status.(releaseEligible := true, peakPercent := 100)
    && forall t :: t in v && OnItsWayOut(v[t]) ==>
         && NotOlder(was.revision, v[t].revision)
         && (was.revision.Some? && v[t].revision.Some? ==>
               was.revision.value.gitTimestamp >= v[t].revision.value.gitTimestamp)
  }

  /** The saved list in the members' own fields: everything but what is deleted for good; and
      one entry is called back exactly when nothing could carry on and something is on its
      way out. */
  lemma SavedListMeans(v: Views, order: seq<Tag>) returns (k: int)
    requires Tagged(v) && SortedOrder(v, order) && RevisionsPresent(v)
    ensures var rs := Recorded(v, order);
            && -1 <= k < |rs|
            && ListsAllBut(v, rs, k)
            && (k >= 0 ==> CalledBack(v, rs, k))
            && (k >= 0 <==> (forall t :: t in v ==> !CouldCarryOn(v[t])) && exists t :: t in v && OnItsWayOut(v[t]))
  {
    var kept;
    kept, k := SavedList(v, order);
    var rs := Recorded(v, order);
    KeptListsAll(v, kept, rs, k);
    GoodMeans(v);
    if k >= 0 {
      OneIsCalledBack(v, kept, rs, k);
    }
  }

  lemma GoodMeans(v: Views)
    requires RevisionsPresent(v)
    ensures FoundGood(v) <==> exists t :: t in v && CouldCarryOn(v[t])
  {
    if t :| t in v && CouldCarryOn(v[t]) {
      assert IsGood(v[t]);
    }
  }

  lemma OneIsCalledBack(v: Views, kept: seq<Status>, rs: seq<Status>, k: nat)
    requires Tagged(v) && ListsKept(v, kept) && OneCalledBack(v, kept, rs, k)
    ensures rs[k].tag in v && CalledBack(v, rs, k)
  {
    forall t | t in v && OnItsWayOut(v[t]) ensures NotOlder(v[rs[k].tag].revision, v[t].revision) {
      NewerMeans(v[t], v[rs[k].tag]);
    }
  }
}
