/** What loading and observing do to a revision, in terms of the saved statuses, the revision's
    settings and the ReplicaSets that were seen. */
module Seeing {
  import opened Base
  import opened Types
  import opened Observation
  import opened Incarnations
  import opened Collections
  import opened Reconciling
  import opened Lineage

  // ---------------------------------------------------------------- observing

  /** Without ReplicaSets anywhere the revision has no traffic, no replicas, and is gone from
      the clusters; with some it keeps its percent, runs what the live ones run and wants
      what they want, and is deployed if they are in as many clusters as are live and none
      is without replicas. All else stays. */
  ghost predicate SeenAs(before: Inc, after: Inc, o: seq<ReplicaSet>, tag: Tag, liveCount: nat, now: Time) {
    var s, t := before.status, after.status;
    && after == before.(status := t, deployed := after.deployed)
    && t == s.(currentPercent := t.currentPercent, lastUpdated := t.lastUpdated, scale := t.scale, deleted := t.deleted)
    && if forall rs :: rs in o ==> rs.tag != tag then
         && !after.deployed && t.deleted
         && t.currentPercent == 0
         && t.lastUpdated == (if s.currentPercent > 0 then Some(now) else s.lastUpdated)
         && t.scale.current == 0 && t.scale.desired == 0 && t.scale.peak == s.scale.peak
       else
         && !t.deleted
         && t.currentPercent == s.currentPercent && t.lastUpdated == s.lastUpdated
         && t.scale.current == PodsOf(o, tag) && t.scale.desired == WantedOf(o, tag)
         && t.scale.peak == (if t.scale.current > s.scale.peak then t.scale.current else s.scale.peak)
         && (after.deployed <==> SetsOf(o, tag) >= liveCount && AllAvailable(o, tag))
  }

  lemma ObservedIsSeen(inc: Inc, o: seq<ReplicaSet>, tag: Tag, liveCount: nat, now: Time)
    ensures SeenAs(inc, Observed(inc, LiveInfo(o, tag), liveCount, now), o, tag, liveCount, now)
  {
    LiveTotals(o, tag);
    MinimumMeans(o, tag);
  }

  /** Every member of a pass is observed so after the ticks. */
  lemma MembersAreSeen(p: Pass, t: Tag)
    requires p.Observed() && t in p.observed
    ensures t in p.loaded
    ensures SeenAs(AfterTick(p, t), p.observed[t], p.env.after, t, p.env.LiveCount(), p.env.now)
  {
    ObservedMember(p, t);
    ObservedIsSeen(AfterTick(p, t), p.env.after, t, p.env.LiveCount(), p.env.now);
  }

  // ---------------------------------------------------------------- loading

  /** The status kept for the tag, or a new one. */
  ghost predicate IsKept(s: Status, saved: seq<Status>, tag: Tag, now: Time) {
    || (s in saved && s.tag == tag)
    || (&& (forall x :: x in saved ==> x.tag != tag)
        && s.tag == tag && s.state == Created && s.currentPercent == 0 && s.peakPercent == 0 && !s.releaseEligible
        && s.stateUpdated.None? && s.canaryStart.None? && s.lastUpdated == Some(now)
        && s.scale == ScaleStatus(0, 0, 0) && s.ttl == 0 && !s.deleted)
  }

  /** Until it is deployed a revision's eligibility and time to live follow its settings; a
      revision that is gone is not eligible. Afterwards both are what was saved. */
  predicate Refreshed(kept: Status, s: Status, revision: Option<Revision>) {
    && s == kept.(releaseEligible := s.releaseEligible, ttl := s.ttl)
    && if kept.state == Created || kept.state == Deploying then
         match revision
         case None => !s.releaseEligible && s.ttl == kept.ttl
         case Some(r) => s.releaseEligible == r.target.release.eligible && s.ttl == r.target.release.ttl
       else s == kept
  }

  lemma {:induction false} FindIsKept(saved: seq<Status>, tag: Tag)
    ensures match Find(saved, tag)
            case None => forall x :: x in saved ==> x.tag != tag
            case Some(s) => s in saved && s.tag == tag
  {
    if saved != [] && saved[0].tag != tag {
      FindIsKept(saved[1..], tag);
      assert saved == [saved[0]] + saved[1..];
    }
  }

  /** A loaded member: the kept status, refreshed, with the ReplicaSets seen before the ticks. */
  ghost predicate LoadedAs(inc: Inc, saved: seq<Status>, tag: Tag, revision: Option<Revision>, o: seq<ReplicaSet>,
                           liveCount: nat, now: Time)
  {
    exists kept: Status, s: Status ::
      && IsKept(kept, saved, tag, now) && Refreshed(kept, s, revision)
      && SeenAs(Inc(tag, revision, s, false, false), inc.(isRamping := false), o, tag, liveCount, now)
  }

  lemma LoadedIsLoadedAs(saved: seq<Status>, tag: Tag, revision: Option<Revision>, o: seq<ReplicaSet>, liveCount: nat, now: Time)
    ensures LoadedAs(Loaded(saved, tag, revision, LiveInfo(o, tag), liveCount, now), saved, tag, revision, o, liveCount, now)
  {
    FindIsKept(saved, tag);
    var found := Find(saved, tag);
    var kept := if found.Some? then found.value else FreshStatus(tag, now);
    var s := LoadedStatus(saved, tag, revision, now);
    ObservedIsSeen(Inc(tag, revision, s, false, false), o, tag, liveCount, now);
    assert IsKept(kept, saved, tag, now) && Refreshed(kept, s, revision);
  }

  /** Who is loaded: every revision, and every tag with a saved status; each so. */
  lemma MembersAreLoaded(p: Pass, t: Tag)
    requires p.Started()
    ensures t in p.loaded <==> t in p.env.revisions || exists s :: s in p.saved && s.tag == t
    ensures t in p.loaded ==>
              LoadedAs(p.loaded[t], p.saved, t, if t in p.env.revisions then Some(p.env.revisions[t]) else None,
                       p.env.before, p.env.LiveCount(), p.env.now)
  {
    if t in p.loaded {
      LoadedIsLoadedAs(p.saved, t, Lookup(p.env.revisions, t), p.env.before, p.env.LiveCount(), p.env.now);
      assert p.loaded[t].(isRamping := false) == p.Read()[t];
    }
  }
}
