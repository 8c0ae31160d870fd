/** Traffic over whole runs: what is saved never adds up to more than 100 percent, and to
    exactly 100 after every reconcile that had traffic to divide. */
module Totals {
  import opened Types
  import opened RampGate
  import opened Collections
  import opened Allocator
  import opened Preparation
  import opened Conservation
  import opened Records
  import opened Reconciling
  import opened Lineage
  import opened Runs

  function Total(saved: seq<Status>): nat {
    if saved == [] then 0 else Total(saved[..|saved| - 1]) + saved[|saved| - 1].currentPercent
  }

  predicate DistinctTags(saved: seq<Status>) {
    forall i, j :: 0 <= i < j < |saved| ==> saved[i].tag != saved[j].tag
  }

  function Without(saved: seq<Status>, j: nat): seq<Status>
    requires j < |saved|
  {
    saved[..j] + saved[j + 1..]
  }

  lemma {:induction false} TotalWithout(saved: seq<Status>, j: nat)
    requires j < |saved|
    ensures Total(saved) == saved[j].currentPercent + Total(Without(saved, j))
  {
    var last := |saved| - 1;
    if j < last {
      var front := saved[..last];
      TotalWithout(front, j);
      assert Without(saved, j) == Without(front, j) + [saved[last]];
      assert Without(saved, j)[..last - 1] == Without(front, j);
    } else {
      assert Without(saved, j) == saved[..last];
    }
  }

  /** An entry with traffic has it from an entry of the same tag. */
  ghost predicate InheritsFrom(s: Status, saved: seq<Status>) {
    s.currentPercent > 0 ==>
      exists j :: 0 <= j < |saved| && saved[j].tag == s.tag && saved[j].currentPercent == s.currentPercent
  }

  ghost predicate Inherits(rs: seq<Status>, saved: seq<Status>) {
    forall k :: 0 <= k < |rs| ==> InheritsFrom(rs[k], saved)
  }

  lemma {:induction false} InheritedTotal(rs: seq<Status>, saved: seq<Status>)
    requires DistinctTags(rs) && Inherits(rs, saved)
    ensures Total(rs) <= Total(saved)
  {
    if rs != [] {
      var last, front := rs[|rs| - 1], rs[..|rs| - 1];
      if last.currentPercent == 0 {
        InheritedTotal(front, saved);
      } else {
        var j :| 0 <= j < |saved| && saved[j].tag == last.tag && saved[j].currentPercent == last.currentPercent;
        var rest := Without(saved, j);
        forall k | 0 <= k < |front| ensures InheritsFrom(front[k], rest) {
          assert front[k] == rs[k];
          if front[k].currentPercent > 0 {
            var i :| 0 <= i < |saved| && saved[i].tag == rs[k].tag && saved[i].currentPercent == rs[k].currentPercent;
            assert rest[if i < j then i else i - 1] == saved[i];
          }
        }
        InheritedTotal(front, rest);
        TotalWithout(saved, j);
      }
    }
  }

  function TagsOf(rs: seq<Status>): (r: seq<Tag>)
    ensures |r| == |rs|
  {
    seq(|rs|, i requires 0 <= i < |rs| => rs[i].tag)
  }

  ghost predicate CarriesAs(rs: seq<Status>, m: Weights) {
    forall k :: 0 <= k < |rs| ==> rs[k].tag in m && m[rs[k].tag] == rs[k].currentPercent
  }

  lemma {:induction false} TotalInOrder(rs: seq<Status>, m: Weights)
    requires CarriesAs(rs, m)
    ensures forall t :: t in TagsOf(rs) ==> t in m
    ensures OrderSum(m, TagsOf(rs)) == Total(rs)
  {
    if rs != [] {
      var front := rs[..|rs| - 1];
      TotalInOrder(front, m);
      assert TagsOf(rs)[..|rs| - 1] == TagsOf(front);
    }
  }

  /** The list saved carries the percents of the collection, and leaves out only what is
      deleted for good. */
  ghost predicate Mirrors(rs: seq<Status>, v: Views) {
    && DistinctTags(rs)
    && CarriesAs(rs, Percents(v))
    && forall t :: t in v && t !in TagsOf(rs) ==> IsDropped(v[t])
  }

  lemma SavedMirrors(v: Views, order: seq<Tag>, rs: seq<Status>)
    requires Tagged(v) && SavesAs(v, order, rs)
    ensures Mirrors(rs, v)
  {
    var kept, c := SavedList(v, order);
    forall k | 0 <= k < |rs|
      ensures rs[k].tag == kept[k].tag && rs[k].currentPercent == kept[k].currentPercent && kept[k].tag in v
              && kept[k] == v[kept[k].tag].status
    {
    }
    forall t | t in v && !IsDropped(v[t]) ensures t in TagsOf(rs) {
      var k :| 0 <= k < |kept| && kept[k] == v[t].status;
      assert TagsOf(rs)[k] == t;
    }
  }

  lemma MirroredTotal(rs: seq<Status>, v: Views)
    requires Mirrors(rs, v)
    requires forall t :: t in v && IsDropped(v[t]) ==> v[t].status.currentPercent == 0
    ensures Total(rs) == WeightSum(Percents(v))
  {
    TotalInOrder(rs, Percents(v));
    SumInOrder(Percents(v), TagsOf(rs));
  }

  lemma DroppedCarryNothing(before: Views, order: seq<Tag>, t: Tag, gate: Gate, now: Time)
    requires ReleasableOrder(before, order) && !Trips(InOrder(before, order), gate, now) && t in before
    requires IsDropped(Allocated(before, order, gate, now)[t])
    ensures Allocated(before, order, gate, now)[t].status.currentPercent == 0
  {
    AllocatedSettles(before, order, t, gate, now);
    assert !IsReleasable(before[t]);
  }

  /** A reconcile that divides traffic saves all of it. */
  lemma DividedIsSaved(p: Pass, rs: seq<Status>)
    requires p.Completed(rs) && DeployedTags(p.observed) != {}
    ensures DistinctTags(rs)
    ensures Total(rs) == if p.allocating == [] then 0 else 100
  {
    DividedIsTagged(p);
    var order :| SavesAs(p.divided, order, rs);
    SavedMirrors(p.divided, order, rs);
    forall t | t in p.divided && IsDropped(p.divided[t]) ensures p.divided[t].status.currentPercent == 0 {
      DroppedCarryNothing(p.observed, p.allocating, t, p.TheGate(), p.env.now);
    }
    MirroredTotal(rs, p.divided);
    TrafficIsConserved(p.observed, p.divided, p.weights, p.allocating, p.TheGate(), p.env.now);
  }

  lemma ObservedInherits(p: Pass, t: Tag)
    requires p.Observed() && t in p.observed
    ensures p.observed[t].status.tag == t && InheritsFrom(p.observed[t].status, p.saved)
  {
    ObservedMember(p, t);
    LoadedMember(p, t);
    TickKeepsIdentity(p.loaded[t], p.env.TickOf(t));
    if p.observed[t].status.currentPercent > 0 {
      var j :| 0 <= j < |p.saved| && Carried(p.saved[j], p.loaded[t].status);
    }
  }

  lemma MirrorInherits(rs: seq<Status>, v: Views, saved: seq<Status>)
    requires Mirrors(rs, v)
    requires forall t :: t in v ==> v[t].status.tag == t && InheritsFrom(v[t].status, saved)
    ensures Inherits(rs, saved)
  {
    forall k | 0 <= k < |rs| ensures InheritsFrom(rs[k], saved) {
      assert InheritsFrom(v[rs[k].tag].status, saved);
    }
  }

  /** A reconcile that finds nothing deployed gives nobody anything. */
  lemma UndividedIsInherited(p: Pass, rs: seq<Status>)
    requires p.Completed(rs) && DeployedTags(p.observed) == {}
    ensures DistinctTags(rs) && Inherits(rs, p.saved)
  {
    DividedIsTagged(p);
    var order :| SavesAs(p.divided, order, rs);
    SavedMirrors(p.divided, order, rs);
    forall t | t in p.divided ensures p.divided[t].status.tag == t && InheritsFrom(p.divided[t].status, p.saved) {
      ObservedInherits(p, t);
    }
    MirrorInherits(rs, p.divided, p.saved);
  }

  ghost predicate WithinBudget(w: World) { DistinctTags(w.saved) && Total(w.saved) <= 100 }

  lemma RoundStaysWithinBudget(w: World, turn: Turn, w': World)
    requires WithinBudget(w) && Round(w, turn, w')
    ensures WithinBudget(w')
  {
    if turn.verdict.SavedAs? {
      var p, rs := turn.p, turn.verdict.statuses;
      if DeployedTags(p.observed) == {} {
        UndividedIsInherited(p, rs);
        InheritedTotal(rs, p.saved);
      } else {
        DividedIsSaved(p, rs);
      }
    }
  }

  /** On every run the percents saved add up to at most 100, one entry for each tag. */
  lemma {:induction false} NeverMoreThanAll(ws: seq<World>, turns: seq<Turn>, n: nat)
    requires Run(ws, turns) && n <= |turns|
    ensures WithinBudget(ws[n])
  {
    if n > 0 {
      NeverMoreThanAll(ws, turns, n - 1);
      WithinBudgetAfter(ws, turns, n - 1);
    }
  }

  lemma WithinBudgetAfter(ws: seq<World>, turns: seq<Turn>, i: nat)
    requires Run(ws, turns) && i < |turns| && WithinBudget(ws[i])
    ensures WithinBudget(ws[i + 1])
  {
    assert RoundAt(ws, turns, i);
    RoundStaysWithinBudget(ws[i], turns[i], ws[i + 1]);
  }
}
