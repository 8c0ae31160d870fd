/** prepareRevisions on the whole collection: zero what is no longer releasable, then
    allocate over a listing of the rest. */
module Preparation {
  import opened Base
  import opened Types
  import opened RampGate
  import opened Incarnations
  import opened Collections
  import opened Allocator

  type Weights = map<Tag, uint32>

  function InOrder(v: Views, order: seq<Tag>): seq<Inc>
    requires forall t :: t in order ==> t in v
  {
    seq(|order|, i requires 0 <= i < |order| => v[order[i]])
  }

  function IndexOf(order: seq<Tag>, t: Tag): (i: nat)
    requires t in order
    ensures i < |order| && order[i] == t
  {
    if order[0] == t then 0 else 1 + IndexOf(order[1..], t)
  }

  lemma IndexOfDistinct(order: seq<Tag>, i: nat)
    requires Distinct(order) && i < |order|
    ensures IndexOf(order, order[i]) == i
  {
  }

  function Zeroed(v: Views, now: Time): Views {
    map t | t in v :: if IsReleasable(v[t]) then v[t] else WithPercent(v[t], 0, now)
  }

  /** The collection after a successful allocation. */
  function Allocated(v: Views, order: seq<Tag>, gate: Gate, now: Time): Views
    requires forall t :: t in order ==> t in v
  {
    map t | t in v ::
      if t in order then Final(InOrder(v, order), IndexOf(order, t), gate, now) else WithPercent(v[t], 0, now)
  }

  /** The route weights that are applied. */
  function RouteWeights(v: Views, order: seq<Tag>, gate: Gate, now: Time): Weights
    requires forall t :: t in order ==> t in v
  {
    map t | t in DeployedTags(v) + (set u | u in order) ::
      if t in order then FinalPercent(InOrder(v, order), IndexOf(order, t), gate, now) else 0
  }

  /** Zeroing the rest does not change what is releasable, or in which orders. */
  lemma ZeroingKeepsListing(v: Views, order: seq<Tag>, now: Time)
    ensures ReleasableOrder(Zeroed(v, now), order) <==> ReleasableOrder(v, order)
    ensures ReleasableOrder(v, order) ==> InOrder(Zeroed(v, now), order) == InOrder(v, order)
  {
    var z := Zeroed(v, now);
    forall t | t in v
      ensures IsReleasable(z[t]) <==> IsReleasable(v[t])
      ensures IsReleasable(v[t]) ==> z[t] == v[t]
    {
    }
    if ReleasableOrder(v, order) || ReleasableOrder(z, order) {
      assert forall i :: 0 <= i < |order| ==> order[i] in v && z[order[i]] == v[order[i]];
    }
  }

  // ---------------------------------------------------------------- the loop

  function ServedAt(v: seq<Inc>, k: nat, gate: Gate, now: Time): Inc
    requires k < |v|
  {
    Served(v[k], Share(v, k, gate, now), AfterPivot(v, k), now)
  }

  /** The percents after `i` turns: served up to there, untouched from there on. */
  ghost predicate Progressed(v: seq<Inc>, i: nat, cur: seq<Inc>, percRemaining: uint32, gate: Gate, now: Time) {
    && i <= |v| == |cur|
    && (forall k :: 0 <= k < i ==> cur[k] == ServedAt(v, k, gate, now) && !TripsAt(v, k, gate, now))
    && (forall k :: i <= k < |v| ==> cur[k] == v[k])
    && percRemaining == Budget(v, i, gate, now)
  }

  lemma OneMoreTurn(v: seq<Inc>, i: nat, cur: seq<Inc>, percRemaining: uint32, share: uint32, gate: Gate, now: Time)
    requires i < |v| && Progressed(v, i, cur, percRemaining, gate, now)
    requires share == Ask(cur[i], AfterPivot(v, i), percRemaining, gate, now)
    ensures TripsAt(v, i, gate, now) <==> share > percRemaining
    ensures share <= percRemaining ==>
              Progressed(v, i + 1, cur[i := Served(cur[i], share, AfterPivot(v, i), now)], percRemaining - share, gate, now)
  {
    assert share == Share(v, i, gate, now);
  }

  /** All have had their turn and the leftover is handed out. */
  ghost predicate Finished(v: seq<Inc>, cur: seq<Inc>, gate: Gate, now: Time) {
    && |cur| == |v|
    && !Trips(v, gate, now)
    && forall k :: 0 <= k < |v| ==> cur[k] == Final(v, k, gate, now)
  }

  lemma NothingLeft(v: seq<Inc>, cur: seq<Inc>, left: uint32, gate: Gate, now: Time)
    requires Progressed(v, |v|, cur, left, gate, now)
    requires left == 0 || v == []
    ensures Finished(v, cur, gate, now)
  {
  }

  lemma LeftoverGiven(v: seq<Inc>, cur: seq<Inc>, r: nat, left: uint32, gate: Gate, now: Time)
    requires r < |v| && Progressed(v, |v|, cur, left, gate, now)
    requires left > 0 && r == Recipient(v)
    ensures Finished(v, cur[r := WithPercent(cur[r], (cur[r].status.currentPercent + left) % TWO_TO_THE_32, now)], gate, now)
  {
  }

  /** The weights after `i` turns. */
  ghost predicate Weighed(m: Weights, deployed: set<Tag>, order: seq<Tag>, cur: seq<Inc>, i: nat) {
    && i <= |order| == |cur|
    && (forall t :: t in m <==> t in deployed || t in order[..i])
    && (forall k :: 0 <= k < i ==> order[k] in m && m[order[k]] == cur[k].status.currentPercent)
    && (forall t :: t in m && t !in order[..i] ==> m[t] == 0)
  }

  lemma WeighOneMore(m: Weights, deployed: set<Tag>, order: seq<Tag>, cur: seq<Inc>, i: nat, served: Inc)
    requires Distinct(order) && Weighed(m, deployed, order, cur, i) && i < |order|
    ensures Weighed(m[order[i] := served.status.currentPercent], deployed, order, cur[i := served], i + 1)
  {
    assert order[..i + 1] == order[..i] + [order[i]];
  }

  lemma WeighAgain(m: Weights, deployed: set<Tag>, order: seq<Tag>, cur: seq<Inc>, r: nat, given: Inc)
    requires Distinct(order) && Weighed(m, deployed, order, cur, |order|) && r < |order|
    ensures Weighed(m[order[r] := given.status.currentPercent], deployed, order, cur[r := given], |order|)
  {
    assert order[r] in order[..|order|];
  }

  // ---------------------------------------------------------------- on the objects

  /** The listed members are `cur`, the others `z`. */
  ghost predicate Holds(ic: IncarnationCollection, items: seq<Incarnation>, cur: seq<Inc>, z: Views)
    reads ic, ic.Repr, items
  {
    && ic.Valid() && ic.Owns(items) && Distinct(Tags(items))
    && |cur| == |items|
    && (forall k :: 0 <= k < |items| ==> items[k].View() == cur[k])
    && (forall t :: t in ic.itemSet && t !in Tags(items) ==> t in z && ic.itemSet[t].View() == z[t])
  }

  /** Two listed members are different objects, and different from the others. */
  lemma Apart(ic: IncarnationCollection, items: seq<Incarnation>, i: nat)
    requires ic.Valid() && ic.Owns(items) && Distinct(Tags(items)) && i < |items|
    ensures items[i] in ic.Repr
    ensures forall k :: 0 <= k < |items| && k != i ==> items[k] != items[i]
    ensures forall t :: t in ic.itemSet && t !in Tags(items) ==> ic.itemSet[t] != items[i]
  {
    forall k | 0 <= k < |items| && k != i ensures items[k].tag != items[i].tag {
      assert Tags(items)[k] != Tags(items)[i];
    }
    assert Tags(items)[i] == items[i].tag;
  }

  method ZeroUnreleasable(ic: IncarnationCollection, now: Time)
    requires ic.Valid()
    modifies ic.Repr
    ensures ic.Valid() && ic.Snapshot() == Zeroed(old(ic.Snapshot()), now)
  {
    ghost var v := ic.Snapshot();
    var unreleasable := ic.Unreleasable();
    for i := 0 to |unreleasable|
      invariant ic.Valid() && ic.Owns(unreleasable)
      invariant forall t :: t in ic.itemSet ==>
        ic.itemSet[t].View() == if t in Tags(unreleasable)[..i] then WithPercent(v[t], 0, now) else v[t]
    {
      assert Tags(unreleasable)[..i + 1] == Tags(unreleasable)[..i] + [unreleasable[i].tag];
      assert forall k :: 0 <= k < i ==> Tags(unreleasable)[k] != Tags(unreleasable)[i];
      unreleasable[i].UpdateCurrentPercent(0, now);
    }
    assert Tags(unreleasable)[..|unreleasable|] == Tags(unreleasable);
  }

  method DeployedWeights(ic: IncarnationCollection) returns (m: Weights)
    requires ic.Valid()
    ensures m.Keys == DeployedTags(ic.Snapshot()) && forall t :: t in m ==> m[t] == 0
  {
    var deployed := ic.Deployed();
    m := map[];
    for i := 0 to |deployed|
      invariant m.Keys == (set t | t in Tags(deployed)[..i]) && forall t :: t in m ==> m[t] == 0
    {
      assert Tags(deployed)[..i + 1] == Tags(deployed)[..i] + [deployed[i].tag];
      m := m[deployed[i].tag := 0];
    }
    assert Tags(deployed)[..|deployed|] == Tags(deployed);
  }

  /** One turn: offer what is left; asking for more than that is a panic. */
  method Serve(item: Incarnation, afterPivot: bool, percRemaining: uint32, gate: Gate, now: Time)
    returns (share: uint32)
    modifies item
    ensures share == Ask(old(item.View()), afterPivot, percRemaining, gate, now)
    ensures share > percRemaining ==> item.View() == old(item.View())
    ensures share <= percRemaining ==> item.View() == Served(old(item.View()), share, afterPivot, now)
  {
    var max := percRemaining;
    if afterPivot {
      max := AsUint32(Min(AsInt32(item.status.currentPercent), AsInt32(percRemaining)));
    }
    share := CurrentPercentTarget(item.View(), gate, max, now);
    if share > percRemaining {
      return;
    }
    item.UpdateCurrentPercent(share, now);
    if share <= 0 && afterPivot {
      item.SetReleaseEligible(false);
    }
  }

  /** Hand the leftover to a revision that has had its turn. */
  method GiveLeftover(item: Incarnation, left: uint32, now: Time) returns (percent: uint32)
    modifies item
    ensures percent == (old(item.status.currentPercent) + left) % TWO_TO_THE_32
    ensures item.View() == WithPercent(old(item.View()), percent, now)
  {
    percent := (item.status.currentPercent + left) % TWO_TO_THE_32;
    item.UpdateCurrentPercent(percent, now);
  }

  method Turn(ic: IncarnationCollection, items: seq<Incarnation>, i: nat, afterPivot: bool, percRemaining: uint32,
              gate: Gate, now: Time, ghost cur: seq<Inc>, ghost z: Views)
    returns (share: uint32)
    requires i < |items| && Holds(ic, items, cur, z)
    modifies items[i]
    ensures share == Ask(cur[i], afterPivot, percRemaining, gate, now)
    ensures share <= percRemaining ==> Holds(ic, items, cur[i := Served(cur[i], share, afterPivot, now)], z)
  {
    Apart(ic, items, i);
    share := Serve(items[i], afterPivot, percRemaining, gate, now);
  }

  method HandOut(ic: IncarnationCollection, items: seq<Incarnation>, r: nat, left: uint32, now: Time,
                 ghost cur: seq<Inc>, ghost z: Views)
    returns (percent: uint32)
    requires r < |items| && Holds(ic, items, cur, z)
    modifies items[r]
    ensures percent == (cur[r].status.currentPercent + left) % TWO_TO_THE_32
    ensures Holds(ic, items, cur[r := WithPercent(cur[r], percent, now)], z)
  {
    Apart(ic, items, r);
    percent := GiveLeftover(items[r], left, now);
  }

  /** Objects and weights agree with `cur`. */
  ghost predicate Tracks(ic: IncarnationCollection, items: seq<Incarnation>, m: Weights, deployed: set<Tag>,
                         cur: seq<Inc>, z: Views, i: nat)
    reads ic, ic.Repr, items
  {
    Holds(ic, items, cur, z) && Weighed(m, deployed, Tags(items), cur, i)
  }

  /** Hand the leftover to the revision at `r` and correct its weight. */
  method Leave(ic: IncarnationCollection, items: seq<Incarnation>, r: nat, left: uint32, m: Weights, gate: Gate, now: Time,
               ghost v: seq<Inc>, ghost cur: seq<Inc>, ghost z: Views, ghost deployed: set<Tag>)
    returns (m': Weights, ghost cur': seq<Inc>)
    requires r < |items| && Tracks(ic, items, m, deployed, cur, z, |items|)
    requires Progressed(v, |v|, cur, left, gate, now) && left > 0 && r == Recipient(v)
    modifies ic.Repr
    ensures Tracks(ic, items, m', deployed, cur', z, |items|) && Finished(v, cur', gate, now)
  {
    ItemsInRepr(ic, items);
    var percent := HandOut(ic, items, r, left, now, cur, z);
    LeftoverGiven(v, cur, r, left, gate, now);
    WeighAgain(m, deployed, Tags(items), cur, r, WithPercent(cur[r], percent, now));
    m' := m[items[r].tag := percent];
    cur' := cur[r := WithPercent(cur[r], percent, now)];
  }

  /** Serve the revision at `i` and weigh it. */
  method TakeTurn(ic: IncarnationCollection, items: seq<Incarnation>, i: nat, afterPivot: bool, percRemaining: uint32,
                  m: Weights, gate: Gate, now: Time,
                  ghost v: seq<Inc>, ghost cur: seq<Inc>, ghost z: Views, ghost deployed: set<Tag>)
    returns (left: Option<uint32>, m': Weights, ghost cur': seq<Inc>)
    requires i < |items| && Tracks(ic, items, m, deployed, cur, z, i)
    requires Progressed(v, i, cur, percRemaining, gate, now) && afterPivot == AfterPivot(v, i)
    modifies ic.Repr
    ensures left.None? ==> TripsAt(v, i, gate, now)
    ensures left.Some? ==>
      Tracks(ic, items, m', deployed, cur', z, i + 1) && Progressed(v, i + 1, cur', left.value, gate, now)
  {
    ItemsInRepr(ic, items);
    var share := Turn(ic, items, i, afterPivot, percRemaining, gate, now, cur, z);
    OneMoreTurn(v, i, cur, percRemaining, share, gate, now);
    if share > percRemaining {
      return None, m, cur;
    }
    WeighOneMore(m, deployed, Tags(items), cur, i, Served(cur[i], share, afterPivot, now));
    left := Some(percRemaining - share);
    m' := m[items[i].tag := share];
    cur' := cur[i := Served(cur[i], share, afterPivot, now)];
  }

  lemma ItemsInRepr(ic: IncarnationCollection, items: seq<Incarnation>)
    requires ic.Valid() && ic.Owns(items)
    ensures forall k :: 0 <= k < |items| ==> items[k] in ic.Repr
  {
  }

  ghost predicate PivotKnown(v: seq<Inc>, i: nat, firstNonCanary: int) {
    && -1 <= firstNonCanary < i <= |v|
    && (firstNonCanary == -1 <==> !AfterPivot(v, i))
    && (firstNonCanary >= 0 ==> Pivot(v) == Some(firstNonCanary))
  }

  lemma PivotNoticed(v: seq<Inc>, i: nat, firstNonCanary: int)
    requires i < |v| && PivotKnown(v, i, firstNonCanary)
    ensures var now := if firstNonCanary == -1 && v[i].isRamping then i else firstNonCanary;
            PivotKnown(v, i + 1, now) && (now != -1 && i > now <==> AfterPivot(v, i))
  {
    if firstNonCanary == -1 && v[i].isRamping {
      assert AfterPivot(v, i + 1);
      assert Pivot(v).Some?;
    }
  }

  ghost predicate Underway(v: seq<Inc>, i: nat, cur: seq<Inc>, percRemaining: uint32, firstNonCanary: int,
                           gate: Gate, now: Time)
  {
    if i == |v| && firstNonCanary != -1 then percRemaining == 0 && Finished(v, cur, gate, now)
    else Progressed(v, i, cur, percRemaining, gate, now)
  }

  lemma BeforeFirstTurn(v: seq<Inc>, cur: seq<Inc>, percRemaining: uint32, firstNonCanary: int, gate: Gate, now: Time)
    requires cur == v && percRemaining == 100 && firstNonCanary == -1
    ensures Underway(v, 0, cur, percRemaining, firstNonCanary, gate, now) && PivotKnown(v, 0, firstNonCanary)
  {
  }

  lemma FlagUnchanged(ic: IncarnationCollection, items: seq<Incarnation>, m: Weights, deployed: set<Tag>, cur: seq<Inc>,
                      z: Views, v: seq<Inc>, i: nat, percRemaining: uint32, gate: Gate, now: Time)
    requires i < |items| && Tracks(ic, items, m, deployed, cur, z, i)
    requires Progressed(v, i, cur, percRemaining, gate, now)
    ensures items[i].isRamping == v[i].isRamping
  {
  }

  /** The loop's variables between two turns. */
  datatype Turns = Turns(weights: Weights, percRemaining: uint32, firstNonCanary: int)

  /** What holds before turn `i`. */
  ghost predicate TurnsAt(ic: IncarnationCollection, items: seq<Incarnation>, deployed: set<Tag>, z: Views, g: Stage)
    reads ic, ic.Repr, items
  {
    && |g.v| == |items|
    && Tracks(ic, items, g.st.weights, deployed, g.cur, z, g.i)
    && g.Sound()
  }

  /** The loop's variables together with what they stand for: the listing as it was, the
      turn reached, and the listing as it is. */
  datatype Stage = Stage(v: seq<Inc>, i: nat, st: Turns, cur: seq<Inc>, gate: Gate, now: Time)
  {
    ghost predicate Sound() {
      && Underway(v, i, cur, st.percRemaining, st.firstNonCanary, gate, now)
      && PivotKnown(v, i, st.firstNonCanary)
    }
  }

  /** After the last turn the pivot, if there is one, takes what is left. */
  method EndTurn(ic: IncarnationCollection, items: seq<Incarnation>, i: nat, percRemaining: uint32, firstNonCanary: int,
                 m: Weights, gate: Gate, now: Time,
                 ghost v: seq<Inc>, ghost cur: seq<Inc>, ghost z: Views, ghost deployed: set<Tag>)
    returns (next: Turns, ghost g: Stage)
    requires i < |items| == |v| && Tracks(ic, items, m, deployed, cur, z, i + 1)
    requires Progressed(v, i + 1, cur, percRemaining, gate, now) && PivotKnown(v, i + 1, firstNonCanary)
    modifies ic.Repr
    ensures TurnsAt(ic, items, deployed, z, g) && g == Stage(v, i + 1, next, g.cur, gate, now)
  {
    var left, m' := percRemaining, m;
    ghost var cur' := cur;
    if i == |items| - 1 && percRemaining > 0 && firstNonCanary != -1 {
      m', cur' := Leave(ic, items, firstNonCanary, percRemaining, m, gate, now, v, cur, z, deployed);
      left := 0;
    } else if i == |items| - 1 && percRemaining == 0 {
      NothingLeft(v, cur, percRemaining, gate, now);
    }
    next := Turns(m', left, firstNonCanary);
    g := Stage(v, i + 1, next, cur', gate, now);
  }

  method Iteration(ic: IncarnationCollection, items: seq<Incarnation>, i: nat, st: Turns, gate: Gate, now: Time,
                   ghost z: Views, ghost deployed: set<Tag>, ghost g: Stage)
    returns (next: Option<Turns>, ghost g': Stage)
    requires i < |items| && TurnsAt(ic, items, deployed, z, g) && g == Stage(g.v, i, st, g.cur, gate, now)
    modifies ic.Repr
    ensures ic.Valid()
    ensures next.None? ==> TripsAt(g.v, i, gate, now)
    ensures next.Some? ==> TurnsAt(ic, items, deployed, z, g') && g' == Stage(g.v, i + 1, next.value, g'.cur, gate, now)
  {
    var firstNonCanary := st.firstNonCanary;
    PivotNoticed(g.v, i, firstNonCanary);
    FlagUnchanged(ic, items, st.weights, deployed, g.cur, z, g.v, i, st.percRemaining, gate, now);
    if firstNonCanary == -1 && items[i].isRamping {
      firstNonCanary := i;
    }
    var left, m;
    ghost var cur;
    left, m, cur := TakeTurn(ic, items, i, firstNonCanary != -1 && i > firstNonCanary, st.percRemaining, st.weights,
                              gate, now, g.v, g.cur, z, deployed);
    if left.None? {
      return None, g;
    }
    var turns;
    turns, g' := EndTurn(ic, items, i, left.value, firstNonCanary, m, gate, now, g.v, cur, z, deployed);
    next := Some(turns);
  }

  /** Without a pivot the first listed revision takes what is left. */
  method Conclude(ic: IncarnationCollection, items: seq<Incarnation>, st: Turns, gate: Gate, now: Time,
                  ghost z: Views, ghost deployed: set<Tag>, ghost g: Stage)
    returns (m: Weights, ghost cur': seq<Inc>)
    requires TurnsAt(ic, items, deployed, z, g) && g == Stage(g.v, |items|, st, g.cur, gate, now)
    modifies ic.Repr
    ensures Finished(g.v, cur', gate, now) && Tracks(ic, items, m, deployed, cur', z, |items|)
  {
    m, cur' := st.weights, g.cur;
    if st.percRemaining > 0 && |items| > 0 {
      m, cur' := Leave(ic, items, 0, st.percRemaining, m, gate, now, g.v, g.cur, z, deployed);
    } else if st.firstNonCanary == -1 {
      NothingLeft(g.v, g.cur, st.percRemaining, gate, now);
    }
  }

  /** The allocation loop, newest to oldest. */
  method AllocateTraffic(ic: IncarnationCollection, items: seq<Incarnation>, zeroWeights: Weights, gate: Gate, now: Time,
                         ghost v: seq<Inc>, ghost z: Views, ghost deployed: set<Tag>)
    returns (weights: Option<Weights>, ghost cur: seq<Inc>)
    requires Tracks(ic, items, zeroWeights, deployed, v, z, 0)
    modifies ic.Repr
    ensures ic.Valid()
    ensures weights.None? <==> Trips(v, gate, now)
    ensures weights.Some? ==>
      Finished(v, cur, gate, now) && Tracks(ic, items, weights.value, deployed, cur, z, |items|)
  {
    var st := Turns(zeroWeights, 100, -1);
    BeforeFirstTurn(v, v, st.percRemaining, st.firstNonCanary, gate, now);
    ghost var g := Stage(v, 0, st, v, gate, now);
    var i := 0;
    while i < |items|
      invariant 0 <= i <= |items|
      invariant TurnsAt(ic, items, deployed, z, g) && g == Stage(v, i, st, g.cur, gate, now)
    {
      var next;
      next, g := Iteration(ic, items, i, st, gate, now, z, deployed, g);
      if next.None? {
        return None, v;
      }
      st := next.value;
      i := i + 1;
    }
    var m;
    m, cur := Conclude(ic, items, st, gate, now, z, deployed, g);
    return Some(m), cur;
  }

  // ---------------------------------------------------------------- the whole

  lemma ListedMember(ic: IncarnationCollection, items: seq<Incarnation>, cur: seq<Inc>, z: Views, t: Tag)
    requires Holds(ic, items, cur, z) && t in Tags(items)
    ensures t in ic.itemSet && ic.itemSet[t].View() == cur[IndexOf(Tags(items), t)]
  {
    assert items[IndexOf(Tags(items), t)].tag == t;
  }

  lemma AllocatedMember(ic: IncarnationCollection, items: seq<Incarnation>, before: Views, cur: seq<Inc>,
                        gate: Gate, now: Time, t: Tag)
    requires ReleasableOrder(before, Tags(items)) && before.Keys == ic.itemSet.Keys && t in before
    requires Holds(ic, items, cur, Zeroed(before, now)) && Finished(InOrder(before, Tags(items)), cur, gate, now)
    ensures ic.itemSet[t].View() == Allocated(before, Tags(items), gate, now)[t]
  {
    if t in Tags(items) {
      ListedMember(ic, items, cur, Zeroed(before, now), t);
    }
  }

  lemma FinishedIsAllocated(ic: IncarnationCollection, items: seq<Incarnation>, before: Views, cur: seq<Inc>,
                            gate: Gate, now: Time)
    requires ReleasableOrder(before, Tags(items)) && before.Keys == ic.itemSet.Keys
    requires Holds(ic, items, cur, Zeroed(before, now)) && Finished(InOrder(before, Tags(items)), cur, gate, now)
    ensures ic.Snapshot() == Allocated(before, Tags(items), gate, now)
  {
    var after := Allocated(before, Tags(items), gate, now);
    forall t | t in ic.itemSet ensures ic.itemSet[t].View() == after[t] {
      AllocatedMember(ic, items, before, cur, gate, now, t);
    }
    ic.AgreesEverywhere(after);
  }

  lemma ListedWeight(order: seq<Tag>, before: Views, cur: seq<Inc>, m: Weights, t: Tag, gate: Gate, now: Time)
    requires ReleasableOrder(before, order) && Finished(InOrder(before, order), cur, gate, now)
    requires Weighed(m, DeployedTags(before), order, cur, |order|) && t in order
    ensures t in m && m[t] == FinalPercent(InOrder(before, order), IndexOf(order, t), gate, now)
  {
    assert order[IndexOf(order, t)] == t;
  }

  lemma FinishedIsWeighed(order: seq<Tag>, before: Views, cur: seq<Inc>, m: Weights, gate: Gate, now: Time)
    requires ReleasableOrder(before, order) && Finished(InOrder(before, order), cur, gate, now)
    requires Weighed(m, DeployedTags(before), order, cur, |order|)
    ensures m == RouteWeights(before, order, gate, now)
  {
    assert order[..|order|] == order;
    forall t | t in order
      ensures t in m && m[t] == FinalPercent(InOrder(before, order), IndexOf(order, t), gate, now)
    {
      ListedWeight(order, before, cur, m, t, gate, now);
    }
    SameWeights(m, RouteWeights(before, order, gate, now));
  }

  lemma SameWeights(m: Weights, n: Weights)
    requires m.Keys == n.Keys && forall t :: t in m ==> m[t] == n[t]
    ensures m == n
  {
  }

  lemma StartsUntouched(ic: IncarnationCollection, items: seq<Incarnation>, before: Views, m: Weights, now: Time)
    requires ic.Valid() && ic.Snapshot() == Zeroed(before, now)
    requires ic.Owns(items) && ReleasableOrder(ic.Snapshot(), Tags(items))
    requires m.Keys == DeployedTags(before) && forall t :: t in m ==> m[t] == 0
    ensures ReleasableOrder(before, Tags(items))
    ensures Tracks(ic, items, m, DeployedTags(before), InOrder(before, Tags(items)), Zeroed(before, now), 0)
  {
    ZeroingKeepsListing(before, Tags(items), now);
    forall k | 0 <= k < |items| ensures items[k].View() == before[items[k].tag] {
      assert items[k].tag == Tags(items)[k];
    }
  }

  lemma FinishedIsPrepared(ic: IncarnationCollection, items: seq<Incarnation>, before: Views, cur: seq<Inc>, m: Weights,
                           gate: Gate, now: Time)
    requires ReleasableOrder(before, Tags(items)) && before.Keys == ic.itemSet.Keys
    requires Finished(InOrder(before, Tags(items)), cur, gate, now)
    requires Tracks(ic, items, m, DeployedTags(before), cur, Zeroed(before, now), |items|)
    ensures Prepared(before, ic.Snapshot(), Some(m), Tags(items), gate, now)
  {
    FinishedIsAllocated(ic, items, before, cur, gate, now);
    FinishedIsWeighed(Tags(items), before, cur, m, gate, now);
  }

  /** What an allocation in this listing order gives: a panic, or the new percents and
      the weights that go with them. */
  ghost predicate Prepared(before: Views, after: Views, weights: Option<Weights>, order: seq<Tag>, gate: Gate, now: Time) {
    && ReleasableOrder(before, order)
    && if Trips(InOrder(before, order), gate, now) then weights.None?
       else after == Allocated(before, order, gate, now) && weights == Some(RouteWeights(before, order, gate, now))
  }

  method PrepareRevisions(ic: IncarnationCollection, gate: Gate, now: Time)
    returns (weights: Option<Weights>, ghost order: seq<Tag>)
    requires ic.Valid()
    modifies ic.Repr
    ensures ic.Valid()
    ensures if DeployedTags(old(ic.Snapshot())) == {} then weights == Some(map[]) && ic.Snapshot() == old(ic.Snapshot())
            else Prepared(old(ic.Snapshot()), ic.Snapshot(), weights, order, gate, now)
  {
    var revisionsMap := DeployedWeights(ic);
    if revisionsMap == map[] {
      return Some(map[]), [];
    }
    weights, order := Distribute(ic, revisionsMap, gate, now);
  }

  method Distribute(ic: IncarnationCollection, zeroWeights: Weights, gate: Gate, now: Time)
    returns (weights: Option<Weights>, ghost order: seq<Tag>)
    requires ic.Valid()
    requires zeroWeights.Keys == DeployedTags(ic.Snapshot()) && forall t :: t in zeroWeights ==> zeroWeights[t] == 0
    modifies ic.Repr
    ensures ic.Valid()
    ensures Prepared(old(ic.Snapshot()), ic.Snapshot(), weights, order, gate, now)
  {
    ghost var before := ic.Snapshot();
    ZeroUnreleasable(ic, now);
    var items := ic.Releasable();
    order := Tags(items);
    StartsUntouched(ic, items, before, zeroWeights, now);
    ghost var cur;
    weights, cur := AllocateTraffic(ic, items, zeroWeights, gate, now,
                                    InOrder(before, order), Zeroed(before, now), DeployedTags(before));
    if weights.Some? {
      FinishedIsPrepared(ic, items, before, cur, weights.value, gate, now);
    }
  }
}
