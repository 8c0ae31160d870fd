/** What the observers report about a tag's ReplicaSets, aggregated over clusters:
    controllers/observe/observation.go. */
module Observation {
  import opened Base
  import opened Types

  datatype Cluster = Cluster(name: string, live: bool)

  datatype ReplicaSet = ReplicaSet(desired: nat, current: nat, tag: Tag, cluster: Cluster)

  datatype IntStat = IntStat(min: nat, max: nat, sum: nat, count: nat)

  const EMPTY: IntStat := IntStat(0, 0, 0, 0)

  function With(s: IntStat, n: nat): IntStat {
    IntStat(if s.count == 0 || s.min > n then n else s.min,
            if s.max < n then n else s.max,
            s.sum + n,
            s.count + 1)
  }

  /** The accumulator behind an IntStat. */
  class Recorder {
    var min: nat
    var max: nat
    var sum: nat
    var count: nat

    function Value(): IntStat
      reads this
    {
      IntStat(min, max, sum, count)
    }

    constructor ()
      ensures Value() == EMPTY
    {
      min, max, sum, count := 0, 0, 0, 0;
    }

    method Record(n: nat)
      modifies this
      ensures Value() == With(old(Value()), n)
    {
      if count == 0 || min > n {
        min := n;
      }
      if max < n {
        max := n;
      }
      sum := sum + n;
      count := count + 1;
    }
  }

  datatype DeploymentInfo = DeploymentInfo(desired: IntStat, current: IntStat)

  datatype InfoSet = InfoSet(live: DeploymentInfo, standby: DeploymentInfo)

  function Stat(values: seq<nat>): IntStat {
    if values == [] then EMPTY
    else With(Stat(values[..|values| - 1]), values[|values| - 1])
  }

  predicate Selected(rs: ReplicaSet, tag: Tag, liveness: bool) {
    rs.tag == tag && rs.cluster.live == liveness
  }

  function Select(o: seq<ReplicaSet>, tag: Tag, liveness: bool): seq<ReplicaSet> {
    if o == [] then []
    else
      var rest := Select(o[..|o| - 1], tag, liveness);
      if Selected(o[|o| - 1], tag, liveness) then rest + [o[|o| - 1]] else rest
  }

  function Desired(o: seq<ReplicaSet>): seq<nat> { seq(|o|, i requires 0 <= i < |o| => o[i].desired) }

  function Current(o: seq<ReplicaSet>): seq<nat> { seq(|o|, i requires 0 <= i < |o| => o[i].current) }

  function Info(o: seq<ReplicaSet>, tag: Tag, liveness: bool): DeploymentInfo {
    var chosen := Select(o, tag, liveness);
    DeploymentInfo(Stat(Desired(chosen)), Stat(Current(chosen)))
  }

  predicate Mentions(o: seq<ReplicaSet>, tag: Tag) { exists rs :: rs in o && rs.tag == tag }

  function Summary(o: seq<ReplicaSet>, tag: Tag): Option<InfoSet> {
    if Mentions(o, tag) then Some(InfoSet(Info(o, tag, true), Info(o, tag, false))) else None
  }

  lemma InfoOfOneMore(o: seq<ReplicaSet>, rs: ReplicaSet, tag: Tag, liveness: bool)
    ensures Info(o + [rs], tag, liveness)
         == if Selected(rs, tag, liveness) then
              DeploymentInfo(With(Info(o, tag, liveness).desired, rs.desired),
                             With(Info(o, tag, liveness).current, rs.current))
            else Info(o, tag, liveness)
  {
    var all := o + [rs];
    assert all[..|all| - 1] == o;
    if Selected(rs, tag, liveness) {
      var chosen := Select(o, tag, liveness);
      assert Desired(chosen + [rs])[..|chosen|] == Desired(chosen);
      assert Current(chosen + [rs])[..|chosen|] == Current(chosen);
    }
  }

  method RecordReplicas(rs: ReplicaSet, desired: Recorder, current: Recorder)
    requires desired != current
    modifies desired, current
    ensures desired.Value() == With(old(desired.Value()), rs.desired)
    ensures current.Value() == With(old(current.Value()), rs.current)
  {
    desired.Record(rs.desired);
    current.Record(rs.current);
  }

  /** What the loop knows of the ReplicaSets seen so far. */
  predicate Tallied(o: seq<ReplicaSet>, tag: Tag, found: bool, live: DeploymentInfo, standby: DeploymentInfo) {
    found == Mentions(o, tag) && live == Info(o, tag, true) && standby == Info(o, tag, false)
  }

  function Recorded(info: DeploymentInfo, rs: ReplicaSet): DeploymentInfo {
    DeploymentInfo(With(info.desired, rs.desired), With(info.current, rs.current))
  }

  lemma TallyOneMore(o: seq<ReplicaSet>, rs: ReplicaSet, tag: Tag, found: bool, live: DeploymentInfo, standby: DeploymentInfo)
    requires Tallied(o, tag, found, live, standby)
    ensures if rs.tag != tag then Tallied(o + [rs], tag, found, live, standby)
            else if rs.cluster.live then Tallied(o + [rs], tag, true, Recorded(live, rs), standby)
            else Tallied(o + [rs], tag, true, live, Recorded(standby, rs))
  {
    InfoOfOneMore(o, rs, tag, true);
    InfoOfOneMore(o, rs, tag, false);
    assert rs in o + [rs];
    assert forall x :: x in o + [rs] <==> x in o || x == rs;
  }

  method InfoForTag(o: seq<ReplicaSet>, tag: Tag) returns (r: Option<InfoSet>)
    ensures r == Summary(o, tag)
  {
    var found := false;
    var liveDesired := new Recorder();
    var liveCurrent := new Recorder();
    var standbyDesired := new Recorder();
    var standbyCurrent := new Recorder();
    for i := 0 to |o|
      invariant Tallied(o[..i], tag, found, DeploymentInfo(liveDesired.Value(), liveCurrent.Value()),
                        DeploymentInfo(standbyDesired.Value(), standbyCurrent.Value()))
    {
      var rs := o[i];
      assert o[..i + 1] == o[..i] + [rs];
      TallyOneMore(o[..i], rs, tag, found, DeploymentInfo(liveDesired.Value(), liveCurrent.Value()),
                   DeploymentInfo(standbyDesired.Value(), standbyCurrent.Value()));
      if rs.tag != tag {
        continue;
      }
      found := true;
      if rs.cluster.live {
        RecordReplicas(rs, liveDesired, liveCurrent);
      } else {
        RecordReplicas(rs, standbyDesired, standbyCurrent);
      }
    }
    assert o[..|o|] == o;
    if !found {
      return None;
    }
    return Some(InfoSet(DeploymentInfo(liveDesired.Value(), liveCurrent.Value()),
                        DeploymentInfo(standbyDesired.Value(), standbyCurrent.Value())));
  }

  function ClusterNames(o: seq<ReplicaSet>, liveness: bool): set<string> {
    set rs | rs in o && rs.cluster.live == liveness :: rs.cluster.name
  }

  method CountClusters(o: seq<ReplicaSet>, liveness: bool) returns (n: nat)
    ensures n == |ClusterNames(o, liveness)|
  {
    var nameSet: set<string> := {};
    for i := 0 to |o|
      invariant nameSet == ClusterNames(o[..i], liveness)
    {
      assert o[..i + 1] == o[..i] + [o[i]];
      var cluster := o[i].cluster;
      if cluster.live == liveness {
        nameSet := nameSet + {cluster.name};
      }
      assert ClusterNames(o[..i + 1], liveness)
          == ClusterNames(o[..i], liveness) + (if cluster.live == liveness then {cluster.name} else {});
    }
    assert o[..|o|] == o;
    n := |nameSet|;
  }

  function Combine(a: seq<ReplicaSet>, b: seq<ReplicaSet>): seq<ReplicaSet> { a + b }

  // ---------------------------------------------------------------- merging

  function Merge(a: IntStat, b: IntStat): IntStat {
    if a.count == 0 then b
    else if b.count == 0 then a
    else IntStat(Min(a.min, b.min), Max(a.max, b.max), a.sum + b.sum, a.count + b.count)
  }

  lemma {:induction false} StatShape(v: seq<nat>)
    ensures Stat(v).count == |v|
  {
    if v != [] {
      StatShape(v[..|v| - 1]);
    }
  }

  lemma {:induction false} StatMerges(a: seq<nat>, b: seq<nat>)
    ensures Stat(a + b) == Merge(Stat(a), Stat(b))
  {
    StatShape(a);
    StatShape(b);
    if b == [] {
      assert a + b == a;
    } else {
      var all := a + b;
      assert all[..|all| - 1] == a + b[..|b| - 1];
      StatMerges(a, b[..|b| - 1]);
      StatShape(b[..|b| - 1]);
    }
  }

  lemma {:induction false} SelectDistributes(a: seq<ReplicaSet>, b: seq<ReplicaSet>, tag: Tag, liveness: bool)
    ensures Select(a + b, tag, liveness) == Select(a, tag, liveness) + Select(b, tag, liveness)
  {
    if b == [] {
      assert a + b == a;
    } else {
      var all := a + b;
      assert all[..|all| - 1] == a + b[..|b| - 1];
      SelectDistributes(a, b[..|b| - 1], tag, liveness);
    }
  }

  function MergeInfo(a: DeploymentInfo, b: DeploymentInfo): DeploymentInfo {
    DeploymentInfo(Merge(a.desired, b.desired), Merge(a.current, b.current))
  }

  lemma InfoMerges(a: seq<ReplicaSet>, b: seq<ReplicaSet>, tag: Tag, liveness: bool)
    ensures Info(Combine(a, b), tag, liveness) == MergeInfo(Info(a, tag, liveness), Info(b, tag, liveness))
  {
    var ca, cb := Select(a, tag, liveness), Select(b, tag, liveness);
    SelectDistributes(a, b, tag, liveness);
    assert Desired(ca + cb) == Desired(ca) + Desired(cb);
    assert Current(ca + cb) == Current(ca) + Current(cb);
    StatMerges(Desired(ca), Desired(cb));
    StatMerges(Current(ca), Current(cb));
  }

  /** Observing two groups of clusters and merging is observing them together. */
  lemma SummaryMerges(a: seq<ReplicaSet>, b: seq<ReplicaSet>, tag: Tag)
    ensures Summary(Combine(a, b), tag)
         == match (Summary(a, tag), Summary(b, tag))
            case (None, other) => other
            case (other, None) => other
            case (Some(x), Some(y)) => Some(InfoSet(MergeInfo(x.live, y.live), MergeInfo(x.standby, y.standby)))
  {
    assert Mentions(a + b, tag) <==> Mentions(a, tag) || Mentions(b, tag);
    InfoMerges(a, b, tag, true);
    InfoMerges(a, b, tag, false);
    if !Mentions(a, tag) {
      NothingSelected(a, tag);
    }
    if !Mentions(b, tag) {
      NothingSelected(b, tag);
    }
  }

  lemma {:induction false} NothingSelected(o: seq<ReplicaSet>, tag: Tag)
    requires !Mentions(o, tag)
    ensures forall liveness :: Info(o, tag, liveness) == DeploymentInfo(EMPTY, EMPTY)
  {
    forall liveness ensures Select(o, tag, liveness) == [] {
      if o != [] {
        assert o[|o| - 1] in o;
        assert forall rs :: rs in o[..|o| - 1] ==> rs in o;
        assert !Mentions(o[..|o| - 1], tag);
        NothingSelected(o[..|o| - 1], tag);
        SelectNothing(o[..|o| - 1], tag, liveness);
      }
    }
  }

  lemma {:induction false} SelectNothing(o: seq<ReplicaSet>, tag: Tag, liveness: bool)
    requires !Mentions(o, tag)
    ensures Select(o, tag, liveness) == []
  {
    if o != [] {
      assert o[|o| - 1] in o;
      assert forall rs :: rs in o[..|o| - 1] ==> rs in o;
      SelectNothing(o[..|o| - 1], tag, liveness);
    }
  }

  lemma InfoOfThree(a: seq<ReplicaSet>, b: seq<ReplicaSet>, c: seq<ReplicaSet>, tag: Tag, liveness: bool)
    ensures Info(a + b + c, tag, liveness)
         == MergeInfo(MergeInfo(Info(a, tag, liveness), Info(b, tag, liveness)), Info(c, tag, liveness))
  {
    InfoMerges(a + b, c, tag, liveness);
    InfoMerges(a, b, tag, liveness);
  }

  predicate Proper(s: IntStat) { s.count == 0 ==> s == EMPTY }

  lemma MergeMoves(x: IntStat, y: IntStat, z: IntStat)
    requires Proper(x) && Proper(y) && Proper(z)
    ensures Merge(Merge(x, y), z) == Merge(Merge(x, z), y)
  {
  }

  lemma InfoIsProper(o: seq<ReplicaSet>, tag: Tag, liveness: bool)
    ensures Proper(Info(o, tag, liveness).desired) && Proper(Info(o, tag, liveness).current)
  {
    StatShape(Desired(Select(o, tag, liveness)));
    StatShape(Current(Select(o, tag, liveness)));
  }

  lemma InfoMoves(a: seq<ReplicaSet>, rs: ReplicaSet, b: seq<ReplicaSet>, tag: Tag, liveness: bool)
    ensures Info(a + [rs] + b, tag, liveness) == Info(a + b + [rs], tag, liveness)
  {
    InfoOfThree(a, [rs], b, tag, liveness);
    InfoOfThree(a, b, [rs], tag, liveness);
    InfoIsProper(a, tag, liveness);
    InfoIsProper([rs], tag, liveness);
    InfoIsProper(b, tag, liveness);
    var x, y, z := Info(a, tag, liveness), Info([rs], tag, liveness), Info(b, tag, liveness);
    MergeMoves(x.desired, y.desired, z.desired);
    MergeMoves(x.current, y.current, z.current);
  }

  lemma SummaryMoves(a: seq<ReplicaSet>, rs: ReplicaSet, b: seq<ReplicaSet>, tag: Tag)
    ensures Summary(a + [rs] + b, tag) == Summary(a + b + [rs], tag)
  {
    InfoMoves(a, rs, b, tag, true);
    InfoMoves(a, rs, b, tag, false);
    assert forall x :: x in a + [rs] + b <==> x in a + b + [rs];
  }

  /** The order in which observers answer does not matter. */
  lemma {:induction false} SummaryIgnoresOrder(o: seq<ReplicaSet>, p: seq<ReplicaSet>, tag: Tag)
    requires multiset(o) == multiset(p)
    ensures Summary(o, tag) == Summary(p, tag)
    decreases |o|
  {
    if o == [] {
      assert |p| == |multiset(p)| == 0;
    } else {
      var last := o[|o| - 1];
      var front := o[..|o| - 1];
      assert o == front + [last];
      assert last in multiset(p);
      var k :| 0 <= k < |p| && p[k] == last;
      assert p == p[..k] + [last] + p[k + 1..];
      var rest := p[..k] + p[k + 1..];
      assert multiset(front) == multiset(o) - multiset{last} == multiset(rest);
      SummaryIgnoresOrder(front, rest, tag);
      SummaryMoves(p[..k], last, p[k + 1..], tag);
      SummaryMerges(front, [last], tag);
      SummaryMerges(rest, [last], tag);
    }
  }

  // ---------------------------------------------------------------- deployed everywhere

  /** Each cluster runs at most one ReplicaSet per tag. */
  predicate OnePerCluster(o: seq<ReplicaSet>, tag: Tag) {
    forall i, j :: 0 <= i < j < |o| && o[i].tag == tag && o[j].tag == tag ==> o[i].cluster != o[j].cluster
  }

  /** Incarnation.update's test for a revision that runs in every live cluster. */
  predicate DeployedEverywhere(info: DeploymentInfo, liveClusters: nat) {
    info.current.count >= liveClusters && info.current.min > 0
  }

  predicate DistinctNames(c: seq<ReplicaSet>) {
    forall i, j :: 0 <= i < j < |c| ==> c[i].cluster.name != c[j].cluster.name
  }

  lemma {:induction false} SelectedAreMembers(o: seq<ReplicaSet>, tag: Tag, liveness: bool)
    ensures forall rs :: rs in Select(o, tag, liveness) ==> rs in o && Selected(rs, tag, liveness)
  {
    if o != [] {
      SelectedAreMembers(o[..|o| - 1], tag, liveness);
    }
  }

  lemma {:induction false} SelectedAreDistinct(o: seq<ReplicaSet>, tag: Tag)
    requires OnePerCluster(o, tag)
    ensures DistinctNames(Select(o, tag, true))
  {
    if o != [] {
      var front, last := o[..|o| - 1], o[|o| - 1];
      SelectedAreDistinct(front, tag);
      SelectedAreMembers(front, tag, true);
      var c := Select(front, tag, true);
      if Selected(last, tag, true) {
        forall i | 0 <= i < |c| ensures c[i].cluster.name != last.cluster.name {
          assert c[i] in front;
          var k :| 0 <= k < |front| && front[k] == c[i];
          assert o[k].cluster != o[|o| - 1].cluster;
        }
      }
    }
  }

  function Names(c: seq<ReplicaSet>): set<string> { set rs | rs in c :: rs.cluster.name }

  lemma {:induction false} DistinctNamesCount(c: seq<ReplicaSet>)
    requires DistinctNames(c)
    ensures |Names(c)| == |c|
  {
    if c != [] {
      var front, last := c[..|c| - 1], c[|c| - 1];
      DistinctNamesCount(front);
      assert c == front + [last];
      assert last.cluster.name !in Names(front);
      assert Names(c) == Names(front) + {last.cluster.name};
    }
  }

  lemma SubsetOfSameSize<T>(a: set<T>, b: set<T>)
    requires a <= b && |a| >= |b|
    ensures a == b
  {
    assert |b - a| == |b| - |a|;
    assert b - a == {};
  }

  lemma {:induction false} MinIsLowerBound(v: seq<nat>)
    ensures forall i :: 0 <= i < |v| ==> Stat(v).min <= v[i]
  {
    if v != [] {
      StatShape(v[..|v| - 1]);
      MinIsLowerBound(v[..|v| - 1]);
      forall i | 0 <= i < |v| ensures Stat(v).min <= v[i] {
        if i < |v| - 1 {
          assert v[..|v| - 1][i] == v[i];
        }
      }
    }
  }

  /** A revision counted as deployed has an available replica in every live cluster. */
  lemma DeployedReachesEveryCluster(o: seq<ReplicaSet>, tag: Tag, liveClusters: set<string>, name: string)
    requires OnePerCluster(o, tag)
    requires ClusterNames(o, true) <= liveClusters
    requires Summary(o, tag).Some? && DeployedEverywhere(Summary(o, tag).value.live, |liveClusters|)
    requires name in liveClusters
    ensures exists rs :: rs in o && rs.tag == tag && rs.cluster == Cluster(name, true) && rs.current > 0
  {
    var c := Select(o, tag, true);
    SelectedAreMembers(o, tag, true);
    SelectedAreDistinct(o, tag);
    DistinctNamesCount(c);
    StatShape(Current(c));
    NamesAreClusters(o, c);
    SubsetOfSameSize(Names(c), liveClusters);
    var rs :| rs in c && rs.cluster.name == name;
    var i :| 0 <= i < |c| && c[i] == rs;
    MinIsLowerBound(Current(c));
    assert Current(c)[i] == rs.current;
    assert rs.cluster == Cluster(name, true);
  }

  lemma NamesAreClusters(o: seq<ReplicaSet>, c: seq<ReplicaSet>)
    requires forall rs :: rs in c ==> rs in o && rs.cluster.live
    ensures Names(c) <= ClusterNames(o, true)
  {
    forall n | n in Names(c) ensures n in ClusterNames(o, true) {
      var rs :| rs in c && rs.cluster.name == n;
      assert rs in o && rs.cluster.live;
    }
  }

  // ---------------------------------------------------------------- sums and extremes

  function SumOf(values: seq<nat>): nat { if values == [] then 0 else values[0] + SumOf(values[1..]) }

  lemma {:induction false} SumOfAppend(values: seq<nat>, n: nat)
    ensures SumOf(values + [n]) == SumOf(values) + n
  {
    if values != [] {
      assert (values + [n])[1..] == values[1..] + [n];
      SumOfAppend(values[1..], n);
    }
  }

  /** A statistic holds the number of the values, their sum, and the least and the greatest. */
  ghost predicate Describes(s: IntStat, values: seq<nat>) {
    && s.count == |values|
    && s.sum == SumOf(values)
    && (forall i :: 0 <= i < |values| ==> s.min <= values[i] <= s.max)
    && (values != [] ==> s.min in values && s.max in values)
    && (values == [] ==> s.min == 0 && s.max == 0)
  }

  lemma {:induction false} StatDescribes(values: seq<nat>)
    ensures Describes(Stat(values), values)
  {
    if values != [] {
      var front, last := values[..|values| - 1], values[|values| - 1];
      assert values == front + [last];
      StatDescribes(front);
      SumOfAppend(front, last);
      forall i | 0 <= i < |values| ensures Stat(values).min <= values[i] <= Stat(values).max {
        if i < |front| {
          assert front[i] == values[i];
        }
      }
    }
  }

  function SetsOf(o: seq<ReplicaSet>, tag: Tag): nat {
    if o == [] then 0 else (if o[0].tag == tag && o[0].cluster.live then 1 else 0) + SetsOf(o[1..], tag)
  }

  function PodsOf(o: seq<ReplicaSet>, tag: Tag): nat {
    if o == [] then 0 else (if o[0].tag == tag && o[0].cluster.live then o[0].current else 0) + PodsOf(o[1..], tag)
  }

  function WantedOf(o: seq<ReplicaSet>, tag: Tag): nat {
    if o == [] then 0 else (if o[0].tag == tag && o[0].cluster.live then o[0].desired else 0) + WantedOf(o[1..], tag)
  }

  lemma {:induction false} OfAppend(o: seq<ReplicaSet>, rs: ReplicaSet, tag: Tag)
    ensures var counts := rs.tag == tag && rs.cluster.live;
            && SetsOf(o + [rs], tag) == SetsOf(o, tag) + (if counts then 1 else 0)
            && PodsOf(o + [rs], tag) == PodsOf(o, tag) + (if counts then rs.current else 0)
            && WantedOf(o + [rs], tag) == WantedOf(o, tag) + (if counts then rs.desired else 0)
  {
    if o != [] {
      assert (o + [rs])[1..] == o[1..] + [rs];
      OfAppend(o[1..], rs, tag);
    }
  }

  lemma {:induction false} LiveTotals(o: seq<ReplicaSet>, tag: Tag)
    ensures var info := Info(o, tag, true);
            && info.current.count == SetsOf(o, tag)
            && info.current.sum == PodsOf(o, tag)
            && info.desired.sum == WantedOf(o, tag)
  {
    if o != [] {
      var front, last := o[..|o| - 1], o[|o| - 1];
      assert o == front + [last];
      LiveTotals(front, tag);
      OfAppend(front, last, tag);
      InfoOfOneMore(front, last, tag, true);
    }
  }

  /** The tag has ReplicaSets in live clusters, and replicas available in each. */
  ghost predicate AllAvailable(o: seq<ReplicaSet>, tag: Tag) {
    SetsOf(o, tag) > 0 && forall rs :: rs in o && rs.tag == tag && rs.cluster.live ==> rs.current > 0
  }

  lemma {:induction false} MinimumMeans(o: seq<ReplicaSet>, tag: Tag)
    ensures Info(o, tag, true).current.min > 0 <==> AllAvailable(o, tag)
  {
    LiveTotals(o, tag);
    if o != [] {
      var front, last := o[..|o| - 1], o[|o| - 1];
      assert o == front + [last];
      MinimumMeans(front, tag);
      LiveTotals(front, tag);
      OfAppend(front, last, tag);
      InfoOfOneMore(front, last, tag, true);
      assert forall rs :: rs in o <==> rs in front || rs == last;
      NoSets(front, tag);
    }
  }

  lemma {:induction false} NoSets(o: seq<ReplicaSet>, tag: Tag)
    ensures SetsOf(o, tag) == 0 <==> forall rs :: rs in o ==> !(rs.tag == tag && rs.cluster.live)
  {
    if o != [] {
      NoSets(o[1..], tag);
      assert forall rs :: rs in o <==> rs == o[0] || rs in o[1..];
    }
  }
}
