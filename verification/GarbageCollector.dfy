/** Which revisions may be deleted: controllers/garbagecollector/defaultStrategy.go and
    the order it relies on, controllers/garbagecollector/common.go. */
module GarbageCollector {
  import opened Base
  import opened Types

  const MINIMUM_RETIRED := 3

  /** What the collector sees of a revision. */
  datatype Candidate = Candidate(tag: Tag, state: State, createdOn: Time, ttl: int)

  predicate NewestFirst(s: seq<Candidate>) {
    forall i, j :: 0 <= i < j < |s| ==> s[i].createdOn >= s[j].createdOn
  }

  predicate Expired(c: Candidate, now: Time) { now > c.createdOn + c.ttl }

  predicate Collectable(s: State) { s == Retired || s == Deleting || s == Deleted || s == State.Failed }

  function RetiredAmong(s: seq<Candidate>): (n: nat)
    ensures n <= |s|
  {
    if s == [] then 0
    else RetiredAmong(s[..|s| - 1]) + (if s[|s| - 1].state == Retired then 1 else 0)
  }

  /** The entry is too old to keep, and not one of the retired ones held for rollbacks. */
  predicate IsGarbage(s: seq<Candidate>, i: nat, now: Time)
    requires i < |s|
  {
    && Expired(s[i], now)
    && Collectable(s[i].state)
    && (s[i].state == Retired ==> RetiredAmong(s[..i]) >= MINIMUM_RETIRED)
  }

  /** The garbage among the first `n`, in the same order. */
  function Garbage(s: seq<Candidate>, n: nat, now: Time): (r: seq<Candidate>)
    requires n <= |s|
    ensures |r| <= n
  {
    if n == 0 then []
    else Garbage(s, n - 1, now) + (if IsGarbage(s, n - 1, now) then [s[n - 1]] else [])
  }

  /** Never everything: if all are garbage the last is spared. */
  function Spared(garbage: seq<Candidate>, count: nat): seq<Candidate>
    requires |garbage| == count ==> count > 0
  {
    if |garbage| == count then garbage[..|garbage| - 1] else garbage
  }

  // ---------------------------------------------------------------- the loops

  lemma {:induction false} NewestIndexExists(s: seq<Candidate>)
    requires s != []
    ensures exists k :: 0 <= k < |s| && forall j :: 0 <= j < |s| ==> s[j].createdOn <= s[k].createdOn
  {
    var front, last := s[..|s| - 1], s[|s| - 1];
    if front == [] {
      assert forall j :: 0 <= j < |s| ==> s[j].createdOn <= s[0].createdOn;
    } else {
      NewestIndexExists(front);
      var k :| 0 <= k < |front| && forall j :: 0 <= j < |front| ==> front[j].createdOn <= front[k].createdOn;
      var best := if last.createdOn > s[k].createdOn then |s| - 1 else k;
      assert forall j :: 0 <= j < |front| ==> s[j] == front[j];
      assert forall j :: 0 <= j < |s| ==> s[j].createdOn <= s[best].createdOn;
    }
  }

  /** The places before and after `k`. */
  function Others(s: seq<Candidate>, k: nat): (r: seq<Candidate>)
    requires k < |s|
    ensures |r| == |s| - 1
    ensures multiset(s) == multiset(r) + multiset{s[k]}
    ensures forall c :: c in r ==> c in s
  {
    assert s == s[..k] + [s[k]] + s[k + 1..];
    s[..k] + s[k + 1..]
  }

  /** Nothing still to be listed is newer than what is. */
  predicate NoneNewer(r: seq<Candidate>, rest: seq<Candidate>) {
    NewestFirst(r) && forall i, c :: 0 <= i < |r| && c in rest ==> r[i].createdOn >= c.createdOn
  }

  lemma ListsNewest(r: seq<Candidate>, rest: seq<Candidate>, k: nat)
    requires NoneNewer(r, rest) && k < |rest| && forall j :: 0 <= j < |rest| ==> rest[j].createdOn <= rest[k].createdOn
    ensures NoneNewer(r + [rest[k]], Others(rest, k))
    ensures multiset(r + [rest[k]]) + multiset(Others(rest, k)) == multiset(r) + multiset(rest)
  {
  }

  /** Newest first; equally old revisions may come in any order. */
  method SortRevisions(revisions: seq<Candidate>) returns (r: seq<Candidate>)
    ensures multiset(r) == multiset(revisions) && NewestFirst(r)
  {
    r := [];
    var rest := revisions;
    while rest != []
      invariant multiset(r) + multiset(rest) == multiset(revisions)
      invariant NoneNewer(r, rest)
      decreases |rest|
    {
      NewestIndexExists(rest);
      var k :| 0 <= k < |rest| && forall j :: 0 <= j < |rest| ==> rest[j].createdOn <= rest[k].createdOn;
      ListsNewest(r, rest, k);
      r, rest := r + [rest[k]], Others(rest, k);
    }
  }

  /** An empty list would be cut below its start, which is a panic. */
  method DefaultStrategy(revisions: seq<Candidate>, now: Time)
    returns (garbage: Option<seq<Candidate>>, ghost sorted: seq<Candidate>)
    ensures multiset(sorted) == multiset(revisions) && NewestFirst(sorted)
    ensures garbage.None? <==> revisions == []
    ensures garbage.Some? ==> garbage.value == Spared(Garbage(sorted, |sorted|, now), |sorted|)
  {
    var budget := MINIMUM_RETIRED;
    var toDelete := [];
    var s := SortRevisions(revisions);
    sorted := s;
    assert |s| == |multiset(s)| == |revisions|;
    for i := 0 to |s|
      invariant toDelete == Garbage(s, i, now)
      invariant budget == Max(0, MINIMUM_RETIRED - RetiredAmong(s[..i]))
    {
      var rev := s[i];
      assert s[..i + 1][..i] == s[..i];
      if rev.state == Retired && budget > 0 {
        budget := budget - 1;
        continue;
      }
      if now > rev.createdOn + rev.ttl {
        if rev.state == Retired || rev.state == Deleting || rev.state == Deleted || rev.state == State.Failed {
          toDelete := toDelete + [rev];
        } else {
          continue;
        }
      }
    }
    assert s[..|s|] == s;
    if |revisions| == |toDelete| {
      if |toDelete| == 0 {
        return None, sorted;
      }
      return Some(toDelete[..|toDelete| - 1]), sorted;
    }
    return Some(toDelete), sorted;
  }

  // ---------------------------------------------------------------- retention

  /** The places the garbage is taken from. */
  function Places(s: seq<Candidate>, n: nat, now: Time): seq<nat>
    requires n <= |s|
  {
    if n == 0 then [] else Places(s, n - 1, now) + (if IsGarbage(s, n - 1, now) then [n - 1] else [])
  }

  /** The garbage is a subsequence: it is found at these places, from front to back. */
  lemma {:induction false} GarbageIsSubsequence(s: seq<Candidate>, n: nat, now: Time)
    requires n <= |s|
    ensures var places, garbage := Places(s, n, now), Garbage(s, n, now);
            && |places| == |garbage|
            && (forall k :: 0 <= k < |places| ==> places[k] < n && garbage[k] == s[places[k]])
            && (forall k, m :: 0 <= k < m < |places| ==> places[k] < places[m])
  {
    if n > 0 {
      GarbageIsSubsequence(s, n - 1, now);
    }
  }

  function RetiredPlaces(s: seq<Candidate>, n: nat): set<int>
    requires n <= |s|
  {
    set j | 0 <= j < n && s[j].state == Retired
  }

  lemma OnePlaceMore(s: seq<Candidate>, n: nat)
    requires 0 < n <= |s|
    ensures RetiredPlaces(s, n)
         == RetiredPlaces(s, n - 1) + (if s[n - 1].state == Retired then {n - 1} else {})
    ensures n - 1 !in RetiredPlaces(s, n - 1)
  {
  }

  lemma {:induction false} RetiredAreCounted(s: seq<Candidate>, n: nat)
    requires n <= |s|
    ensures RetiredAmong(s[..n]) == |RetiredPlaces(s, n)|
  {
    if n > 0 {
      RetiredAreCounted(s, n - 1);
      OnePlaceMore(s, n);
      assert s[..n] == s[..n - 1] + [s[n - 1]];
      RetiredOfLonger(s[..n - 1], s[n - 1]);
    }
  }

  lemma {:induction false} GarbageIsTaken(s: seq<Candidate>, n: nat, i: nat, now: Time)
    requires n <= |s| && i < |s|
    ensures i in Places(s, n, now) <==> i < n && IsGarbage(s, i, now)
  {
    if n > 0 {
      GarbageIsTaken(s, n - 1, i, now);
    }
  }

  /** And these are the places of all entries that are past their time, in one of the four
      final states, and, if retired, after at least three others that are. */
  lemma AllGarbageIsTaken(s: seq<Candidate>, i: nat, now: Time)
    requires i < |s|
    ensures i in Places(s, |s|, now)
       <==> && now > s[i].createdOn + s[i].ttl
            && s[i].state in {Retired, Deleting, Deleted, State.Failed}
            && (s[i].state == Retired ==> |set j | 0 <= j < i && s[j].state == Retired| >= 3)
  {
    GarbageIsTaken(s, |s|, i, now);
    RetiredAreCounted(s, i);
  }

  /** Whatever is in the garbage is past its time and in a final state. */
  lemma {:induction false} GarbageIsPast(s: seq<Candidate>, n: nat, c: Candidate, now: Time)
    requires n <= |s| && c in Garbage(s, n, now)
    ensures c in s && now > c.createdOn + c.ttl && c.state in {Retired, Deleting, Deleted, State.Failed}
  {
    if c in Garbage(s, n - 1, now) {
      GarbageIsPast(s, n - 1, c, now);
    }
  }

  lemma {:induction false} GarbageIsAll(s: seq<Candidate>, n: nat, now: Time)
    requires n <= |s|
    ensures |Garbage(s, n, now)| == n <==> forall i :: 0 <= i < n ==> IsGarbage(s, i, now)
  {
    if n > 0 {
      GarbageIsAll(s, n - 1, now);
    }
  }

  lemma RetiredOfLonger(s: seq<Candidate>, c: Candidate)
    ensures RetiredAmong(s + [c]) == RetiredAmong(s) + (if c.state == Retired then 1 else 0)
  {
    assert (s + [c])[..|s|] == s;
  }

  lemma {:induction false} NoneRetiredUpTo(s: seq<Candidate>, n: nat, now: Time)
    requires n <= |s| && forall i :: 0 <= i < n ==> IsGarbage(s, i, now)
    ensures RetiredAmong(s[..n]) == 0
  {
    if n > 0 {
      NoneRetiredUpTo(s, n - 1, now);
      assert s[..n] == s[..n - 1] + [s[n - 1]];
      RetiredOfLonger(s[..n - 1], s[n - 1]);
      assert IsGarbage(s, n - 1, now);
    }
  }

  /** Expired, and finished with for good. */
  predicate Spent(c: Candidate, now: Time) {
    Expired(c, now) && (c.state == Deleting || c.state == Deleted || c.state == State.Failed)
  }

  /** Everything is garbage, so that the last entry is spared, exactly when nothing is
      retired and every entry is expired and finished with. */
  lemma EverythingIsGarbageWhen(s: seq<Candidate>, now: Time)
    ensures |Garbage(s, |s|, now)| == |s| <==> forall i :: 0 <= i < |s| ==> Spent(s[i], now)
  {
    GarbageIsAll(s, |s|, now);
    if |Garbage(s, |s|, now)| == |s| {
      forall i | 0 <= i < |s| ensures Spent(s[i], now) {
        NoneRetiredUpTo(s, i, now);
        assert IsGarbage(s, i, now);
      }
    } else {
      var i :| 0 <= i < |s| && !IsGarbage(s, i, now);
      assert !Spent(s[i], now);
    }
  }

  lemma {:induction false} RetiredInGarbage(s: seq<Candidate>, n: nat, now: Time)
    requires n <= |s|
    ensures RetiredAmong(Garbage(s, n, now)) <= Max(0, RetiredAmong(s[..n]) - MINIMUM_RETIRED)
  {
    if n > 0 {
      RetiredInGarbage(s, n - 1, now);
      assert s[..n] == s[..n - 1] + [s[n - 1]];
      RetiredOfLonger(s[..n - 1], s[n - 1]);
      RetiredOfLonger(Garbage(s, n - 1, now), s[n - 1]);
      assert Garbage(s, n - 1, now) + [] == Garbage(s, n - 1, now);
    }
  }

  lemma RetiredInPrefix(g: seq<Candidate>)
    requires g != []
    ensures RetiredAmong(g[..|g| - 1]) <= RetiredAmong(g)
  {
  }

  /** Something always stays, and with it as many retired revisions as a rollback may
      need, or all of them when there are fewer. */
  lemma EnoughStays(s: seq<Candidate>, now: Time)
    requires s != []
    ensures var deleted := Spared(Garbage(s, |s|, now), |s|);
            && |deleted| < |s|
            && RetiredAmong(s) - RetiredAmong(deleted) >= Min(MINIMUM_RETIRED, RetiredAmong(s))
  {
    RetiredInGarbage(s, |s|, now);
    assert s[..|s|] == s;
    if |Garbage(s, |s|, now)| == |s| {
      RetiredInPrefix(Garbage(s, |s|, now));
    }
  }

  /** What is spared at the end is the oldest. */
  lemma SparedIsOldest(s: seq<Candidate>, now: Time)
    requires s != [] && NewestFirst(s) && |Garbage(s, |s|, now)| == |s|
    ensures Spared(Garbage(s, |s|, now), |s|) == s[..|s| - 1]
    ensures forall i :: 0 <= i < |s| ==> s[|s| - 1].createdOn <= s[i].createdOn
  {
    FullGarbage(s, |s|, now);
    assert s[..|s|] == s;
  }

  lemma {:induction false} FullGarbage(s: seq<Candidate>, n: nat, now: Time)
    requires n <= |s| && |Garbage(s, n, now)| == n
    ensures Garbage(s, n, now) == s[..n]
  {
    if n > 0 {
      FullGarbage(s, n - 1, now);
      assert s[..n] == s[..n - 1] + [s[n - 1]];
    }
  }
}
