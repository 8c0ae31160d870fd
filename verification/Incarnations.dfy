/** An applied revision: controllers/incarnation.go. The functions say what each
    method does to a snapshot; the class does it in place. */
module Incarnations {
  import opened Base
  import opened Types
  import opened Observation
  import opened StateMachine

  // ---------------------------------------------------------------- snapshots

  function FreshStatus(tag: Tag, now: Time): Status {
    Status(tag, Created, None, 0, 0, false, Some(now), None, 0, ScaleStatus(0, 0, 0), false)
  }

  function Find(saved: seq<Status>, tag: Tag): Option<Status> {
    if saved == [] then None
    else if saved[0].tag == tag then Some(saved[0])
    else Find(saved[1..], tag)
  }

  /** Eligibility and time to live follow the revision until it is deployed. */
  function LoadedStatus(saved: seq<Status>, tag: Tag, revision: Option<Revision>, now: Time): Status {
    var found := Find(saved, tag);
    var s := if found.Some? then found.value else FreshStatus(tag, now);
    if s.state != Created && s.state != Deploying then s
    else if revision.None? then s.(releaseEligible := false)
    else s.(releaseEligible := revision.value.target.release.eligible, ttl := revision.value.target.release.ttl)
  }

  /** A revision whose ReplicaSets are gone keeps no traffic. */
  function Observed(inc: Inc, info: Option<DeploymentInfo>, liveCount: nat, now: Time): Inc {
    var s := inc.status;
    if info.None? then
      inc.(deployed := false,
           status := s.(lastUpdated := if s.currentPercent != 0 then Some(now) else s.lastUpdated,
                        currentPercent := 0,
                        scale := ScaleStatus(0, 0, s.scale.peak),
                        deleted := true))
    else
      var current := info.value.current.sum;
      inc.(deployed := DeployedEverywhere(info.value, liveCount),
           status := s.(deleted := false,
                        scale := ScaleStatus(current, info.value.desired.sum, Max(current, s.scale.peak))))
  }

  function Loaded(saved: seq<Status>, tag: Tag, revision: Option<Revision>, info: Option<DeploymentInfo>,
                  liveCount: nat, now: Time): Inc
  {
    Observed(Inc(tag, revision, LoadedStatus(saved, tag, revision, now), false, false), info, liveCount, now)
  }

  function WithPercent(inc: Inc, percent: uint32, now: Time): Inc {
    var s := inc.status;
    inc.(status := s.(currentPercent := percent,
                      lastUpdated := if s.currentPercent != percent then Some(now) else s.lastUpdated,
                      peakPercent := Max(s.peakPercent, percent)))
  }

  // ---------------------------------------------------------------- objects

  class Incarnation {
    const tag: Tag
    const revision: Option<Revision>
    var status: Status
    var deployed: bool
    var isRamping: bool

    function View(): Inc
      reads this
    {
      Inc(tag, revision, status, deployed, isRamping)
    }

    constructor (saved: seq<Status>, tag: Tag, revision: Option<Revision>, info: Option<DeploymentInfo>,
                 liveCount: nat, now: Time)
      ensures View() == Loaded(saved, tag, revision, info, liveCount, now)
      ensures this.tag == tag
    {
      this.tag := tag;
      this.revision := revision;
      this.deployed := false;
      this.isRamping := false;
      this.status := FreshStatus(tag, now);
      new;
      var i := 0;
      while i < |saved|
        invariant 0 <= i <= |saved|
        invariant Find(saved, tag) == Find(saved[i..], tag)
        invariant status == FreshStatus(tag, now) && !deployed && !isRamping
      {
        if saved[i].tag == tag {
          status := saved[i];
          break;
        }
        i := i + 1;
      }
      assert i == |saved| ==> saved[i..] == [];
      if status.state == Created || status.state == Deploying {
        if revision.Some? {
          status := status.(releaseEligible := revision.value.target.release.eligible);
          status := status.(ttl := revision.value.target.release.ttl);
        } else {
          status := status.(releaseEligible := false);
        }
      }
      Update(info, liveCount, now);
    }

    method Update(info: Option<DeploymentInfo>, liveCount: nat, now: Time)
      modifies this
      ensures View() == Observed(old(View()), info, liveCount, now)
    {
      if info.None? {
        deployed := false;
        if status.currentPercent != 0 {
          status := status.(lastUpdated := Some(now));
          status := status.(currentPercent := 0);
        }
        status := status.(scale := status.scale.(current := 0, desired := 0));
        status := status.(deleted := true);
      } else {
        deployed := info.value.current.count >= liveCount && info.value.current.min > 0;
        status := status.(deleted := false);
        status := status.(scale := status.scale.(desired := info.value.desired.sum, current := info.value.current.sum));
        if status.scale.current > status.scale.peak {
          status := status.(scale := status.scale.(peak := status.scale.current));
        }
      }
    }

    method UpdateCurrentPercent(current: uint32, now: Time)
      modifies this
      ensures View() == WithPercent(old(View()), current, now)
    {
      if status.currentPercent != current {
        status := status.(currentPercent := current);
        status := status.(lastUpdated := Some(now));
      }
      if current > status.peakPercent {
        status := status.(peakPercent := current);
      }
    }

    method SetReleaseEligible(flag: bool)
      modifies this
      ensures View() == old(View()).(status := old(status).(releaseEligible := flag))
    {
      status := status.(releaseEligible := flag);
    }

    method SetState(next: State, now: Time)
      modifies this
      ensures View() == old(View()).(status := StateMachine.SetState(old(status), next, now))
    {
      if next == Canarying {
        if status.canaryStart.None? && status.currentPercent > 0 {
          status := status.(canaryStart := Some(now));
        }
      }
      if status.state != next {
        status := status.(stateUpdated := Some(now));
      }
      status := status.(state := next);
    }

    /** DeploymentStateManager.tick */
    method Tick(env: TickEnv) returns (outcome: Outcome)
      modifies this
      ensures outcome == Handle(old(View()), env)
      ensures View() == Ticked(old(View()), env)
    {
      outcome := Handle(View(), env);
      if outcome.next.Some? {
        SetState(outcome.next.value, env.now);
      }
    }
  }
}
