/** Where ticking leads, the 18 handlers taken together: what is removed ends deleted, what is
    marked as failed ends failed, and what is healthy ends releasing within a few ticks, from
    every state but those in which it waits or has timed out. */
module Progress {
  import opened Base
  import opened Types
  import opened StateMachine

  function TickedThrough(d: Inc, envs: seq<TickEnv>): Inc
    decreases |envs|
  {
    if envs == [] then d else TickedThrough(Ticked(d, envs[0]), envs[1..])
  }

  predicate AllSucceed(envs: seq<TickEnv>) { forall i :: 0 <= i < |envs| ==> envs[i].fails == {} }

  lemma TickKeepsTheRest(d: Inc, env: TickEnv)
    ensures var w := Ticked(d, env);
            && w.revision == d.revision && w.deployed == d.deployed
            && w.status.currentPercent == d.status.currentPercent
            && w.status.releaseEligible == d.status.releaseEligible
            && w.status.scale == d.status.scale && w.status.ttl == d.status.ttl
  {
  }

  // ---------------------------------------------------------------- removal

  function TicksToDeleted(s: State): nat {
    match s
    case Deleted => 0
    case Deleting => 1
    case _ => 2
  }

  lemma RemovalStep(d: Inc, env: TickEnv)
    requires !d.HasRevision() && d.status.currentPercent == 0 && env.fails == {}
    ensures TicksToDeleted(Ticked(d, env).status.state) <= Max(0, TicksToDeleted(d.status.state) - 1)
  {
    if d.status.state != Deleting && d.status.state != Deleted {
      GoneIsDeleting(d, env);
    }
  }

  lemma GoneIsDeleting(d: Inc, env: TickEnv)
    requires !d.HasRevision() && d.status.currentPercent == 0
    requires d.status.state != Deleting && d.status.state != Deleted
    ensures Ticked(d, env).status.state == Deleting
  {
  }

  lemma {:induction false} RemovalCloses(d: Inc, envs: seq<TickEnv>)
    requires !d.HasRevision() && d.status.currentPercent == 0 && AllSucceed(envs)
    ensures TicksToDeleted(TickedThrough(d, envs).status.state) <= Max(0, TicksToDeleted(d.status.state) - |envs|)
    decreases |envs|
  {
    if envs != [] {
      RemovalStep(d, envs[0]);
      TickKeepsTheRest(d, envs[0]);
      RemovalCloses(Ticked(d, envs[0]), envs[1..]);
    }
  }

  /** Whatever state it is in, a revision that is gone and carries no traffic is deleted
      after two ticks, and stays so. */
  lemma {:induction false} RemovalCompletes(d: Inc, envs: seq<TickEnv>)
    requires !d.HasRevision() && d.status.currentPercent == 0 && AllSucceed(envs) && |envs| >= 2
    ensures TickedThrough(d, envs).status.state == Deleted
  {
    RemovalCloses(d, envs);
  }

  // ---------------------------------------------------------------- failure

  function TicksToFailed(s: State): nat {
    match s
    case Failed => 0
    case Failing => 1
    case Created | Testing | Deleting | Deleted => 3
    case _ => 2
  }

  /** A test that has been started is waited for, whatever else fails. */
  predicate AwaitsTest(d: Inc) { d.status.state == Testing && TestStatus(d) == Started }

  lemma FailsOver(d: Inc, env: TickEnv)
    requires d.MarkedAsFailed() && d.status.currentPercent == 0 && TicksToFailed(d.status.state) == 2
    ensures Ticked(d, env).status.state == Failing
  {
  }

  lemma FailsSoon(d: Inc, env: TickEnv)
    requires d.MarkedAsFailed() && d.status.currentPercent == 0 && !AwaitsTest(d)
    requires TicksToFailed(d.status.state) == 3
    ensures Ticked(d, env).status.state in {Failing, Deploying, TimingOut, Tested, PendingTest}
  {
  }

  lemma StaysFailed(d: Inc, env: TickEnv)
    requires d.MarkedAsFailed() && d.status.currentPercent == 0 && env.fails == {}
    requires d.status.state == Failing || d.status.state == State.Failed
    ensures Ticked(d, env).status.state == State.Failed
  {
  }

  lemma FailureStep(d: Inc, env: TickEnv)
    requires d.MarkedAsFailed() && d.status.currentPercent == 0 && !AwaitsTest(d) && env.fails == {}
    ensures TicksToFailed(Ticked(d, env).status.state) <= Max(0, TicksToFailed(d.status.state) - 1)
    ensures Ticked(d, env).status.state != Testing
  {
    if TicksToFailed(d.status.state) == 3 {
      FailsSoon(d, env);
    } else if TicksToFailed(d.status.state) == 2 {
      FailsOver(d, env);
    } else {
      StaysFailed(d, env);
    }
  }

  lemma {:induction false} FailureCloses(d: Inc, envs: seq<TickEnv>)
    requires d.MarkedAsFailed() && d.status.currentPercent == 0 && !AwaitsTest(d) && AllSucceed(envs)
    ensures TicksToFailed(TickedThrough(d, envs).status.state) <= Max(0, TicksToFailed(d.status.state) - |envs|)
    decreases |envs|
  {
    if envs != [] {
      FailureStep(d, envs[0]);
      TickKeepsTheRest(d, envs[0]);
      FailureCloses(Ticked(d, envs[0]), envs[1..]);
    }
  }

  /** A revision marked as failed that carries no traffic is failed after three ticks, and
      stays so, unless it is waiting for a started test. */
  lemma {:induction false} FailureCompletes(d: Inc, envs: seq<TickEnv>)
    requires d.MarkedAsFailed() && d.status.currentPercent == 0 && AllSucceed(envs) && |envs| >= 3
    requires !AwaitsTest(d)
    ensures TickedThrough(d, envs).status.state == State.Failed
  {
    FailureCloses(d, envs);
  }

  /** And while it is waiting it does wait: only a timeout ends it. */
  lemma StartedTestIsAwaited(d: Inc, env: TickEnv)
    requires AwaitsTest(d) && env.fails == {}
    ensures Ticked(d, env).status.state == Testing
       <==> !env.testTimingOut && !TimedOut(d, DEPLOYING_TIMEOUT, env)
  {
  }

  // ---------------------------------------------------------------- release

  /** Nothing stands in the way: deployed, its external test passed or not wanted, eligible,
      its canary served if it has one, the schedule permitting, nothing overdue. */
  predicate Healthy(d: Inc, env: TickEnv) {
    && d.revision.Some? && !d.MarkedAsFailed()
    && (TestStatus(d) == Succeeded || TestStatus(d) == Disabled) && !env.testTimingOut
    && d.IsDeployed() && d.status.releaseEligible && !d.IsCanaryPending(env.now)
    && !TimedOut(d, CREATED_TIMEOUT, env) && !TimedOut(d, DEPLOYING_TIMEOUT, env)
    && env.schedulePermits && env.fails == {}
    && (d.status.state in {Retiring, Deleting, Failing} ==> d.status.currentPercent == 0)
  }

  /** What has timed out stays so, and what was pending a test that is no longer wanted, or
      had passed one, waits for it. */
  predicate Waits(d: Inc) {
    || d.status.state == TimingOut
    || (d.status.state == PendingTest && TestStatus(d) == Disabled)
  }

  function TicksToReleasing(d: Inc): nat {
    match d.status.state
    case Releasing | Released => 0
    case PendingRelease => 1
    case Tested => if TestStatus(d) == Disabled then 5 else 2
    case Canaried => 2
    case Deployed => if TestStatus(d) == Disabled then 2 else 3
    case Canarying => 3
    case PendingTest => 3
    case Testing => if TestStatus(d) == Disabled then 4 else 3
    case Deploying => if TestStatus(d) == Disabled then 3 else 4
    case _ => 5
  }

  lemma HealthyMoves(d: Inc, env: TickEnv)
    requires Healthy(d, env) && !Waits(d)
    ensures Handle(d, env).next.Some?
    ensures Ticked(d, env).status.state in {Deploying, Deployed, Testing, Tested, Canaried, PendingRelease, Releasing, Released}
    ensures TicksToReleasing(Ticked(d, env)) <= Max(0, TicksToReleasing(d) - 1)
  {
  }

  lemma HealthyStep(d: Inc, env: TickEnv)
    requires Healthy(d, env) && !Waits(d)
    ensures var w := Ticked(d, env);
            && Healthy(w, env) && !Waits(w)
            && TicksToReleasing(w) <= Max(0, TicksToReleasing(d) - 1)
  {
    HealthyMoves(d, env);
    TickKeepsTheRest(d, env);
    FreshIsNotOverdue(d, env);
  }

  /** A change of state restarts the clock of its timeout, and a healthy revision's canary
      clock is left alone. */
  lemma FreshIsNotOverdue(d: Inc, env: TickEnv)
    requires !TimedOut(d, CREATED_TIMEOUT, env) && !TimedOut(d, DEPLOYING_TIMEOUT, env)
    ensures var w := Ticked(d, env);
            && !TimedOut(w, CREATED_TIMEOUT, env) && !TimedOut(w, DEPLOYING_TIMEOUT, env)
            && (w.status.state != Canarying ==> w.status.canaryStart == d.status.canaryStart)
  {
  }

  lemma {:induction false} HealthyCloses(d: Inc, env: TickEnv, envs: seq<TickEnv>)
    requires Healthy(d, env) && !Waits(d) && forall i :: 0 <= i < |envs| ==> envs[i] == env
    ensures TicksToReleasing(TickedThrough(d, envs)) <= Max(0, TicksToReleasing(d) - |envs|)
    decreases |envs|
  {
    if envs != [] {
      HealthyStep(d, env);
      HealthyCloses(Ticked(d, env), env, envs[1..]);
    }
  }

  /** A healthy revision is releasing after five ticks, from every state but two: what has
      timed out stays there, and so does what is pending a test that is not wanted. */
  lemma {:induction false} ReleaseCompletes(d: Inc, env: TickEnv, envs: seq<TickEnv>)
    requires Healthy(d, env) && (forall i :: 0 <= i < |envs| ==> envs[i] == env) && |envs| >= 5
    ensures if Waits(d) then TickedThrough(d, envs).status.state == d.status.state
            else TickedThrough(d, envs).status.state in {Releasing, Released}
  {
    if Waits(d) {
      WaitingStays(d, env, envs);
    } else {
      HealthyCloses(d, env, envs);
    }
  }

  lemma WaitingStep(d: Inc, env: TickEnv)
    requires Healthy(d, env) && Waits(d)
    ensures var w := Ticked(d, env); Healthy(w, env) && Waits(w) && w.status.state == d.status.state
  {
    FreshIsNotOverdue(d, env);
  }

  lemma {:induction false} WaitingStays(d: Inc, env: TickEnv, envs: seq<TickEnv>)
    requires Healthy(d, env) && Waits(d) && forall i :: 0 <= i < |envs| ==> envs[i] == env
    ensures TickedThrough(d, envs).status.state == d.status.state
    decreases |envs|
  {
    if envs != [] {
      WaitingStep(d, env);
      WaitingStays(Ticked(d, env), env, envs[1..]);
    }
  }
}
