/** The handlers seen from where they lead: for every state, exactly when a tick ends in it,
    in terms of the revision's settings and status; and for every move, which effects have
    been carried out. controllers/state.go */
module Transitions {
  import opened Base
  import opened Types
  import opened StateMachine

  // ---------------------------------------------------------------- what a tick looks at

  predicate Gone(d: Inc) { d.revision.None? }

  /** The revision's specification marks it as failed. */
  predicate Marked(d: Inc) { d.revision.Some? && d.revision.value.failed }

  predicate TestPassed(d: Inc) {
    d.revision.Some? && var t := d.revision.value.target.externalTest; t.completed && t.succeeded
  }

  predicate TestLost(d: Inc) {
    d.revision.Some? && var t := d.revision.value.target.externalTest; t.completed && !t.succeeded
  }

  predicate TestRuns(d: Inc) {
    d.revision.Some? && var t := d.revision.value.target.externalTest; !t.completed && t.started
  }

  predicate TestWanted(d: Inc) {
    d.revision.Some? && var t := d.revision.value.target.externalTest; !t.completed && !t.started && t.enabled
  }

  predicate NoTest(d: Inc) {
    d.revision.Some? && var t := d.revision.value.target.externalTest; !t.completed && !t.started && !t.enabled
  }

  predicate Lost(d: Inc) { Marked(d) || TestLost(d) }

  /** As many replicas run as are desired, in every live cluster. */
  predicate Runs(d: Inc) { d.deployed && d.status.scale.current >= d.status.scale.desired }

  /** A canary is configured and its time is not over. */
  predicate CanaryDue(d: Inc, now: Time) {
    && d.revision.Some?
    && var t := d.revision.value.target;
       && t.canary.percent != 0 && t.canary.ttl != 0 && t.objectives != 0
       && (d.status.canaryStart.Some? ==> now < d.status.canaryStart.value + t.canary.ttl)
  }

  predicate PastItsTime(d: Inc, now: Time) { d.revision.Some? && now > d.revision.value.created + d.status.ttl }

  /** In its state for longer than so many minutes. */
  predicate Overdue(d: Inc, minutes: int, now: Time) {
    d.status.stateUpdated.Some? && now > d.status.stateUpdated.value + 60 * minutes
  }

  predicate Succeed(effects: seq<Effect>, env: TickEnv) { forall k :: 0 <= k < |effects| ==> effects[k] !in env.fails }

  predicate Leads(d: Inc, env: TickEnv, s: State) { Handle(d, env).next == Some(s) }

  // ---------------------------------------------------------------- how effects are attempted

  lemma {:induction false} AllAttempted(effects: seq<Effect>, env: TickEnv)
    requires Succeed(effects, env)
    ensures Attempt(effects, env) == effects
  {
    if effects != [] {
      AllAttempted(effects[1..], env);
    }
  }

  /** Everything up to the first failure, and that. */
  ghost predicate StopsAtFailure(effects: seq<Effect>, fails: set<Effect>) {
    effects != [] && effects[|effects| - 1] in fails && forall k :: 0 <= k < |effects| - 1 ==> effects[k] !in fails
  }

  lemma {:induction false} AttemptStops(effects: seq<Effect>, env: TickEnv)
    requires !Succeed(effects, env)
    ensures StopsAtFailure(Attempt(effects, env), env.fails)
    ensures Attempt(effects, env) <= effects
  {
    if effects[0] !in env.fails {
      AttemptStops(effects[1..], env);
      var rest := Attempt(effects[1..], env);
      assert Attempt(effects, env) == [effects[0]] + rest;
      assert effects == [effects[0]] + effects[1..];
    }
  }

  /** The handler moves on if all effects succeed, and they have all been carried out; else
      it has stopped at the first that failed. */
  ghost predicate Done(o: Outcome, effects: seq<Effect>, next: State, env: TickEnv) {
    if Succeed(effects, env) then o == Outcome(Some(next), effects)
    else o.next.None? && StopsAtFailure(o.effects, env.fails)
  }

  lemma AfterIsDone(effects: seq<Effect>, next: State, env: TickEnv)
    ensures Done(After(effects, next, env), effects, next, env)
  {
    if Succeed(effects, env) {
      AllAttempted(effects, env);
    } else {
      var k :| 0 <= k < |effects| && effects[k] in env.fails;
      assert effects[k] in effects;
      AttemptStops(effects, env);
    }
  }

  /** For every piece of work a handler may do. */
  lemma HandlersAttempt(env: TickEnv)
    ensures forall next: State {:trigger After([Sync], next, env)} :: Done(After([Sync], next, env), [Sync], next, env)
    ensures forall next: State {:trigger After([Retire], next, env)} :: Done(After([Retire], next, env), [Retire], next, env)
    ensures forall next: State {:trigger After([Sync, DeleteTaggedServiceLevels], next, env)} :: Done(After([Sync, DeleteTaggedServiceLevels], next, env), [Sync, DeleteTaggedServiceLevels], next, env)
    ensures forall next: State {:trigger After([DeleteTaggedServiceLevels, Retire], next, env)} :: Done(After([DeleteTaggedServiceLevels, Retire], next, env), [DeleteTaggedServiceLevels, Retire], next, env)
    ensures forall next: State {:trigger After([DeleteCanaryRules, Sync], next, env)} :: Done(After([DeleteCanaryRules, Sync], next, env), [DeleteCanaryRules, Sync], next, env)
    ensures forall next: State {:trigger After([DeleteCanaryRules, DeleteTaggedServiceLevels, Delete], next, env)} :: Done(After([DeleteCanaryRules, DeleteTaggedServiceLevels, Delete], next, env), [DeleteCanaryRules, DeleteTaggedServiceLevels, Delete], next, env)
    ensures forall next: State {:trigger After([DeleteCanaryRules, DeleteTaggedServiceLevels, Retire], next, env)} :: Done(After([DeleteCanaryRules, DeleteTaggedServiceLevels, Retire], next, env), [DeleteCanaryRules, DeleteTaggedServiceLevels, Retire], next, env)
    ensures forall next: State {:trigger After([SyncCanaryRules, DeleteTaggedServiceLevels, Sync], next, env)} :: Done(After([SyncCanaryRules, DeleteTaggedServiceLevels, Sync], next, env), [SyncCanaryRules, DeleteTaggedServiceLevels, Sync], next, env)
  {
    forall effects: seq<Effect>, next: State ensures Done(After(effects, next, env), effects, next, env) {
      AfterIsDone(effects, next, env);
    }
  }

  // ---------------------------------------------------------------- where a tick leads

  lemma NowhereToCreated(d: Inc, env: TickEnv)
    ensures !Leads(d, env, Created)
  {
  }

  lemma ToDeploying(d: Inc, env: TickEnv)
    ensures Leads(d, env, Deploying)
       <==> && !Gone(d)
            && match d.status.state
               case Created => !Overdue(d, 60, env.now)
               case Deploying => !Lost(d) && Succeed([Sync], env) && !Runs(d) && !Overdue(d, 15, env.now)
               case Deployed => !Lost(d) && Succeed([Sync], env) && !Runs(d)
               case Testing => NoTest(d) && !env.testTimingOut
               case Retiring => d.status.currentPercent == 0 && !Marked(d) && d.status.releaseEligible
               case Retired => !Marked(d) && d.status.releaseEligible
               case Deleting => d.status.currentPercent == 0
               case Deleted => true
               case Failing => d.status.currentPercent == 0 && !Lost(d)
               case Failed => !Lost(d)
               case _ => false
  {
    HandlersAttempt(env);
  }

  lemma ToDeployed(d: Inc, env: TickEnv)
    ensures Leads(d, env, Deployed)
       <==> && !Gone(d) && !Lost(d) && Succeed([Sync], env) && Runs(d)
            && match d.status.state
               case Deploying => true
               case Deployed => NoTest(d) && !d.status.releaseEligible && !PastItsTime(d, env.now)
               case _ => false
  {
    HandlersAttempt(env);
  }

  lemma ToPendingTest(d: Inc, env: TickEnv)
    ensures Leads(d, env, PendingTest)
       <==> match d.status.state
            case Deployed => TestWanted(d) && !Marked(d) && Succeed([Sync], env) && Runs(d)
            case PendingTest => (TestWanted(d) || NoTest(d)) && !Marked(d) && !env.testTimingOut
                                && Succeed([Sync], env) && !Overdue(d, 15, env.now)
            case Testing => TestWanted(d) && !env.testTimingOut
            case Tested => TestWanted(d) && !Marked(d)
            case _ => false
  {
    HandlersAttempt(env);
  }

  lemma ToTesting(d: Inc, env: TickEnv)
    ensures Leads(d, env, Testing)
       <==> match d.status.state
            case Deployed => TestRuns(d) && !Marked(d) && Succeed([Sync], env) && Runs(d)
            case PendingTest => TestRuns(d) && !Marked(d) && !env.testTimingOut
            case Testing => TestRuns(d) && !env.testTimingOut && Succeed([Sync], env) && !Overdue(d, 15, env.now)
            case Tested => (TestRuns(d) || NoTest(d)) && !Marked(d)
            case _ => false
  {
    HandlersAttempt(env);
  }

  lemma ToTested(d: Inc, env: TickEnv)
    ensures Leads(d, env, Tested)
       <==> && TestPassed(d)
            && match d.status.state
               case Deployed => !Marked(d) && Succeed([Sync], env) && Runs(d)
               case PendingTest => !Marked(d)
               case Testing => true
               case Tested => !Marked(d) && !d.status.releaseEligible && !Overdue(d, 15, env.now)
               case _ => false
  {
    HandlersAttempt(env);
  }

  lemma ToCanarying(d: Inc, env: TickEnv)
    ensures Leads(d, env, Canarying)
       <==> && CanaryDue(d, env.now) && !Marked(d)
            && match d.status.state
               case Deployed => NoTest(d) && d.status.releaseEligible && Succeed([Sync], env) && Runs(d)
               case Tested => TestPassed(d) && d.status.releaseEligible
               case Canarying => Succeed([SyncCanaryRules, DeleteTaggedServiceLevels, Sync], env)
               case _ => false
  {
    HandlersAttempt(env);
  }

  lemma ToCanaried(d: Inc, env: TickEnv)
    ensures Leads(d, env, Canaried)
       <==> && !Gone(d) && !Marked(d)
            && match d.status.state
               case Canarying => !CanaryDue(d, env.now) && Succeed([SyncCanaryRules, DeleteTaggedServiceLevels, Sync], env)
               case Canaried => !d.status.releaseEligible && Succeed([DeleteCanaryRules, Sync], env)
               case _ => false
  {
    HandlersAttempt(env);
  }

  lemma ToPendingRelease(d: Inc, env: TickEnv)
    ensures Leads(d, env, PendingRelease)
       <==> && !Gone(d) && !Marked(d) && d.status.releaseEligible
            && match d.status.state
               case Deployed => NoTest(d) && !CanaryDue(d, env.now) && Succeed([Sync], env) && Runs(d)
               case Tested => TestPassed(d) && !CanaryDue(d, env.now)
               case Canaried => Succeed([DeleteCanaryRules, Sync], env)
               case PendingRelease => !env.schedulePermits && Succeed([Sync], env)
               case _ => false
  {
    HandlersAttempt(env);
  }

  lemma ToReleasing(d: Inc, env: TickEnv)
    ensures Leads(d, env, Releasing)
       <==> && !Gone(d) && !Marked(d) && d.status.releaseEligible
            && match d.status.state
               case PendingRelease => env.schedulePermits
               case Releasing | Released =>
                 d.status.peakPercent < 100 && Succeed([Sync, DeleteTaggedServiceLevels], env)
               case _ => false
  {
    HandlersAttempt(env);
  }

  lemma ToReleased(d: Inc, env: TickEnv)
    ensures Leads(d, env, Released)
       <==> && !Gone(d) && !Marked(d) && d.status.releaseEligible && d.status.peakPercent >= 100
            && (d.status.state == Releasing || d.status.state == Released)
            && Succeed([Sync, DeleteTaggedServiceLevels], env)
  {
    HandlersAttempt(env);
  }

  lemma ToRetiring(d: Inc, env: TickEnv)
    ensures Leads(d, env, Retiring)
       <==> match d.status.state
            case Retiring => d.status.currentPercent > 0
            case Deployed => && NoTest(d) && !Marked(d) && !d.status.releaseEligible && PastItsTime(d, env.now)
                             && Succeed([Sync], env) && Runs(d)
            case PendingRelease | Releasing | Released => !Gone(d) && !Marked(d) && !d.status.releaseEligible
            case _ => false
  {
    HandlersAttempt(env);
  }

  lemma ToRetired(d: Inc, env: TickEnv)
    ensures Leads(d, env, Retired)
       <==> && !Gone(d) && !Marked(d) && !d.status.releaseEligible
            && match d.status.state
               case Retiring => d.status.currentPercent == 0 && Succeed([DeleteTaggedServiceLevels, Retire], env)
               case Retired => Succeed([Retire], env)
               case _ => false
  {
    HandlersAttempt(env);
  }

  lemma ToDeleting(d: Inc, env: TickEnv)
    ensures Leads(d, env, Deleting)
       <==> match d.status.state
            case Deleting => d.status.currentPercent > 0
            case Retiring | Failing => Gone(d) && d.status.currentPercent == 0
            case Deleted => false
            case _ => Gone(d)
  {
    HandlersAttempt(env);
  }

  lemma ToDeleted(d: Inc, env: TickEnv)
    ensures Leads(d, env, Deleted)
       <==> && Gone(d)
            && match d.status.state
               case Deleting => && d.status.currentPercent == 0
                                && Succeed([DeleteCanaryRules, DeleteTaggedServiceLevels, Delete], env)
               case Deleted => true
               case _ => false
  {
    HandlersAttempt(env);
  }

  lemma ToFailing(d: Inc, env: TickEnv)
    ensures Leads(d, env, Failing)
       <==> match d.status.state
            case Failing => d.status.currentPercent > 0
            case Deploying | Deployed | PendingTest | Tested | TimingOut => Lost(d)
            case Testing => TestLost(d)
            case PendingRelease | Releasing | Released | Canarying | Canaried | Retired => Marked(d)
            case Retiring => d.status.currentPercent == 0 && Marked(d)
            case _ => false
  {
    HandlersAttempt(env);
  }

  lemma ToFailed(d: Inc, env: TickEnv)
    ensures Leads(d, env, State.Failed)
       <==> && Lost(d)
            && match d.status.state
               case Failing => && d.status.currentPercent == 0
                               && Succeed([DeleteCanaryRules, DeleteTaggedServiceLevels, Retire], env)
               case Failed => Succeed([Retire], env)
               case _ => false
  {
    HandlersAttempt(env);
  }

  lemma ToTimingOut(d: Inc, env: TickEnv)
    ensures Leads(d, env, TimingOut)
       <==> && !Gone(d)
            && match d.status.state
               case Created => Overdue(d, 60, env.now)
               case Deploying => !Lost(d) && Succeed([Sync], env) && !Runs(d) && Overdue(d, 15, env.now)
               case PendingTest =>
                 && !Lost(d) && !TestPassed(d)
                 && (env.testTimingOut || (!TestRuns(d) && Succeed([Sync], env) && Overdue(d, 15, env.now)))
               case Testing =>
                 && !TestLost(d) && !TestPassed(d)
                 && (env.testTimingOut || (TestRuns(d) && Succeed([Sync], env) && Overdue(d, 15, env.now)))
               case Tested => TestPassed(d) && !Marked(d) && !d.status.releaseEligible && Overdue(d, 15, env.now)
               case TimingOut => !Lost(d)
               case _ => false
  {
    HandlersAttempt(env);
  }

  // ---------------------------------------------------------------- what a tick carries out

  /** The work that goes with a move. Waiting for a test takes a sync, unless its timeout
      has already ended the wait. */
  function Work(from: State, to: State, testTimingOut: bool): seq<Effect> {
    match from
    case Deploying => if to == Deleting || to == Failing then [] else [Sync]
    case Deployed => if to == Deleting || to == Failing then [] else [Sync]
    case PendingTest => if to == PendingTest || (to == TimingOut && !testTimingOut) then [Sync] else []
    case Testing => if to == Testing || (to == TimingOut && !testTimingOut) then [Sync] else []
    case PendingRelease => if to == PendingRelease then [Sync] else []
    case Releasing => if to == Releasing || to == Released then [Sync, DeleteTaggedServiceLevels] else []
    case Released => if to == Releasing || to == Released then [Sync, DeleteTaggedServiceLevels] else []
    case Canarying =>
      if to == Canarying || to == Canaried then [SyncCanaryRules, DeleteTaggedServiceLevels, Sync] else []
    case Canaried => if to == Canaried || to == PendingRelease then [DeleteCanaryRules, Sync] else []
    case Retiring => if to == Retired then [DeleteTaggedServiceLevels, Retire] else []
    case Retired => if to == Retired then [Retire] else []
    case Deleting => if to == Deleted then [DeleteCanaryRules, DeleteTaggedServiceLevels, Delete] else []
    case Failing => if to == State.Failed then [DeleteCanaryRules, DeleteTaggedServiceLevels, Retire] else []
    case Failed => if to == State.Failed then [Retire] else []
    case _ => []
  }

  /** All of the work of the move, and nothing else; or stopped at the first effect that failed. */
  ghost predicate DoesItsWork(d: Inc, env: TickEnv) {
    var o := Handle(d, env);
    if o.next.Some? then
      o.effects == Work(d.status.state, o.next.value, env.testTimingOut) && Succeed(o.effects, env)
    else StopsAtFailure(o.effects, env.fails)
  }

  lemma DeployingWork(d: Inc, env: TickEnv)
    requires d.status.state in {Created, Deploying, Deployed, Tested, TimingOut}
    ensures DoesItsWork(d, env)
  {
    HandlersAttempt(env);
  }

  lemma TestingWork(d: Inc, env: TickEnv)
    requires d.status.state in {PendingTest, Testing}
    ensures DoesItsWork(d, env)
  {
    HandlersAttempt(env);
  }

  lemma CanaryWork(d: Inc, env: TickEnv)
    requires d.status.state in {Canarying, Canaried}
    ensures DoesItsWork(d, env)
  {
    HandlersAttempt(env);
  }

  lemma ReleaseWork(d: Inc, env: TickEnv)
    requires d.status.state in {PendingRelease, Releasing, Released}
    ensures DoesItsWork(d, env)
  {
    HandlersAttempt(env);
  }

  lemma RetiringWork(d: Inc, env: TickEnv)
    requires d.status.state in {Retiring, Retired, Deleting, Deleted}
    ensures DoesItsWork(d, env)
  {
    HandlersAttempt(env);
  }

  lemma FailingWork(d: Inc, env: TickEnv)
    requires d.status.state in {Failing, State.Failed}
    ensures DoesItsWork(d, env)
  {
    HandlersAttempt(env);
  }

  /** Whatever the state, a tick that moves has carried out the work of its move. */
  lemma TickDoesItsWork(d: Inc, env: TickEnv)
    ensures DoesItsWork(d, env)
  {
    match d.status.state
    case Created | Deploying | Deployed | Tested | TimingOut => DeployingWork(d, env);
    case PendingTest | Testing => TestingWork(d, env);
    case Canarying | Canaried => CanaryWork(d, env);
    case PendingRelease | Releasing | Released => ReleaseWork(d, env);
    case Retiring | Retired | Deleting | Deleted => RetiringWork(d, env);
    case Failing | Failed => FailingWork(d, env);
  }

  /** A tick changes the state, the time of its change and the canary's start, and nothing else. */
  lemma TickTouchesOnlyTheState(d: Inc, env: TickEnv)
    ensures var s, t := d.status, Ticked(d, env).status;
            && Ticked(d, env) == d.(status := t)
            && t == s.(state := t.state, stateUpdated := t.stateUpdated, canaryStart := t.canaryStart)
            && t.canaryStart == (if Leads(d, env, Canarying) && s.canaryStart.None? && s.currentPercent > 0 then Some(env.now)
                                 else s.canaryStart)
            && t.stateUpdated == (if t.state != s.state then Some(env.now) else s.stateUpdated)
            && (Handle(d, env).next.Some? ==> t.state == Handle(d, env).next.value)
            && (Handle(d, env).next.None? ==> t == s)
  {
  }
}
