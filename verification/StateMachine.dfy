/** The 18 handlers of controllers/state.go. A handler decides the next state and may
    attempt effects on the clusters, any of which can fail. */
module StateMachine {
  import opened Base
  import opened Types

  const DEPLOYING_TIMEOUT: Time := 15 * 60
  const CREATED_TIMEOUT: Time := 60 * 60

  datatype Effect =
    | Sync
    | Retire
    | Delete
    | SyncCanaryRules
    | DeleteCanaryRules
    | DeleteTaggedServiceLevels

  /** What a tick cannot see for itself: the time, the release schedule, whether the
      external test is overdue, and which effects fail. */
  datatype TickEnv = TickEnv(now: Time, schedulePermits: bool, testTimingOut: bool, fails: set<Effect>)

  /** The effects attempted, and the next state unless one of them failed. */
  datatype Outcome = Outcome(next: Option<State>, effects: seq<Effect>)

  datatype ExternalTestStatus = Unknown | Disabled | Pending | Started | TestFailed | Succeeded
  {
    predicate Enabled() { !Unknown? && !Disabled? }

    predicate Finished() { Succeeded? || TestFailed? }
  }

  function TestStatus(d: Inc): ExternalTestStatus {
    if d.revision.None? then Unknown
    else
      var t := d.revision.value.target.externalTest;
      if t.completed && t.succeeded then Succeeded
      else if t.completed then TestFailed
      else if t.started then Started
      else if t.enabled then Pending
      else Disabled
  }

  predicate HasFailed(d: Inc) { d.MarkedAsFailed() || TestStatus(d) == TestFailed }

  predicate IsExpired(d: Inc, now: Time)
    requires d.revision.Some?
  {
    d.revision.value.created + d.status.ttl < now
  }

  predicate TimedOut(d: Inc, timeout: Time, env: TickEnv) {
    d.status.stateUpdated.Some? && d.status.stateUpdated.value + timeout < env.now
  }

  function Go(next: State): Outcome { Outcome(Some(next), []) }

  /** Attempt the effects in order, stopping at the first that fails. */
  function Attempt(effects: seq<Effect>, env: TickEnv): seq<Effect> {
    if effects == [] then []
    else if effects[0] in env.fails then [effects[0]]
    else [effects[0]] + Attempt(effects[1..], env)
  }

  function After(effects: seq<Effect>, next: State, env: TickEnv): Outcome {
    Outcome(if exists e :: e in effects && e in env.fails then None else Some(next), Attempt(effects, env))
  }

  function OnCreated(d: Inc, env: TickEnv): Outcome {
    if !d.HasRevision() then Go(Deleting)
    else if TimedOut(d, CREATED_TIMEOUT, env) then Go(TimingOut)
    else Go(Deploying)
  }

  function OnDeploying(d: Inc, env: TickEnv): Outcome {
    if !d.HasRevision() then Go(Deleting)
    else if HasFailed(d) then Go(Failing)
    else
      After([Sync],
            if d.IsDeployed() then Deployed
            else if TimedOut(d, DEPLOYING_TIMEOUT, env) then TimingOut
            else Deploying,
            env)
  }

  function OnDeployed(d: Inc, env: TickEnv): Outcome {
    if !d.HasRevision() then Go(Deleting)
    else if HasFailed(d) then Go(Failing)
    else
      After([Sync],
            if !d.IsDeployed() then Deploying
            else if TestStatus(d) == Succeeded then Tested
            else if TestStatus(d) == Started then Testing
            else if TestStatus(d) == Pending then PendingTest
            else if d.status.releaseEligible then
              if d.IsCanaryPending(env.now) then Canarying else PendingRelease
            else if IsExpired(d, env.now) then Retiring
            else Deployed,
            env)
  }

  function OnPendingTest(d: Inc, env: TickEnv): Outcome {
    if !d.HasRevision() then Go(Deleting)
    else if HasFailed(d) then Go(Failing)
    else if TestStatus(d) == Succeeded then Go(Tested)
    else if env.testTimingOut then Go(TimingOut)
    else if TestStatus(d) == Started then Go(Testing)
    else After([Sync], if TimedOut(d, DEPLOYING_TIMEOUT, env) then TimingOut else PendingTest, env)
  }

  function OnTesting(d: Inc, env: TickEnv): Outcome {
    if !d.HasRevision() then Go(Deleting)
    else if TestStatus(d) == TestFailed then Go(Failing)
    else if TestStatus(d) == Succeeded then Go(Tested)
    else if env.testTimingOut then Go(TimingOut)
    else if TestStatus(d) == Pending then Go(PendingTest)
    else if !TestStatus(d).Enabled() then Go(Deploying)
    else After([Sync], if TimedOut(d, DEPLOYING_TIMEOUT, env) then TimingOut else Testing, env)
  }

  function OnTested(d: Inc, env: TickEnv): Outcome {
    if !d.HasRevision() then Go(Deleting)
    else if HasFailed(d) then Go(Failing)
    else if TestStatus(d) == Pending then Go(PendingTest)
    else if !TestStatus(d).Finished() then Go(Testing)
    else if d.status.releaseEligible then
      if d.IsCanaryPending(env.now) then Go(Canarying) else Go(PendingRelease)
    else if TimedOut(d, DEPLOYING_TIMEOUT, env) then Go(TimingOut)
    else Go(Tested)
  }

  function OnPendingRelease(d: Inc, env: TickEnv): Outcome {
    if !d.HasRevision() then Go(Deleting)
    else if d.MarkedAsFailed() then Go(Failing)
    else if !d.status.releaseEligible then Go(Retiring)
    else if env.schedulePermits then Go(Releasing)
    else After([Sync], PendingRelease, env)
  }

  /** Released shares this handler with Releasing. */
  function OnReleasing(d: Inc, env: TickEnv): Outcome {
    if !d.HasRevision() then Go(Deleting)
    else if d.MarkedAsFailed() then Go(Failing)
    else if !d.status.releaseEligible then Go(Retiring)
    else
      After([Sync, DeleteTaggedServiceLevels],
            if d.status.peakPercent >= 100 then Released else Releasing,
            env)
  }

  function OnRetiring(d: Inc, env: TickEnv): Outcome {
    if d.status.currentPercent > 0 then Go(Retiring)
    else if !d.HasRevision() then Go(Deleting)
    else if d.MarkedAsFailed() then Go(Failing)
    else if d.status.releaseEligible then Go(Deploying)
    else After([DeleteTaggedServiceLevels, Retire], Retired, env)
  }

  function OnRetired(d: Inc, env: TickEnv): Outcome {
    if !d.HasRevision() then Go(Deleting)
    else if d.MarkedAsFailed() then Go(Failing)
    else if d.status.releaseEligible then Go(Deploying)
    else After([Retire], Retired, env)
  }

  function OnDeleting(d: Inc, env: TickEnv): Outcome {
    if d.status.currentPercent > 0 then Go(Deleting)
    else if d.HasRevision() then Go(Deploying)
    else After([DeleteCanaryRules, DeleteTaggedServiceLevels, Delete], Deleted, env)
  }

  function OnDeleted(d: Inc, env: TickEnv): Outcome {
    if d.HasRevision() then Go(Deploying) else Go(Deleted)
  }

  function OnFailing(d: Inc, env: TickEnv): Outcome {
    if d.status.currentPercent > 0 then Go(Failing)
    else if !d.HasRevision() then Go(Deleting)
    else if !HasFailed(d) then Go(Deploying)
    else After([DeleteCanaryRules, DeleteTaggedServiceLevels, Retire], Failed, env)
  }

  function OnFailed(d: Inc, env: TickEnv): Outcome {
    if !d.HasRevision() then Go(Deleting)
    else if !HasFailed(d) then Go(Deploying)
    else After([Retire], Failed, env)
  }

  function OnCanarying(d: Inc, env: TickEnv): Outcome {
    if !d.HasRevision() then Go(Deleting)
    else if d.MarkedAsFailed() then Go(Failing)
    else
      After([SyncCanaryRules, DeleteTaggedServiceLevels, Sync],
            if !d.IsCanaryPending(env.now) then Canaried else Canarying,
            env)
  }

  function OnCanaried(d: Inc, env: TickEnv): Outcome {
    if !d.HasRevision() then Go(Deleting)
    else if d.MarkedAsFailed() then Go(Failing)
    else After([DeleteCanaryRules, Sync], if d.status.releaseEligible then PendingRelease else Canaried, env)
  }

  function OnTimingOut(d: Inc, env: TickEnv): Outcome {
    if !d.HasRevision() then Go(Deleting)
    else if HasFailed(d) then Go(Failing)
    else Go(TimingOut)
  }

  function Handle(d: Inc, env: TickEnv): Outcome {
    match d.status.state
    case Created => OnCreated(d, env)
    case Deploying => OnDeploying(d, env)
    case Deployed => OnDeployed(d, env)
    case PendingTest => OnPendingTest(d, env)
    case Testing => OnTesting(d, env)
    case Tested => OnTested(d, env)
    case Canarying => OnCanarying(d, env)
    case Canaried => OnCanaried(d, env)
    case PendingRelease => OnPendingRelease(d, env)
    case Releasing => OnReleasing(d, env)
    case Released => OnReleasing(d, env)
    case Retiring => OnRetiring(d, env)
    case Retired => OnRetired(d, env)
    case Deleting => OnDeleting(d, env)
    case Deleted => OnDeleted(d, env)
    case Failing => OnFailing(d, env)
    case Failed => OnFailed(d, env)
    case TimingOut => OnTimingOut(d, env)
  }

  /** Incarnation.setState: entering canarying with traffic starts the canary's clock. */
  function SetState(s: Status, next: State, now: Time): Status {
    s.(state := next,
       stateUpdated := if s.state != next then Some(now) else s.stateUpdated,
       canaryStart := if next == Canarying && s.canaryStart.None? && s.currentPercent > 0 then Some(now)
                      else s.canaryStart)
  }

  /** A tick that succeeds moves to the handler's state; one that fails changes nothing. */
  function Ticked(d: Inc, env: TickEnv): Inc {
    var outcome := Handle(d, env);
    if outcome.next.None? then d else d.(status := SetState(d.status, outcome.next.value, env.now))
  }

  // ---------------------------------------------------------------- one tick

  lemma AttemptIsPrefix(effects: seq<Effect>, env: TickEnv)
    ensures forall e :: e in Attempt(effects, env) ==> e in effects
  {
  }

  /** States whose revisions may carry traffic between two reconciles. */
  predicate CarriesTraffic(s: State) {
    s == Canarying || s == Releasing || s == Released || s == Retiring || s == Deleting || s == Failing
  }

  predicate TrafficFollowsState(s: Status) {
    s.currentPercent > 0 ==> CarriesTraffic(s.state)
  }

  /** A handler takes a revision out of the clusters, or syncs it without replicas,
      only when it carries no traffic. */
  predicate HarmlessEffects(d: Inc, effects: seq<Effect>) {
    d.status.currentPercent > 0 ==>
      && Retire !in effects && Delete !in effects
      && (Sync in effects ==> d.status.state != Canaried && d.status.state != PendingRelease)
  }

  lemma TickIsHarmless(d: Inc, env: TickEnv)
    requires TrafficFollowsState(d.status)
    ensures HarmlessEffects(d, Handle(d, env).effects)
  {
    if d.status.currentPercent > 0 {
      AttemptIsPrefix([Sync, DeleteTaggedServiceLevels], env);
      AttemptIsPrefix([SyncCanaryRules, DeleteTaggedServiceLevels, Sync], env);
    }
  }

  /** After a tick traffic may also sit on a revision that has just finished its
      canary; the allocator takes it away in the same reconcile. */
  lemma TickMovesTraffic(d: Inc, env: TickEnv)
    requires TrafficFollowsState(d.status) && d.status.currentPercent > 0
    ensures Ticked(d, env).status.currentPercent == d.status.currentPercent
    ensures CarriesTraffic(Ticked(d, env).status.state) || Ticked(d, env).status.state == Canaried
  {
  }

  /** Without a revision a successful tick can only end in one of four states. */
  lemma TickWithoutRevision(d: Inc, env: TickEnv)
    requires !d.HasRevision() && Handle(d, env).next.Some?
    ensures Ticked(d, env).status.state in {Deleting, Deleted, Retiring, Failing}
  {
  }

  predicate PastCanary(s: State) {
    s == Canaried || s == PendingRelease || s == Releasing || s == Released
  }

  /** The canary's clock has run its full time. */
  predicate CanaryServed(s: Status, canary: Canary, now: Time) {
    s.canaryStart.Some? && s.canaryStart.value + canary.ttl <= now
  }

  /** With a canary configured, nothing gets past it before its time is served. */
  lemma TickServesCanary(d: Inc, env: TickEnv, canary: Canary)
    requires d.revision.Some? ==>
               d.revision.value.target.ConfiguresCanary() && d.revision.value.target.canary == canary
    requires PastCanary(d.status.state) ==> CanaryServed(d.status, canary, env.now)
    ensures PastCanary(Ticked(d, env).status.state) ==> CanaryServed(Ticked(d, env).status, canary, env.now)
  {
  }

  /** The canary's clock starts at most once, while canarying with traffic. */
  lemma TickStartsClock(d: Inc, env: TickEnv)
    requires TrafficFollowsState(d.status)
    ensures var s := Ticked(d, env).status;
            s.canaryStart == d.status.canaryStart ||
            (&& d.status.canaryStart.None?
             && s.canaryStart == Some(env.now)
             && d.status.state == Canarying
             && d.status.currentPercent > 0
             && s.state == Canarying)
  {
  }

  /** Leaving the deployed or tested state toward traffic. */
  predicate IsExit(from: State, to: State) {
    (from == Deployed || from == Tested) && (to == Canarying || to == PendingRelease)
  }

  predicate TowardTraffic(s: State) { s == Canarying || PastCanary(s) }

  /** Every way toward traffic starts at an exit, and an exit is only taken when the
      external test is neither outstanding nor failed. */
  lemma TickExitsAfterTests(d: Inc, env: TickEnv)
    ensures IsExit(d.status.state, Ticked(d, env).status.state) ==>
              TestStatus(d) != Pending && TestStatus(d) != Started && TestStatus(d) != TestFailed
    ensures TowardTraffic(Ticked(d, env).status.state) ==>
              TowardTraffic(d.status.state) || IsExit(d.status.state, Ticked(d, env).status.state)
  {
  }

  /** A revision that is flagged as ramping when the reconcile starts does not turn
      into a canary in the same reconcile. */
  lemma TickKeepsRampingOutOfCanary(d: Inc, env: TickEnv)
    requires CarriesTraffic(d.status.state) && d.status.state != Canarying
    requires d.status.state in {Retiring, Deleting, Failing} ==> d.status.currentPercent > 0
    ensures Ticked(d, env).status.state in {Releasing, Released, Retiring, Deleting, Failing}
  {
  }
}
