# Picchu's reconcile, modelled and proved

Picchu moves traffic between revisions of a service. Every reconcile of a release manager
loads the persisted status of each revision, flags the one that ramps, ticks an 18-state
machine per revision, observes the clusters again, divides 100 percent of the traffic, picks
garbage, and saves the statuses; if anything fails on the way, nothing is saved. This project
models that loop and the arithmetic under it, and proves what it keeps over every run.

How it is laid out, from the bottom up:

- `Base`, `Types`: 32-bit integers, ceilings, and the persisted entities.
- `Scaling`, `Replicas`, `RampGate`, `Sizing`, `GateReachable`: ramp increments in wrapping
  `uint32` arithmetic, replica division, the gate that defers growth, all of it again in whole
  numbers without quotients, and when the gate can open.
- `StateMachine`, `Transitions`, `Progress`: the 18 handlers, the effects they attempt, laws
  about one tick, for each state exactly when a tick leads there and for each move the work
  that goes with it, and where repeated ticks lead.
- `Observation`, `Incarnations`, `Collections`: observed replicas, the mutable revision
  objects, and the collection with its selections. Ties in a sort fall either way.
- `Allocator`, `Preparation`, `Conservation`, `Convergence`: the greedy division of traffic as
  functions on a listing, the in-place loop that refines them, and its global laws.
- `Ticks`, `Records`, `Reconciling`: the ticks, the list that is saved, and the whole reconcile
  as a method proved against a relation (`Reconciled`).
- `Lineage`, `Seeing`, `CanaryCap`, `Runs`, `Totals`, `Removals`: what a pass makes of each
  status, and whole runs. A run starts from no statuses; in
  each round the revisions, clusters, observations, oracles, the clock (which never goes back)
  and the point of failure are arbitrary.
- `GarbageCollector`, `Latency`, `Webhook`: retention, latency estimates, ingress defaults.

Oracles and outside effects are parameters: the release schedule, the external test's timeout,
which effects of a tick fail, which other steps of a reconcile fail, and what is observed. An
attempted effect is recorded in a log even when the reconcile is later abandoned.

Where the code does not keep a promise on all inputs, the exact condition is proved:

- The allocation panics exactly when a revision asks for more than is left
  (`Allocator.TripsExactlyWhen`): its strategy is neither linear nor geometric, or its percent
  is beyond `int32`. On a run it never does while what it lists has one of the two strategies
  (`Runs.AllocationNeverPanics`).
- A minimum that is raised for the ramp, which is that of a releasing revision with traffic, an
  autoscaler and a positive maximum that is no worker, opens the gate for every load exactly
  when the live clusters' scaling factors average at least 1 or are all 0
  (`GateReachable.GateIsReachableIff`).
- A minimum that is not raised, which is that of every first step from zero, of every worker and
  of a flagged release that drains, opens it exactly when the share it is reaches nine tenths of
  what the load needs, or the fleet's maximum (`GateReachable.UnraisedOpensExactlyWhen`). For a
  first step a load of at most the maximum is enough on any fleet; beyond that no fleet that is
  given replicas is safe, whatever its factors (`GateReachable.FirstStepIsReachableIff`), and
  `GateReachable.FirstStepStarves` shows one cluster with factor 1 where a release stays at zero.
- With unit factors, per-cluster division and the fleet total disagree exactly when nothing is
  wanted, because division never gives less than one replica per cluster.
- A canary exceeds its percent exactly when no listed revision is flagged, it is the first
  listed, nobody uses up what is left when all take what they would take of everything, and
  those takes leave enough to lift it (`Allocator.UncappedExactlyWhen`). A canary that is alone
  and not flagged is given all of the traffic (`Allocator.LoneCanaryTakesAll`).
- After the pivot a revision that is there, is no canary and may keep its percent keeps what fits,
  exactly unless its raw increment wraps around below that percent while there is room for it
  (`Allocator.KeepsWhatFitsIff`). One that is gone gets nothing.
- The linear latency estimate is exact exactly when its increments do not wrap around; the
  geometric one, where its loop ends, exactly when the start is below the top and no product on
  the way wraps around below the start. With a factor of one that loop ends only if it starts at
  the top (`Latency.IdleLoopEndsWhen`).
- An ingress list that is present but empty is not treated like an absent one: patching moves
  such a port into buckets it was not in (`Webhook.BucketsAreKeptExactlyWhen`).
- The retention strategy panics exactly on an empty list, and a reconcile that reaches it has a
  collection that is not empty (`Reconciling.CollectorIsNeverEmpty`).

Code and comments disagree in two places, and the model follows the code: `releasable()` says
it orders by release eligibility, but it orders by state, and `setState` starts a timestamp on
a spelling of the pending release state that no handler returns.

## Model

| member | source | states |
|---|---|---|
| Scaling.NextIncrementIsClamped | controllers/scaling.go:160-170 | either strategy's increment is its raw wrapping step clamped to the room and the release maximum, and scaling down lands on that ceiling |
| Scaling.GrowthIsMonotone | controllers/scaling/geometric.go:8-35 | with less room an increment that still grows asks for no more than with more room |
| Replicas.ClusterCount | controllers/incarnation_controller.go:30-38 | counts the clusters of the given liveness |
| Replicas.CountIsOfMatching | controllers/incarnation_controller.go:30-38 | which is the number of places in the list at which such a cluster stands |
| Replicas.ExpectedReplicaCount | controllers/incarnation_controller.go:41-51 | the fleet total: each matching cluster gets its share of the count, scaled by its factor and rounded up; nothing without matching clusters, even if none is live |
| Replicas.NestedCeiling | controllers/incarnation_controller.go:148-152 | rounding up before and after dividing among clusters is rounding up once |
| Replicas.DivisionIsPerCluster | controllers/incarnation_controller.go:140-152 | division gives a cluster its part of the expected fleet total, and never less than one |
| Replicas.DivisionCovers | controllers/incarnation_controller.go:140-145 | one cluster's share times the live clusters covers the wanted replicas, overshooting by less than one per cluster once anything is wanted |
| Replicas.DivisionAgreesWithExpectedTotal | controllers/incarnation_controller.go:140-152 | with unit factors the divided shares add up to the expected fleet total if and only if something is wanted |
| Replicas.TotalBounds | controllers/incarnation_controller.go:41-51 | a fleet total lies between the unrounded product with the sum of factors and less than one replica per cluster above it |
| RampGate.ComputeFleetReplicasRequiredForRamp | controllers/scaling.go:30-93 | the loop over the saved statuses computes the requirement: nothing without a revision or a minimum, else nine tenths of the fleet total for the base capacity of the other revisions, whose percents are added up in uint32, capped by the fleet maximum |
| Sizing.OthersAddUp | controllers/scaling.go:48-65 | what the others carry: the sums of pods and, in uint32, of percents over the saved statuses of other tags with both, and whether one of them has been at 100 percent and is not any more |
| Sizing.BaseIs | controllers/scaling.go:65-79 | the base capacity: the minimum while nobody else serves; with an unscaled one its pods, or without an autoscaler the minimum or, that being zero, the maximum; else the least that at the others' percents makes a hundred times their pods |
| Sizing.RequirementMeans | controllers/scaling.go:30-93 | the requirement exists exactly with a revision and a minimum, and is the least number ten of which reach nine times the fleet total for the base capacity, but no more than the total for a positive maximum |
| Sizing.GateMeans | controllers/scaling.go:96-126 | the gate opens if and only if there is a requirement and as many replicas run |
| Sizing.ScaleMeans | controllers/scaling/geometric.go:37-57 | a percent shrinks or stays at once, and grows to the next increment exactly when its strategy's delay has passed since the last change and the gate opens for it |
| Sizing.DivisionIsShare | controllers/incarnation_controller.go:140-145 | a share is the least positive number that from all live clusters reaches the percent, counted up to 100, of the count |
| Sizing.InstanceMeans | controllers/incarnation.go:808-828 | a revision is sized at one replica while it deploys or awaits its release, and else at the share for its canary's percent, for its next increment if flagged, or for the percent it has |
| Sizing.SyncMeans | controllers/incarnation.go:387-432 | replicas synced: none where nothing is routed, the share for everything without an autoscaler, else the size of an instance |
| Sizing.RaiseMeans | controllers/incarnation.go:476-514 | the proactive minimum is not zero only for a flagged releasing revision with traffic, an autoscaler and a next increment, no worker, and is then the lesser of the shares of the requirement and of the maximum |
| Sizing.ScalePlanMeans | controllers/incarnation.go:535-549 | the bounds of a scale plan in each of its cases |
| RampGate.SyncedWithoutReplicasWhen | controllers/incarnation.go:359-435 | a revision is synced with zero replicas if and only if it is canaried or pending release |
| RampGate.ApplyBounds | controllers/plan/scaleRevision.go:48-79 | autoscaler bounds are the plan's, the maximum raised to the minimum, scaled by the cluster's factor and in order; no readable factor is an error and a disabled event driven worker gets none |
| RampGate.RequirementMonotone | controllers/scaling.go:59-93 | a smaller percent never requires more replicas |
| RampGate.CanRampToIsDownwardClosed | controllers/scaling.go:96-126 | a gate that opens for a percent opens for every smaller one |
| GateReachable.GateIsReachableIff | controllers/incarnation.go:476-567 | for releasing revisions with traffic, an autoscaler and a maximum, workers aside, whose minimum is raised: fleets at their scaled minimum satisfy the gate for what the allocator asks next, for every load and budget, if and only if the live factors average at least one or are all zero |
| GateReachable.FactorsOfOneAverageOne | controllers/incarnation.go:476-539 | factors of at least one each meet that condition |
| GateReachable.MinimumSuffices | controllers/incarnation.go:476-539 | under that condition the raised minimum, scaled and summed over the fleet, reaches the requirement for whatever the allocator may ask |
| GateReachable.DeferredForever | controllers/incarnation.go:476-539 | below an average of one, and above zero, some load exists whose growth is refused while every cluster sits at its raised minimum |
| GateReachable.HalfFactorIsNotEnough | controllers/scaling.go:59-84 | a single cluster at factor one half is such a fleet |
| GateReachable.UnraisedOpensExactlyWhen | controllers/incarnation.go:516-549 | for a flagged revision whose minimum is not raised the gate opens at the minimum, whatever the budget, if and only if no growth is wanted, or the fleet running its share of maximum or minimum reaches nine tenths of what the load needs, or the fleet maximum |
| GateReachable.UnitShareReachesWhen | controllers/scaling.go:71-84 | with unit factors that is a comparison of one cluster's shares: ten of its own against nine of what it needs, or its own against the maximum's |
| GateReachable.FirstStepOpensForSmallLoads | controllers/incarnation.go:544-545 | a first step is never deferred at the minimum when the load does not exceed the maximum, on any fleet with any budget |
| GateReachable.FirstStepStarves | controllers/incarnation.go:476-549 | one cluster of factor one: a maximum of 100 pins a release at zero percent to 10 replicas while 18 are required to take a tenth of what 200 pods serve |
| GateReachable.FirstStepIsReachableIff | controllers/incarnation.go:476-549 | first steps are reachable for every load if and only if no live cluster is given any replicas at all |
| StateMachine.TickIsHarmless | controllers/state.go:337-461 | while a positive percent implies a state that carries traffic, no tick retires or deletes a revision with traffic or syncs it unrouted, even when effects fail half way |
| StateMachine.TickMovesTraffic | controllers/state.go:337-503 | after any tick a revision with traffic keeps its percent and still carries traffic by its state, or has just finished its canary |
| StateMachine.TickWithoutRevision | controllers/state.go:155-514 | a successful tick without a revision ends in deleting, deleted, retiring or failing |
| StateMachine.TickServesCanary | controllers/state.go:197-316 | with a canary configured no tick gets past it unless its time is served, and being past it persists |
| StateMachine.TickStartsClock | controllers/incarnation.go:636-667 | the canary's clock is started at most once, only by a tick that finds the revision canarying with traffic |
| StateMachine.TickExitsAfterTests | controllers/state.go:197-316 | every way toward traffic begins by leaving deployed or tested, and only when the external test is neither pending, started nor failed |
| StateMachine.TickKeepsRampingOutOfCanary | controllers/state.go:337-451 | a revision that may be flagged as ramping stays in releasing, released, retiring, deleting or failing |
| Transitions.NowhereToCreated | controllers/state.go:155-164 | no tick leads to created |
| Transitions.ToDeploying | controllers/state.go:166-451 | exactly when a tick leads to deploying: which states, and in each which settings, status and effects |
| Transitions.ToDeployed | controllers/state.go:177-230 | exactly when a tick leads to deployed |
| Transitions.ToPendingTest | controllers/state.go:197-316 | exactly when a tick leads to pending test |
| Transitions.ToTesting | controllers/state.go:197-316 | exactly when a tick leads to testing |
| Transitions.ToTested | controllers/state.go:197-316 | exactly when a tick leads to tested |
| Transitions.ToCanarying | controllers/state.go:197-484 | exactly when a tick leads to canarying |
| Transitions.ToCanaried | controllers/state.go:463-503 | exactly when a tick leads to canaried |
| Transitions.ToPendingRelease | controllers/state.go:197-503 | exactly when a tick leads to pending release |
| Transitions.ToReleasing | controllers/state.go:318-361 | exactly when a tick leads to releasing |
| Transitions.ToReleased | controllers/state.go:337-361 | exactly when a tick leads to released |
| Transitions.ToRetiring | controllers/state.go:197-383 | exactly when a tick leads to retiring |
| Transitions.ToRetired | controllers/state.go:363-396 | exactly when a tick leads to retired |
| Transitions.ToDeleting | controllers/state.go:166-514 | exactly when a tick leads to deleting |
| Transitions.ToDeleted | controllers/state.go:398-429 | exactly when a tick leads to deleted: only a revision that is gone, from deleting without traffic with the rules, service levels and objects all deleted |
| Transitions.ToFailing | controllers/state.go:139-514 | exactly when a tick leads to failing |
| Transitions.ToFailed | controllers/state.go:431-461 | exactly when a tick leads to failed |
| Transitions.ToTimingOut | controllers/state.go:166-514 | exactly when a tick leads to timing out |
| Transitions.TickDoesItsWork | controllers/state.go:166-514 | a tick that moves has carried out exactly the effects that belong to its move, in order, none of them failing; one that fails has stopped at the first that failed |
| Transitions.TickTouchesOnlyTheState | controllers/incarnation.go:636-667 | a tick changes the state, the time of its change when it changes, and the canary's start on entering canarying with traffic and none yet, and nothing else |
| Progress.RemovalCompletes | controllers/state.go:166-514 | from any state a revision that is gone and carries no traffic is deleted after two ticks whose effects succeed, and stays so; what the ticks delete is Transitions.TickDoesItsWork |
| Progress.FailureCompletes | controllers/state.go:166-514 | from any state a revision marked as failed without traffic is failed after three ticks, and stays so, unless it waits for a started test |
| Progress.StartedTestIsAwaited | controllers/state.go:259-288 | a started test is waited for, marked as failed or not, exactly until it times out |
| Progress.ReleaseCompletes | controllers/state.go:166-514 | a deployed, eligible revision with its external test passed or disabled and nothing overdue is releasing after five ticks from any state, except that what has timed out stays there, and so does what is pending a disabled test |
| Observation.InfoForTag | controllers/observe/observation.go:91-106 | the loop's four statistics are those of the selected ReplicaSets, live and standby, or none if the tag is not observed |
| Observation.CountClusters | controllers/observe/observation.go:71-81 | counts the distinct clusters of the given liveness in which anything was observed |
| Observation.SummaryMerges | controllers/observe/observation.go:84-106 | observing two groups of clusters combined is the min, max, sum and count merge of observing each |
| Observation.SummaryIgnoresOrder | controllers/observe/observation.go:84-106 | the order in which observers answered does not matter |
| Observation.DeployedReachesEveryCluster | controllers/incarnation.go:741-762 | with one ReplicaSet per tag and cluster, a revision counted as deployed has an available replica in every live cluster |
| Observation.StatDescribes | controllers/observe/observation.go:12-21 | a statistic holds the number of its values, their sum, and the least and the greatest of them |
| Observation.LiveTotals | controllers/observe/observation.go:91-106 | a tag's live statistics count its ReplicaSets in live clusters and add up what they run and want |
| Observation.MinimumMeans | controllers/observe/observation.go:91-106 | their minimum is positive exactly when there are some and each has replicas available |
| Incarnations.Incarnation.constructor | controllers/incarnation.go:56-107 | a loaded revision is its saved status or a fresh one, with eligibility and time to live refreshed before deployment, then observed |
| Incarnations.Incarnation.Update | controllers/incarnation.go:741-762 | the method does in place what Seeing.ObservedIsSeen says in fields |
| Seeing.ObservedIsSeen | controllers/incarnation.go:741-762 | without ReplicaSets a revision has percent, current and desired zero, is not deployed and is marked deleted; with some it keeps its percent, runs and wants the sums over the live ones, its peak never falls, and it is deployed exactly if they are as many as the live clusters and none is without replicas; all else stays |
| Seeing.MembersAreSeen | controllers/syncer.go:406-413 | every member of a pass that ticked is observed so |
| Seeing.MembersAreLoaded | controllers/incarnation.go:56-107 | loaded is every revision and every tag with a status: the kept status or a new one, eligibility and time to live taken from the settings until deployed, and observed so |
| Incarnations.Incarnation.UpdateCurrentPercent | controllers/incarnation.go:867-876 | sets the percent, its time only when it changes, and never lowers the peak |
| Incarnations.Incarnation.SetState | controllers/incarnation.go:636-667 | sets the state, its time only when it changes, and the canary's start only on entering canarying with traffic and no start yet |
| Incarnations.Incarnation.Tick | controllers/state.go:155-164 | runs the state's handler and moves to its state, or changes nothing when an effect fails |
| Collections.IncarnationCollection.Load | controllers/incarnation.go:896-938 | the collection holds every revision and every saved status without one, each loaded from its own status and observation |
| Collections.IncarnationCollection.Sorted | controllers/incarnation.go:1056-1083 | lists every member once, never a newer one after an older one, by commit time and then creation time |
| Collections.SortedByAge | controllers/incarnation.go:1061-1081 | an earlier entry never has a lesser commit time than a later one, nor on equal commit times a lesser creation time; entries without a revision stand at the zero time |
| Collections.ReleasableAre | controllers/incarnation.go:967-991 | releasable is what is canarying, releasing or released, and what is retiring, deleting or failing with traffic |
| Collections.ReleasableByAge | controllers/incarnation.go:967-991 | canaries are listed before releases and those before what drains, by commit and creation time in each |
| Collections.NewestReleaseIsFlagged | controllers/incarnation.go:926-937 | the release with the greatest commit time is the one that is flagged |
| Collections.IncarnationCollection.Releasable | controllers/incarnation.go:967-991 | lists exactly the releasable members: canaries, then releases, then those still draining, newest first in each group |
| Collections.IncarnationCollection.Unreleasable | controllers/incarnation.go:993-1007 | lists exactly the members that are not releasable, once each |
| Collections.IncarnationCollection.Deployed | controllers/incarnation.go:941-950 | lists exactly the members in the nine deployed states, once each, newest first |
| Collections.IncarnationCollection.MarkRamping | controllers/incarnation.go:926-937 | flags the first releasable member that is no canary, and nothing else |
| Collections.IncarnationCollection.Update | controllers/incarnation.go:1085-1094 | every member is brought up to date with the new observation |
| Allocator.TripsExactlyWhen | controllers/syncer.go:689-699 | when the assertion of a turn fires, as a condition on the strategy, the percent and the budget |
| Allocator.AllTrafficIsAllocated | controllers/syncer.go:683-747 | an allocation that does not panic hands out exactly 100 percent, leftovers included |
| Allocator.NobodyGainsAfterPivot | controllers/syncer.go:689-705 | after the ramping pivot no percent rises, whatever the settings, unless the allocation panics |
| Allocator.KeepsWhatFitsIff | controllers/syncer.go:689-705 | after the pivot a revision that is there, no canary and allowed its percent gets the smaller of percent and budget if and only if it is cut by the budget or its raw increment does not wrap below its percent |
| Allocator.LossEmptiesTheRest | controllers/syncer.go:683-721 | after such a revision that lost traffic everyone older gets nothing |
| Allocator.DrainIsGreedy | controllers/syncer.go:683-721 | the loop is the closed form: each drained revision gets the smaller of its percent and what the pivot's side and those before it leave |
| Allocator.NothingMovesAtRest | controllers/syncer.go:683-751 | where all is handed out and growth is refused, no percent and no time of change moves |
| Allocator.CanaryIsCapped | controllers/incarnation.go:851-865 | with a flagged revision in the listing a canary with a known strategy ends with at most its percent |
| Allocator.UncappedExactlyWhen | controllers/syncer.go:744-752 | for known strategies and gates that open for less when they open for more: a canary ends above its percent if and only if nobody listed is flagged, it is listed first, nobody uses up the rest in turn, and what each takes of the whole leaves enough to lift it |
| Allocator.RampGateIsDownwardClosed | controllers/scaling.go:96-126 | the ramp gate is such a gate |
| Allocator.AskWithoutFlag | controllers/scaling/geometric.go:37-57 | what a revision takes of a room is all of it, exactly under the stated conditions on percent, ceiling, delay and gate, and otherwise what it takes of everything |
| Allocator.LowCeilingsLiftTheFirst | controllers/syncer.go:744-752 | with any gate and nobody flagged the first listed gets at least what the others' ceilings leave of 100 percent |
| Allocator.LoneCanaryTakesAll | controllers/syncer.go:744-752 | a canary that is alone and not flagged ends with 100 percent |
| Preparation.ZeroingKeepsListing | controllers/syncer.go:668-670 | zeroing what is not releasable changes neither what is releasable nor in which orders it may be listed |
| Preparation.PrepareRevisions | controllers/syncer.go:643-758 | the in-place loop over mutable incarnations ends with exactly the statuses and weights of the greedy allocation of the listing, panics exactly when that trips, and does nothing when nothing is deployed |
| Allocator.FinalIsGiven | controllers/syncer.go:683-752 | a listed revision keeps everything but its percent, its time and peak, and its eligibility, which it loses exactly when it is left with nothing after the pivot; the peak is the greater of the old one and the percent, and a changed percent is timed now |
| Conservation.AllocationTouchesLittle | controllers/syncer.go:643-758 | and so it is for every member of the collection, listed or not |
| Conservation.RoutesAre | controllers/syncer.go:649-666 | the routes are those of the listed revisions and of every other in a deployed state |
| Conservation.TrafficIsConserved | controllers/syncer.go:643-758 | weights equal the saved percents, everything outside the listing is zero, and both sums are exactly 100 when anything is releasable |
| Conservation.AllocationSucceeds | controllers/syncer.go:694-700 | when what is listed has known strategies and percents below 2^31 the assertion never fires, wraparound in increments included |
| Conservation.UnknownStrategyCanPanic | controllers/scaling.go:148-158 | two revisions at 60 percent with an unknown strategy make the allocation panic |
| Conservation.SettledStaysPut | controllers/syncer.go:668-752 | a settled collection comes out of an allocation with every percent and every time of change as it was |
| Convergence.ClimbsExactlyWhen | controllers/scaling/linear.go:36-58 | which settings always move on toward 100: exactly a linear increment that does not wrap beyond 100, and, where a hundredfold factor does not wrap, exactly a start beyond 100 or a positive start with a factor of at least two |
| Convergence.RolloutAdvances | controllers/syncer.go:676-742 | with the gate open, the delay elapsed and only canaries listed before the ramping revision, one allocation keeps the rollout's shape and the canaries' share, strictly shrinks what the ramping revision lacks, and once nothing is lacking leaves every older listed revision at zero and not eligible |
| Convergence.NewestIsFirstRelease | controllers/incarnation.go:967-991 | a release that is newer than every other, by commit time and then creation time, is listed after canaries only, in every order |
| Convergence.RolloutCompletes | controllers/syncer.go:676-742 | any sequence of such allocations is complete after as many steps as percents were lacking, and stays complete |
| Convergence.AHundredAllocationsSuffice | controllers/syncer.go:676-742 | from any start a hundred such allocations are enough |
| Ticks.TickIncarnations | controllers/syncer.go:390-404 | ticks newest to oldest, attempting exactly the logged ticks up to the first failure, and succeeds only if every tick does |
| Records.RecordStatuses | controllers/syncer.go:97-126 | the reverse loop with its two flags builds the recorded list, never dereferencing a missing revision |
| Records.SavedList | controllers/syncer.go:97-126 | the list is every member but those deleted for good, oldest first, unchanged, except for at most one entry that is called back |
| Records.SavedListMeans | controllers/syncer.go:97-126 | in the members' fields: saved is all but what is deleted without a revision, unchanged; exactly when no release being deployed or released has peaked unannotated as failed, and something is retired or retiring, one such entry of greatest commit time is eligible with peak 100 |
| Reconciling.TicksLeaveRevisions | controllers/state.go:155-514 | after ticks that all succeed every deployed or deploying member has its revision |
| Reconciling.NothingIsMissing | controllers/syncer.go:99-126 | and still has it when the routers' settings and the saved list read it |
| Reconciling.SyncApp | controllers/syncer.go:415-481 | traffic is divided unless nothing is deployed; the last deployed or deploying revision can be read; it fails exactly by a failed apply for somebody deployed or being deployed, or by a panic |
| Reconciling.CollectorIsNeverEmpty | controllers/syncer.go:48-61 | a reconcile that reaches its garbage collection has members, so the retention strategy is never given an empty list |
| Reconciling.CollectGarbage | controllers/garbagecollector.go:83-105 | the garbage of a collection that is not empty is what the retention strategy leaves of its members by commit time, state and time to live |
| Reconciling.CandidatesAre | controllers/garbagecollector.go:20-45 | a member is judged by its state, the commit time of its revision or else zero, and its saved time to live |
| Reconciling.CollectedIsPast | controllers/garbagecollector/defaultStrategy.go:13-27 | whatever is collected is retired, failed, being deleted or deleted, with its commit longer ago than its time to live |
| Reconciling.SavesOnlyWhatSucceeds | controllers/syncer.go:46-129 | a reconcile that saves had a live cluster, revisions, only successful ticks, and no failing step, except for removing the release manager and for applying routes that nobody has |
| Reconciling.GoneWithoutRevisions | controllers/syncer.go:46-61 | nothing is left exactly when there are no revisions, and then nothing was ticked |
| Reconciling.AbortsForAReason | controllers/syncer.go:46-129 | with live clusters, no failing step and no failing tick in its log, a reconcile is abandoned only because its allocation panicked |
| Reconciling.Reconcile | controllers/syncer.go:46-129 | a reconcile finds no revisions, or saves exactly what ticks, observation, allocation and recording give, or saves nothing because a step or tick failed or the allocation panicked; its log is what its ticks attempted, and empty before they begin |
| Lineage.SavedDescend | controllers/releasemanager_controller.go:250-276 | every saved status descends from the same tag's loaded status by one tick, keeping state and canary start, with traffic only where the allocation may put it |
| Lineage.EveryTickIsLogged | controllers/syncer.go:390-404 | a reconcile that gets past its ticks has logged one for every member |
| CanaryCap.CanariesStayCapped | controllers/syncer.go:687-742 | while the revision flagged before the ticks is releasable after them, every canary with a known strategy ends the reconcile at or below its percent |
| CanaryCap.SavedCanariesStayCapped | controllers/syncer.go:687-742 | and is saved so |
| Runs.TrafficIsSafe | controllers/state.go:337-461 | on every run, abandoned reconciles included, saved traffic is at most 100 percent and only in states that carry traffic, and no attempted tick retired, deleted or synced unrouted a revision with traffic |
| Runs.AllocationNeverPanics | controllers/syncer.go:694-700 | on every run the allocation never panics while what it lists has known strategies |
| Runs.OnlyFailuresAbandon | controllers/syncer.go:46-129 | on every run, a reconcile with live clusters, no failing step and known strategies is abandoned if and only if a tick in its log failed |
| Runs.NoReleaseWithoutCanary | controllers/state.go:197-357 | on every run with an unchanging configured canary, whatever is canaried, pending release, releasing or released has a start set by a tick that found it canarying with traffic, and start plus duration is not after now |
| Runs.NoTrafficBeforeTests | controllers/state.go:197-316 | on every run whatever carries traffic last left deployed or tested toward it at a tick whose external test was neither pending, started nor failed |
| Totals.DividedIsSaved | controllers/syncer.go:643-758 | a reconcile that divides traffic saves one entry per tag, adding up to exactly 100 percent |
| Totals.NeverMoreThanAll | controllers/releasemanager_controller.go:250-276 | on every run the saved percents add up to at most 100, one entry per tag |
| Removals.RemovedOnlyWhenDeleted | controllers/syncer.go:97-112 | on every run a tag that a saving reconcile leaves out was being deleted, without revision and traffic, and a committed tick of that reconcile deleted its canary rules, service levels and objects, none failing |
| GarbageCollector.SortRevisions | controllers/garbagecollector/common.go:6-15 | a permutation, newest first, ties in any order |
| GarbageCollector.DefaultStrategy | controllers/garbagecollector/defaultStrategy.go:9-36 | the budgeted loop returns exactly the garbage of the sorted list, without its last entry if that would be everything, and panics only on an empty list |
| GarbageCollector.GarbageIsSubsequence | controllers/garbagecollector/defaultStrategy.go:9-29 | the garbage is a subsequence of the newest-first list |
| GarbageCollector.AllGarbageIsTaken | controllers/garbagecollector/defaultStrategy.go:13-27 | an entry is taken if and only if now is after its creation plus its time to live, its state is retired, deleting, deleted or failed, and, if retired, at least three retired entries precede it |
| GarbageCollector.EverythingIsGarbageWhen | controllers/garbagecollector/defaultStrategy.go:31-34 | everything would go if and only if every entry is expired and deleting, deleted or failed |
| GarbageCollector.EnoughStays | controllers/garbagecollector/defaultStrategy.go:9-36 | something always stays, with at least three retired revisions or all there are |
| GarbageCollector.SparedIsOldest | controllers/garbagecollector/defaultStrategy.go:31-34 | what is spared then is the oldest |
| Latency.LinearEstimateIsExactIff | controllers/scaling/linear.go:60-66 | for every positive increment the estimate is the number of increments from zero to the maximum if and only if that many increments do not wrap around |
| Latency.GeometricIterations | controllers/scaling/geometric.go:59-72 | whenever the loop ends at all, in uint32 arithmetic, it counts one more than the turns it takes |
| Latency.GeometricEstimateIsExactIff | controllers/scaling/geometric.go:59-72 | where the loop ends its count is the number of increments if and only if the start is below the maximum and no product before the last wraps around below the start |
| Latency.SaneEstimate | controllers/scaling/geometric.go:59-72 | with a factor of at least two, a positive start and no wraparound the loop ends, and its count is exact if and only if the start is below the maximum |
| Latency.IdleLoopEndsWhen | controllers/scaling/geometric.go:59-72 | with a factor of one the loop ends if and only if the start is at least the maximum, and with a zero factor or start if and only if the maximum is zero |
| Webhook.BucketIngressPorts | api/v1alpha1/revision_webhook.go:231-255 | the buckets hold, for each ingress with any, its ports in order, once per listing |
| Webhook.Revision.GetPatches | api/v1alpha1/revision_webhook.go:55-127 | every target ends with its ports' ingresses filled in and its defaults completed by what the patched ports suggest, presets kept |
| Webhook.PatchedPortMeans | api/v1alpha1/revision_webhook.go:65-88 | a public port without ingresses is given private and public, a private one private, and no other port changes |
| Webhook.BucketHolds | api/v1alpha1/revision_webhook.go:231-255 | behind an ingress are exactly the ports that list it, or, listing nothing, have it by their mode |
| Webhook.SuggestedMeans | api/v1alpha1/revision_webhook.go:90-114 | an http port is suggested where none is flagged as default, else the single port of a bucket, else none |
| Webhook.CompletedMeans | api/v1alpha1/revision_webhook.go:115-124 | every preset stays and suggestions fill in what is not preset |
| Webhook.ValidateIngresses | api/v1alpha1/revision_webhook.go:194-217 | reports exactly the ingresses without defaults, defaults that name no port, and defaults for no ingress |
| Webhook.PatchingIsIdempotent | api/v1alpha1/revision_webhook.go:55-127 | patching a patched target changes nothing |
| Webhook.BucketsAreKeptExactlyWhen | api/v1alpha1/revision_webhook.go:65-88 | patching keeps every bucket if and only if no public or private port has an ingress list that is present but empty |
| Webhook.PatchedIsValidExactlyWhen | api/v1alpha1/revision_webhook.go:90-127 | the ingress checks accept a patched target if and only if each preset names a port behind its ingress, and wherever nothing is preset the ports suggest a default or one goes by the empty name while the target has defaults at all |
| Webhook.DefaultingSatisfiesValidation | api/v1alpha1/revision_webhook.go:90-127 | without presets, nameless ports and hidden ones the checks pass if and only if each bucket has one entry, or an http port and none flagged as default |

## Left out

- Kubernetes, Istio, Prometheus, KEDA, HPA, WPA and Datadog objects: input and output; an effect is recorded as attempted and may fail.
- Replicas.ExpectedReplicaCount: replica counts are integers and reals; float64 rounding and int32 overflow are not modelled. Standby clusters of a fleet without live ones are out: their share would be infinite, and a reconcile refuses such a fleet.
- RampGate.ComputeFleetReplicasRequiredForRamp: the other revisions' pods are added up without int32 overflow.
- GateReachable.UnraisedOpensExactlyWhen: autoscaler bounds are taken for a revision that sets a minimum; without one the plan would dereference a missing value.
- Reconciling.Reconcile: one clock reading serves a whole reconcile, and concurrent appliers and observers either all succeed or fail.
- Runs.TrafficIsSafe: speaks of the saved percents; when the routers have been updated and a later step fails, they keep the new weights while the statuses keep the old percents.
- Runs.NoReleaseWithoutCanary: is about a tag whose revision, whenever it exists, configures the same canary.
- CanaryCap.CanariesStayCapped: a canary with an unknown strategy holds on to its percent, whatever its cap.
- Convergence.RolloutCompletes: states, revisions and settings stay fixed between the allocations; ticks in between are covered by the run properties instead.
- Webhook.DefaultingSatisfiesValidation: presets, nameless and hidden ports are covered by Webhook.PatchedIsValidExactlyWhen instead.
- Schedules, calendars, time zones and the test timeout: oracle booleans.
- Progress.ReleaseCompletes: follows one revision through repeated ticks with the same surroundings; how soon replicas appear and tests finish is up to the clusters.
- Timestamps kept for metrics (deploying, release and git times), logging, Slack and metrics: not read by any modelled decision.
- CPU, memory and request rate targets lowered while ramping: plain scaling of one number.
- Routing headers, traffic policies, namespaces, waypoints, alerts, service levels and port unions: plain data copied to the routers.
- Marking the picked garbage on the revisions, mirroring, secrets and cluster controllers: input and output.
- Deleting the release manager itself: finalizing runs outside the modelled loop.
