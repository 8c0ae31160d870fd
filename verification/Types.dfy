/** The entities the release manager reads and persists. Times are seconds; the
    zero time stands for an absent timestamp. */
module Types {
  import opened Base

  type Tag = string
  type Time = int

  const ZERO_TIME: Time := 0

  datatype State =
    | Created | Deploying | Deployed
    | PendingTest | Testing | Tested
    | Canarying | Canaried
    | PendingRelease | Releasing | Released
    | Retiring | Retired
    | Deleting | Deleted
    | Failing | Failed
    | TimingOut

  datatype Strategy = Linear | Geometric | Other

  datatype Release = Release(
    eligible: bool,
    max: uint32,
    strategy: Strategy,
    increment: uint32,
    linearDelay: Time,
    start: uint32,
    factor: uint32,
    geometricDelay: Time,
    ttl: int)

  datatype Canary = Canary(percent: uint32, ttl: int)

  datatype ExternalTest = ExternalTest(enabled: bool, started: bool, completed: bool, succeeded: bool)

  datatype ScaleInfo = ScaleInfo(
    min: Option<nat>,
    max: nat,
    initial: nat,
    metricTarget: bool,
    worker: bool,
    kedaWorker: bool)
  {
    predicate HasAutoscaler() { metricTarget || worker || kedaWorker }
  }

  /** A revision's settings for the one target the release manager looks after. */
  datatype Target = Target(
    release: Release,
    canary: Canary,
    objectives: nat,
    externalTest: ExternalTest,
    scale: ScaleInfo)
  {
    predicate ConfiguresCanary() {
      canary.percent != 0 && canary.ttl != 0 && objectives != 0
    }

    /** RevisionTarget.IsCanaryPending */
    predicate IsCanaryPending(start: Option<Time>, now: Time) {
      ConfiguresCanary() && (start.None? || start.value + canary.ttl > now)
    }
  }

  /** Revisions without the target are filtered out when they are loaded, so a
      revision here always has one. `failed` is spec.failed, `failedAt` says that
      the failure annotation is present. */
  datatype Revision = Revision(
    gitTimestamp: Time,
    created: Time,
    failed: bool,
    failedAt: bool,
    target: Target)

  datatype ScaleStatus = ScaleStatus(current: nat, desired: nat, peak: nat)

  /** ReleaseManagerRevisionStatus: what a reconcile persists per revision. */
  datatype Status = Status(
    tag: Tag,
    state: State,
    stateUpdated: Option<Time>,
    currentPercent: uint32,
    peakPercent: uint32,
    releaseEligible: bool,
    lastUpdated: Option<Time>,
    canaryStart: Option<Time>,
    ttl: int,
    scale: ScaleStatus,
    deleted: bool)

  /** A snapshot of an Incarnation object. */
  datatype Inc = Inc(
    tag: Tag,
    revision: Option<Revision>,
    status: Status,
    deployed: bool,
    isRamping: bool)
  {
    predicate HasRevision() { revision.Some? }

    predicate MarkedAsFailed() { revision.Some? && revision.value.failed }

    predicate IsCanaryPending(now: Time) {
      revision.Some? && revision.value.target.IsCanaryPending(status.canaryStart, now)
    }

    /** No traffic is routed to a revision in either of these two states. */
    predicate IsRoutable() {
      status.state != Canaried && status.state != PendingRelease
    }

    predicate IsDeployed() {
      status.scale.current >= status.scale.desired && deployed
    }
  }

  datatype ClusterInfo = ClusterInfo(live: bool, scalingFactor: real)

  /** What an incarnation sees of the release manager while one reconcile runs:
      the statuses as they were loaded, and the fleet's clusters. */
  datatype Controller = Controller(saved: seq<Status>, clusters: seq<ClusterInfo>)
}
