/** The rows shared by the budgeting and cloud-run services (models/entities.py).

    A table is a sequence of rows and a row's primary key is its position: keys are
    unique and never reused, and that is all the services need of `prefixed_id`.
 */
module Entities {

  datatype Option<+T> = None | Some(value: T)

  /** Microseconds since the start of year 0; every datetime of the source is one. */
  type Time = nat

  const SECOND: nat := 1_000_000

  type WorkspaceId = string
  type RunId = nat
  type ReservationId = nat
  type ArtifactId = nat
  type LeaseId = nat

  datatype RunStatus = Queued | Running | PatchReady | Failed | Cancelled

  /** CLOUD_RUN_TERMINAL_STATUSES */
  predicate Terminal(status: RunStatus) {
    status.PatchReady? || status.Failed? || status.Cancelled?
  }

  datatype QueueProvider = LocalDb | ExternalStub | AliyunMns
  datatype RuntimeProvider = AliyunEci | OtherRuntime(name: string)

  /** The digest of (run, worker, secret); two digests agree only on equal triples. */
  datatype TokenHash = TokenHash(run: RunId, worker: string, secret: string)

  datatype CallbackToken = CallbackToken(hash: TokenHash, expiresAt: Time, usedAt: Option<Time>)

  datatype CostStatus = Pending | CostReleased | CostSettled

  datatype CostSummary = CostSummary(
    reservation: ReservationId,
    reserved: int,
    measured: int,
    billable: int,
    logSyncCalls: Option<int>,
    status: CostStatus)

  datatype CloudRun = CloudRun(
    workspace: WorkspaceId,
    project: string,
    task: string,
    status: RunStatus,
    failureReason: Option<string>,
    patchArtifact: Option<ArtifactId>,
    cancelRequested: bool,
    cancelRequestedAt: Option<Time>,
    cancelledAt: Option<Time>,
    worker: Option<string>,
    claimedAt: Option<Time>,
    completedAt: Option<Time>,
    queueProvider: QueueProvider,
    lease: Option<LeaseId>,
    leaseExpiresAt: Option<Time>,
    heartbeatAt: Option<Time>,
    attemptCount: nat,
    maxAttempts: nat,
    queueMessage: Option<string>,
    runtimeProvider: Option<RuntimeProvider>,
    manifestUri: Option<string>,
    manifestBytes: Option<int>,
    logUri: Option<string>,
    logBytes: Option<int>,
    callback: Option<CallbackToken>,
    reservation: Option<ReservationId>,
    actualCost: int,
    costSummary: CostSummary,
    createdAt: Time)

  /** The local task run mirrored by cloud run number `k` is row `k` of its own table. */
  datatype LocalRun = LocalRun(
    status: RunStatus,
    failureReason: Option<string>,
    patchArtifact: Option<ArtifactId>)

  datatype StoredObject = StoredObject(run: RunId, uri: string, sizeBytes: int)

  datatype ReservationStatus = Reserved | Released | Settled

  datatype Reservation = Reservation(
    workspace: WorkspaceId,
    run: Option<RunId>,
    reserved: nat,
    settled: int,
    status: ReservationStatus,
    createdAt: Time,
    settledAt: Option<Time>)

  datatype SpendLimit = SpendLimit(monthly: nat, perRun: nat, active: bool)

  datatype UsageType =
    | ModelTokens
    | CloudRunRuntimeSeconds
    | WorkerSubmissions
    | ObjectStorageBytes
    | ObjectStorageReads
    | LogSyncCalls
    | QueueMessages
    | PrPublishAttempts

  datatype UsageEntry = UsageEntry(
    workspace: WorkspaceId,
    project: Option<string>,
    task: Option<string>,
    run: Option<RunId>,
    usageType: UsageType,
    quantity: int,
    unitPrice: int,
    amount: int)
}
