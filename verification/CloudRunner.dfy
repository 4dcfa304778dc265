/** The cloud-run lease protocol of services/cloud_runner.py: what one committed step does.

    Step granularity. Enqueueing, claiming a lease, each lease callback, requeueing a batch,
    cancelling, synchronising a log, cleaning up stored objects and appending a usage row are
    one step each; processing on a local worker is two steps, claim and finish, so that a
    cancel can land between them. A completion is one step that accepts and finalises. Provider
    calls, the sandbox and the task state machine are outcomes that the step is given.
    `history` and `processing` are not columns: they record which callbacks were accepted and
    which local workers are between their claim and their finish.
 */
module CloudRunner {
  import opened Entities
  import opened Rows
  import opened Budgeting
  import opened Text

  const DEFAULT_MAX_ATTEMPTS: nat := 3
  const CALLBACK_TOKEN_LIFETIME: nat := 3600 * SECOND

  datatype CallbackKind = Heartbeat | Upload | Completion | AbortedCompletion

  datatype Event =
    | Issued(run: RunId, lease: LeaseId)
    | Accepted(run: RunId, lease: LeaseId, kind: CallbackKind)
    | Expired(run: RunId)

  datatype State = State(
    books: Books,
    runs: seq<CloudRun>,
    locals: seq<LocalRun>,
    objects: seq<StoredObject>,
    artifacts: seq<RunId>,
    nextLease: LeaseId,
    processing: set<RunId>,
    history: seq<Event>)

  const INITIAL: State := State(Books(map[], map[], [], []), [], [], [], [], 0, {}, [])

  // ---- shared row updates ----

  function Put(s: State, r: RunId, run: CloudRun, local: LocalRun): State
    requires r < |s.runs| && r < |s.locals|
  {
    s.(runs := s.runs[r := run], locals := s.locals[r := local])
  }

  ghost function SettleRun(s: State, r: RunId, now: Time): (after: State)
    requires r < |s.runs|
    ensures |after.runs| == |s.runs| && |after.locals| == |s.locals|
  {
    var (books, run) := Settle(s.books, r, s.runs[r], s.objects, now);
    s.(books := books, runs := s.runs[r := run])
  }

  function ReleaseRun(s: State, r: RunId, now: Time): (after: State)
    requires r < |s.runs|
    ensures |after.runs| == |s.runs| && |after.locals| == |s.locals|
  {
    var (books, run) := Release(s.books, s.runs[r], now);
    s.(books := books, runs := s.runs[r := run])
  }

  function FailedRow(run: CloudRun, reason: string, now: Time): CloudRun {
    run.(status := Failed, failureReason := Some(reason), completedAt := Some(now))
  }

  function FailedLocal(local: LocalRun, reason: string): LocalRun {
    local.(status := Failed, failureReason := Some(reason))
  }

  /** Fail a run that started, and settle it. */
  ghost function FailRun(s: State, r: RunId, reason: string, now: Time): (after: State)
    requires r < |s.runs| == |s.locals|
    ensures |after.runs| == |s.runs| && |after.locals| == |s.locals|
  {
    SettleRun(Put(s, r, FailedRow(s.runs[r], reason, now), FailedLocal(s.locals[r], reason)), r, now)
  }

  function UseToken(callback: Option<CallbackToken>, now: Time): Option<CallbackToken> {
    if callback.Some? && callback.value.usedAt.None? then Some(callback.value.(usedAt := Some(now))) else callback
  }

  function OrNow(at: Option<Time>, now: Time): Option<Time> {
    if at.Some? then at else Some(now)
  }

  // ---- enqueue ----

  datatype QueueOutcome = Sent(message: Option<string>) | QueueError

  datatype RuntimeOutcome =
    | Submitted(manifestUri: Option<string>, manifestBytes: Option<int>, logUri: Option<string>, logBytes: Option<int>,
                stored: seq<(string, nat)>)
    | SubmissionError

  datatype EnqueueRequest = EnqueueRequest(
    workspace: WorkspaceId,
    project: string,
    task: string,
    queueProvider: QueueProvider,
    runtimeProvider: Option<RuntimeProvider>,
    secret: string,
    queue: QueueOutcome,
    runtime: RuntimeOutcome)

  datatype EnqueueResult = Created(id: RunId) | QueueFailed(id: RunId) | RuntimeFailed(id: RunId) | PaymentRequired

  /** The worker a protected run is bound to; other runs have no callback token. */
  function ProtectedWorker(req: EnqueueRequest, id: RunId): Option<string> {
    if req.runtimeProvider.Some? then
      Some((match req.runtimeProvider.value case AliyunEci => "aliyun-eci" case OtherRuntime(name) => name)
           + "-" + Decimal(id))
    else if req.queueProvider.AliyunMns? then Some("aliyun-mns-" + Decimal(id))
    else None
  }

  predicate SendsMessage(req: EnqueueRequest) {
    !(req.queueProvider.AliyunMns? && req.runtimeProvider == Some(AliyunEci))
  }

  function NewRun(req: EnqueueRequest, id: RunId, reservation: ReservationId, cents: int, now: Time): CloudRun {
    var worker := ProtectedWorker(req, id);
    var callback := if worker.None? then None
      else Some(CallbackToken(TokenHash(id, worker.value, req.secret), now + CALLBACK_TOKEN_LIFETIME, None));
    CloudRun(req.workspace, req.project, req.task, Queued, None, None, false, None, None, worker, None, None,
             req.queueProvider, None, None, None, 0, DEFAULT_MAX_ATTEMPTS, None, req.runtimeProvider,
             None, None, None, None, callback, Some(reservation), 0,
             CostSummary(reservation, cents, 0, 0, None, Pending), now)
  }

  function WithNewRun(s: State, req: EnqueueRequest, reservation: ReservationId, books: Books, now: Time): State {
    var id := |s.runs|;
    s.(books := Assign(books, reservation, id),
       runs := s.runs + [NewRun(req, id, reservation, RESERVATION_CENTS, now)],
       locals := s.locals + [LocalRun(Queued, None, None)])
  }

  function WithMessage(s: State, r: RunId, message: Option<string>): State
    requires r < |s.runs|
  {
    s.(runs := s.runs[r := s.runs[r].(queueMessage := message)])
  }

  function StoredParts(r: RunId, parts: seq<(string, nat)>): (objects: seq<StoredObject>)
    ensures |objects| == |parts|
  {
    seq(|parts|, k requires 0 <= k < |parts| => StoredObject(r, parts[k].0, parts[k].1))
  }

  function WithRuntime(s: State, r: RunId, refs: RuntimeOutcome): State
    requires r < |s.runs| && refs.Submitted?
  {
    s.(objects := s.objects + StoredParts(r, refs.stored), runs := s.runs[r := s.runs[r].(
      manifestUri := refs.manifestUri, manifestBytes := refs.manifestBytes,
      logUri := refs.logUri, logBytes := refs.logBytes)])
  }

  /** What follows the first commit: the queue message, then the runtime submission. */
  ghost function Dispatched(s: State, r: RunId, req: EnqueueRequest, now: Time): (after: (State, EnqueueResult))
    requires r < |s.runs| == |s.locals|
    ensures |after.0.runs| == |after.0.locals| == |s.runs|
  {
    if SendsMessage(req) && req.queue.QueueError? then
      var failed := Put(s, r, FailedRow(s.runs[r], "queue_enqueue_failed", now),
                        FailedLocal(s.locals[r], "queue_enqueue_failed"));
      (ReleaseRun(failed, r, now), QueueFailed(r))
    else
      var sent := if SendsMessage(req) then WithMessage(s, r, req.queue.message) else s;
      if req.runtimeProvider.None? then (sent, Created(r))
      else if req.runtime.SubmissionError? then (FailRun(sent, r, "runtime_submission_failed", now), RuntimeFailed(r))
      else (WithRuntime(sent, r, req.runtime), Created(r))
  }

  ghost function Enqueue(s: State, req: EnqueueRequest, now: Time): (after: (State, EnqueueResult))
    requires |s.runs| == |s.locals|
    ensures |s.runs| <= |after.0.runs| == |after.0.locals|
  {
    var (books, result) := Reserve(s.books, req.workspace, now);
    if !result.ReservedAs? then (s, PaymentRequired)
    else Dispatched(WithNewRun(s, req, result.id, books, now), |s.runs|, req, now)
  }

  // ---- worker callbacks ----

  datatype Credential = Credential(worker: string, secret: Option<string>, required: bool)

  datatype Refusal = TokenRequired | ScopeRequired | TokenInvalid | LeaseNotCurrent

  datatype Resolution = Current(run: RunId) | Refused(why: Refusal)

  /** verify_cloud_run_callback_token_or_403 */
  function TokenRefusal(r: RunId, run: CloudRun, cred: Credential, now: Time): Option<Refusal> {
    if run.callback.None? then (if cred.required then Some(TokenInvalid) else None)
    else if cred.secret.None? then Some(TokenRequired)
    else if run.callback.value.usedAt.Some? then Some(TokenInvalid)
    else if run.callback.value.expiresAt < now then Some(TokenInvalid)
    else if TokenHash(r, cred.worker, cred.secret.value) != run.callback.value.hash then Some(TokenInvalid)
    else None
  }

  predicate LeaseAcceptable(run: CloudRun, now: Time) {
    run.status.Running? && run.completedAt.None? && run.leaseExpiresAt.Some? && run.leaseExpiresAt.value >= now
  }

  predicate LeaseRequeueable(run: CloudRun, now: Time) {
    run.status.Running? && run.completedAt.None? && run.leaseExpiresAt.Some? && run.leaseExpiresAt.value < now
  }

  function HasLease(lease: LeaseId): CloudRun -> bool {
    (run: CloudRun) => run.lease == Some(lease)
  }

  function HoldsLease(lease: LeaseId, worker: string): CloudRun -> bool {
    (run: CloudRun) => run.lease == Some(lease) && run.worker == Some(worker)
                       && run.status.Running? && run.completedAt.None?
  }

  /** resolve_cloud_run_callback_lease, whose two paths check in different orders. */
  function Resolve(runs: seq<CloudRun>, lease: LeaseId, cred: Credential, now: Time): (found: Resolution)
    ensures found.Current? ==> found.run < |runs|
  {
    if !cred.required then
      var k := FirstIndex(runs, HoldsLease(lease, cred.worker));
      if k < 0 || !LeaseAcceptable(runs[k], now) then Refused(LeaseNotCurrent)
      else
        var refusal := TokenRefusal(k, runs[k], cred, now);
        if refusal.Some? then Refused(refusal.value) else Current(k)
    else if cred.secret.None? then Refused(TokenRequired)
    else
      var k := FirstIndex(runs, HasLease(lease));
      if k < 0 then Refused(TokenInvalid)
      else
        var refusal := TokenRefusal(k, runs[k], cred, now);
        if refusal.Some? then Refused(refusal.value)
        else if runs[k].worker != Some(cred.worker) || !LeaseAcceptable(runs[k], now) then Refused(LeaseNotCurrent)
        else Current(k)
  }

  function Record(s: State, e: Event): State {
    s.(history := s.history + [e])
  }

  function HeartbeatLease(s: State, lease: LeaseId, cred: Credential, seconds: nat, now: Time): (State, Resolution) {
    var found := Resolve(s.runs, lease, cred, now);
    if found.Refused? then (s, found)
    else
      var run := s.runs[found.run].(heartbeatAt := Some(now), leaseExpiresAt := Some(now + seconds * SECOND));
      (Record(s.(runs := s.runs[found.run := run]), Accepted(found.run, lease, Heartbeat)), found)
  }

  /** `stored` is what the object store kept; a store failure changes nothing. */
  function UploadArtifact(s: State, lease: LeaseId, cred: Credential, stored: Option<(string, nat)>, now: Time)
    : (State, Resolution)
  {
    var found := Resolve(s.runs, lease, cred, now);
    if found.Refused? || stored.None? then (s, found)
    else
      var row := StoredObject(found.run, stored.value.0, stored.value.1);
      (Record(s.(objects := s.objects + [row]), Accepted(found.run, lease, Upload)), found)
  }

  // ---- finalisation ----

  datatype ExecutionResult = ExecutionResult(
    ready: bool,
    failureReason: Option<string>,
    filesChanged: seq<string>,
    diffBlank: bool)

  /** _should_create_patch_artifact */
  predicate CreatesArtifact(result: ExecutionResult) {
    result.ready || (result.failureReason == Some("test_failed") && result.filesChanged != [] && !result.diffBlank)
  }

  function ResultStatus(result: ExecutionResult): RunStatus {
    if result.ready then PatchReady else Failed
  }

  function CancelledRow(run: CloudRun, now: Time): CloudRun {
    run.(status := Cancelled, patchArtifact := None, failureReason := None, cancelRequested := true,
         cancelRequestedAt := OrNow(run.cancelRequestedAt, now), cancelledAt := OrNow(run.cancelledAt, now),
         completedAt := Some(now), callback := UseToken(run.callback, now))
  }

  /** _mark_claimed_cloud_run_cancelled: no check of the status. */
  ghost function MarkCancelled(s: State, r: RunId, now: Time): (after: State)
    requires r < |s.runs| == |s.locals|
    ensures |after.runs| == |s.runs| && |after.locals| == |s.locals|
  {
    SettleRun(Put(s, r, CancelledRow(s.runs[r], now), LocalRun(Cancelled, None, None)), r, now)
  }

  /** The finalised row before it is settled; an artifact row is added when one is due. */
  function Finished(s: State, r: RunId, result: ExecutionResult, now: Time): (after: State)
    requires r < |s.runs| == |s.locals|
    ensures |after.runs| == |s.runs| && |after.locals| == |s.locals|
  {
    var status := ResultStatus(result);
    var run := s.runs[r].(status := status, failureReason := result.failureReason, completedAt := Some(now));
    var local := s.locals[r].(status := status, failureReason := result.failureReason);
    if !CreatesArtifact(result) then Put(s, r, run, local)
    else
      var artifact := Some(|s.artifacts|);
      Put(s.(artifacts := s.artifacts + [r]), r, run.(patchArtifact := artifact), local.(patchArtifact := artifact))
  }

  datatype Finalisation = Closed | AlreadyClosed | TransitionRejected

  /** _finalize_claimed_cloud_run_result. When the task may not become patch-ready the call
      raises with the finished row still uncommitted; the caller decides what becomes of it. */
  ghost function Finalize(s: State, r: RunId, result: ExecutionResult, taskAllows: bool, now: Time)
    : (after: (State, Finalisation))
    requires r < |s.runs| == |s.locals|
    ensures |after.0.runs| == |s.runs| && |after.0.locals| == |s.locals|
  {
    if s.runs[r].cancelRequested then (MarkCancelled(s, r, now), Closed)
    else if !s.runs[r].status.Running? || s.runs[r].completedAt.Some? then (s, AlreadyClosed)
    else if CreatesArtifact(result) && !taskAllows then (Finished(s, r, result, now), TransitionRejected)
    else (SettleRun(Finished(s, r, result, now), r, now), Closed)
  }

  /** complete_cloud_run_lease. The acceptance is committed first: it uses up the callback
      token. A rejected task transition then rolls the finalisation back. */
  ghost function CompleteLease(
      s: State, lease: LeaseId, cred: Credential, result: ExecutionResult, taskAllows: bool, now: Time)
    : (after: (State, Resolution))
    requires |s.runs| == |s.locals|
    ensures |after.0.runs| == |after.0.locals| == |s.runs|
  {
    var found := Resolve(s.runs, lease, cred, now);
    if found.Refused? then (s, found)
    else
      var r := found.run;
      var accepted := s.(runs := s.runs[r := s.runs[r].(callback := UseToken(s.runs[r].callback, now))]);
      var (closed, how) := Finalize(accepted, r, result, taskAllows, now);
      if how.TransitionRejected? then (Record(accepted, Accepted(r, lease, AbortedCompletion)), found)
      else (Record(closed, Accepted(r, lease, Completion)), found)
  }

  // ---- claiming ----

  datatype ClaimResult = Leased(lease: LeaseId) | NoWork | ActiveLease | ClaimRefused(why: Refusal)

  predicate Claimable(run: CloudRun, provider: QueueProvider) {
    && run.status.Queued? && run.queueProvider == provider
    && !run.cancelRequested && run.attemptCount < run.maxAttempts
  }

  function LeasedRow(r: RunId, run: CloudRun, lease: LeaseId, worker: string, seconds: nat, now: Time): CloudRun {
    run.(status := Running, worker := Some(worker), lease := Some(lease),
         leaseExpiresAt := Some(now + seconds * SECOND), heartbeatAt := Some(now),
         attemptCount := run.attemptCount + 1, claimedAt := Some(now),
         queueMessage := if run.queueProvider.ExternalStub? && run.queueMessage.None?
                         then Some("external-stub-message-" + Decimal(r)) else run.queueMessage)
  }

  function IssueLease(s: State, r: RunId, worker: string, seconds: nat, now: Time): (after: State)
    requires r < |s.runs| == |s.locals|
    ensures |after.runs| == |after.locals| == |s.runs|
  {
    var row := LeasedRow(r, s.runs[r], s.nextLease, worker, seconds, now);
    Record(Put(s, r, row, s.locals[r].(status := Running)).(nextLease := s.nextLease + 1), Issued(r, s.nextLease))
  }

  /** The query of a claim that names no run: the first claimable row by creation time and id. */
  function FirstClaimable(runs: seq<CloudRun>, provider: QueueProvider): (first: Option<RunId>)
    ensures first.Some? ==> first.value < |runs| && Claimable(runs[first.value], provider)
  {
    if runs == [] then None
    else
      var last := |runs| - 1;
      var before := FirstClaimable(runs[..last], provider);
      if !Claimable(runs[last], provider) then before
      else if before.Some? && runs[before.value].createdAt <= runs[last].createdAt then before
      else Some(last)
  }

  /** The candidate of a claim, which may name its run. */
  function Candidate(runs: seq<CloudRun>, target: Option<RunId>, provider: QueueProvider): (r: Option<RunId>)
    ensures r.Some? ==> r.value < |runs| && Claimable(runs[r.value], provider)
  {
    match target
    case None => FirstClaimable(runs, provider)
    case Some(r) => if r < |runs| && Claimable(runs[r], provider) then target else None
  }

  /** The answer when the query finds no candidate. */
  function NoCandidate(
      runs: seq<CloudRun>, target: Option<RunId>, provider: QueueProvider, cred: Credential, now: Time): ClaimResult
  {
    if target.None? then NoWork
    else
      var r := target.value;
      if r >= |runs| then (if cred.required then ClaimRefused(TokenInvalid) else NoWork)
      else
        var refusal := TokenRefusal(r, runs[r], cred, now);
        var busy := runs[r].queueProvider == provider && runs[r].status.Running? && runs[r].completedAt.None?;
        if (cred.required || busy) && refusal.Some? then ClaimRefused(refusal.value)
        else if busy && LeaseAcceptable(runs[r], now) then ActiveLease
        else NoWork
  }

  /** claim_next_cloud_run_lease. The first candidate decides: its token is verified before
      anything is tried, and a refusal ends the call. */
  function ClaimLease(
      s: State, target: Option<RunId>, provider: QueueProvider, cred: Credential, seconds: nat, now: Time)
    : (after: (State, ClaimResult))
    requires |s.runs| == |s.locals|
    ensures |after.0.runs| == |after.0.locals| == |s.runs|
  {
    if cred.required && cred.secret.None? then (s, ClaimRefused(TokenRequired))
    else if cred.required && target.None? then (s, ClaimRefused(ScopeRequired))
    else
      match Candidate(s.runs, target, provider)
      case None => (s, NoCandidate(s.runs, target, provider, cred, now))
      case Some(r) =>
        var refusal := TokenRefusal(r, s.runs[r], cred, now);
        if refusal.Some? then (s, ClaimRefused(refusal.value))
        else (IssueLease(s, r, cred.worker, seconds, now), Leased(s.nextLease))
  }

  /** _claim_cloud_run: a local worker takes any queued run, cancelled or not. */
  function ClaimLocal(s: State, r: RunId, worker: string, now: Time): (after: State)
    requires |s.runs| == |s.locals|
    ensures |after.runs| == |after.locals| == |s.runs|
  {
    if r >= |s.runs| || !s.runs[r].status.Queued? then s
    else
      var row := s.runs[r].(status := Running, worker := Some(worker), claimedAt := Some(now));
      Put(s, r, row, s.locals[r].(status := Running)).(processing := s.processing + {r})
  }

  datatype LocalOutcome = Preflight | Ran(result: ExecutionResult, taskAllows: bool)

  /** The rest of process_cloud_run. An HTTPException, from the preflight or from the task
      transition, fails the run on top of whatever the session already holds. */
  ghost function FinishLocal(s: State, r: RunId, outcome: LocalOutcome, now: Time): (after: State)
    requires |s.runs| == |s.locals|
    ensures |after.runs| == |after.locals| == |s.runs|
  {
    if r !in s.processing || r >= |s.runs| then s
    else
      var left := s.(processing := s.processing - {r});
      match outcome
      case Preflight => FailRun(left, r, "cloud_run_preflight_failed", now)
      case Ran(result, taskAllows) =>
        var (closed, how) := Finalize(left, r, result, taskAllows, now);
        if how.TransitionRejected? then FailRun(closed, r, "cloud_run_preflight_failed", now) else closed
  }

  // ---- expiry ----

  function RequeuedRow(run: CloudRun): CloudRun {
    run.(status := Queued, worker := None, lease := None, leaseExpiresAt := None, heartbeatAt := None)
  }

  ghost function ExpireRun(s: State, r: RunId, now: Time): (after: State)
    requires r < |s.runs| == |s.locals|
    ensures |after.runs| == |s.runs| && |after.locals| == |s.locals|
  {
    Record(if s.runs[r].attemptCount >= s.runs[r].maxAttempts then FailRun(s, r, "lease_attempts_exhausted", now)
           else Put(s, r, RequeuedRow(s.runs[r]), s.locals[r].(status := Queued)), Expired(r))
  }

  predicate IsExpired(run: CloudRun, provider: QueueProvider, now: Time) {
    LeaseRequeueable(run, now) && run.queueProvider == provider
  }

  function ExpiryOf(run: CloudRun): Time {
    if run.leaseExpiresAt.Some? then run.leaseExpiresAt.value else 0
  }

  ghost predicate InTable(runs: seq<CloudRun>, ids: seq<RunId>) {
    forall i :: 0 <= i < |ids| ==> ids[i] < |runs|
  }

  /** Ids arrive in rising order, so one that expires no earlier than the last goes behind it. */
  function InsertByExpiry(runs: seq<CloudRun>, ids: seq<RunId>, r: RunId): (sorted: seq<RunId>)
    requires InTable(runs, ids) && r < |runs|
    ensures |sorted| == |ids| + 1 && InTable(runs, sorted)
  {
    if ids == [] || ExpiryOf(runs[ids[|ids| - 1]]) <= ExpiryOf(runs[r]) then ids + [r]
    else InsertByExpiry(runs, ids[..|ids| - 1], r) + [ids[|ids| - 1]]
  }

  /** The expired rows among the first `n`, by lease expiry and id. */
  function ExpiredInOrder(runs: seq<CloudRun>, n: nat, provider: QueueProvider, now: Time): (ids: seq<RunId>)
    requires n <= |runs|
    ensures InTable(runs, ids)
  {
    if n == 0 then []
    else
      var before := ExpiredInOrder(runs, n - 1, provider, now);
      if IsExpired(runs[n - 1], provider, now) then InsertByExpiry(runs, before, n - 1) else before
  }

  /** The expiry query, with its limit. */
  function ExpiredQuery(runs: seq<CloudRun>, provider: QueueProvider, limit: nat, now: Time): (ids: seq<RunId>)
    ensures InTable(runs, ids) && |ids| <= limit
  {
    var ids := ExpiredInOrder(runs, |runs|, provider, now);
    if |ids| <= limit then ids else ids[..limit]
  }

  /** Distinct rows whose leases have expired. */
  ghost predicate ExpiredBatch(s: State, batch: seq<RunId>, provider: QueueProvider, now: Time) {
    && (forall i :: 0 <= i < |batch| ==> batch[i] < |s.runs| && IsExpired(s.runs[batch[i]], provider, now))
    && (forall i, j :: 0 <= i < j < |batch| ==> batch[i] != batch[j])
  }

  ghost function ExpireAll(s: State, batch: seq<RunId>, now: Time): (after: State)
    requires |s.runs| == |s.locals| && InTable(s.runs, batch)
    ensures |after.runs| == |after.locals| == |s.runs|
  {
    if batch == [] then s else ExpireRun(ExpireAll(s, batch[..|batch| - 1], now), batch[|batch| - 1], now)
  }

  ghost function RequeueExpired(s: State, provider: QueueProvider, limit: nat, now: Time): (after: State)
    requires |s.runs| == |s.locals|
    ensures |after.runs| == |after.locals| == |s.runs|
  {
    ExpireAll(s, ExpiredQuery(s.runs, provider, limit, now), now)
  }

  // ---- cancellation ----

  function QueuedCancelRow(run: CloudRun, now: Time): CloudRun {
    run.(status := Cancelled, cancelRequested := true, cancelRequestedAt := Some(now), cancelledAt := Some(now),
         completedAt := Some(now), callback := UseToken(run.callback, now))
  }

  function CancelRun(s: State, r: RunId, now: Time): (after: State)
    requires |s.runs| == |s.locals|
    ensures |after.runs| == |after.locals| == |s.runs|
  {
    if r >= |s.runs| || Terminal(s.runs[r].status) then s
    else if s.runs[r].status.Queued? then
      ReleaseRun(Put(s, r, QueuedCancelRow(s.runs[r], now), s.locals[r].(status := Cancelled)), r, now)
    else if s.runs[r].completedAt.Some? then s
    else s.(runs := s.runs[r := s.runs[r].(
      cancelRequested := true, cancelRequestedAt := OrNow(s.runs[r].cancelRequestedAt, now))])
  }

  // ---- stored objects and usage rows ----

  /** sync_cloud_run_log_stream, for a run in any status: a runtime provider that has new log
      content stores it, and the row refers to the new object. `synced` is what it stored. */
  function SyncLog(s: State, r: RunId, synced: Option<(string, nat)>): (after: State)
    ensures |after.runs| == |s.runs| && after.locals == s.locals
  {
    if r >= |s.runs| || s.runs[r].runtimeProvider.None? || synced.None? then s
    else
      var (uri, bytes) := synced.value;
      s.(objects := s.objects + [StoredObject(r, uri, bytes)],
         runs := s.runs[r := s.runs[r].(logUri := Some(uri), logBytes := Some(bytes))])
  }

  function Surviving(objects: seq<StoredObject>, doomed: set<nat>): seq<StoredObject> {
    if objects == [] then []
    else
      var last := |objects| - 1;
      Surviving(objects[..last], doomed) + (if last in doomed then [] else [objects[last]])
  }

  /** A cleanup of expired artifacts may delete any stored rows, whatever became of their runs. */
  function DropObjects(s: State, doomed: set<nat>): State {
    s.(objects := Surviving(s.objects, doomed))
  }

  /** A row that a caller appends. `project` is the project it names or that of the task it
      names, `plannerProject` that of the planner run it names. */
  datatype UsageRequest = UsageRequest(
    workspace: WorkspaceId,
    project: Option<string>,
    plannerProject: Option<string>,
    task: Option<string>,
    run: Option<RunId>,
    usageType: UsageType,
    quantity: nat,
    unitPrice: nat,
    amount: nat)

  datatype UsageReply = Appended | RunNotFound | RunMismatch | SettlementOwnsType | DuplicateUsage

  function Or<T>(a: Option<T>, b: Option<T>): Option<T> {
    if a.Some? then a else b
  }

  /** The row that append_usage_ledger_entry writes: what the request leaves open is taken from
      its run. */
  function EntryFor(runs: seq<CloudRun>, req: UsageRequest): UsageEntry {
    if req.run.Some? && req.run.value < |runs| then
      var run := runs[req.run.value];
      UsageEntry(req.workspace, Or(req.project, Some(run.project)), Or(req.task, Some(run.task)), req.run,
                 req.usageType, req.quantity, req.unitPrice, req.amount)
    else
      UsageEntry(req.workspace, Or(req.project, req.plannerProject), req.task, None,
                 req.usageType, req.quantity, req.unitPrice, req.amount)
  }

  function AppendUsageEntry(s: State, req: UsageRequest): (State, UsageReply) {
    if req.run.Some? && (req.run.value >= |s.runs| || s.runs[req.run.value].workspace != req.workspace) then
      (s, RunNotFound)
    else if req.run.Some? && ((req.task.Some? && s.runs[req.run.value].task != req.task.value)
                              || (req.project.Some? && s.runs[req.run.value].project != req.project.value)) then
      (s, RunMismatch)
    else if req.run.Some? && SettlementOwned(req.usageType) then (s, SettlementOwnsType)
    else
      var e := EntryFor(s.runs, req);
      (s.(books := AppendEntry(s.books, e)), if Appendable(s.books.ledger, e) then Appended else DuplicateUsage)
  }

  // ---- steps and runs of the system ----

  datatype Action =
    | GrantAction(ws: WorkspaceId, cents: nat)
    | LimitAction(ws: WorkspaceId, monthly: nat, perRun: nat)
    | EnqueueAction(req: EnqueueRequest)
    | ClaimLeaseAction(target: Option<RunId>, provider: QueueProvider, cred: Credential, seconds: nat)
    | HeartbeatAction(lease: LeaseId, cred: Credential, seconds: nat)
    | UploadAction(lease: LeaseId, cred: Credential, stored: Option<(string, nat)>)
    | CompleteAction(lease: LeaseId, cred: Credential, result: ExecutionResult, taskAllows: bool)
    | RequeueAction(provider: QueueProvider, limit: nat)
    | ClaimLocalAction(run: RunId, worker: string)
    | FinishLocalAction(run: RunId, outcome: LocalOutcome)
    | CancelAction(run: RunId)
    | SyncLogAction(run: RunId, synced: Option<(string, nat)>)
    | DropObjectsAction(doomed: set<nat>)
    | AppendUsageAction(usage: UsageRequest)

  datatype Step = Step(action: Action, at: Time)

  ghost function Next(s: State, step: Step): (after: State)
    requires |s.runs| == |s.locals|
    ensures |s.runs| <= |after.runs| == |after.locals|
  {
    match step.action
    case GrantAction(ws, cents) => s.(books := Credit(s.books, ws, cents))
    case LimitAction(ws, monthly, perRun) => s.(books := SetLimit(s.books, ws, monthly, perRun))
    case EnqueueAction(req) => Enqueue(s, req, step.at).0
    case ClaimLeaseAction(target, provider, cred, seconds) =>
      ClaimLease(s, target, provider, cred, seconds, step.at).0
    case HeartbeatAction(lease, cred, seconds) => HeartbeatLease(s, lease, cred, seconds, step.at).0
    case UploadAction(lease, cred, stored) => UploadArtifact(s, lease, cred, stored, step.at).0
    case CompleteAction(lease, cred, result, taskAllows) =>
      CompleteLease(s, lease, cred, result, taskAllows, step.at).0
    case RequeueAction(provider, limit) => RequeueExpired(s, provider, limit, step.at)
    case ClaimLocalAction(r, worker) => ClaimLocal(s, r, worker, step.at)
    case FinishLocalAction(r, outcome) => FinishLocal(s, r, outcome, step.at)
    case CancelAction(r) => CancelRun(s, r, step.at)
    case SyncLogAction(r, synced) => SyncLog(s, r, synced)
    case DropObjectsAction(doomed) => DropObjects(s, doomed)
    case AppendUsageAction(usage) => AppendUsageEntry(s, usage).0
  }

  /** The state after any interleaving of steps, from an empty database. */
  ghost function Exec(steps: seq<Step>): (s: State)
    ensures |s.runs| == |s.locals|
  {
    if steps == [] then INITIAL else Next(Exec(steps[..|steps| - 1]), steps[|steps| - 1])
  }
}
