/** What the remaining calls of the run services do to their run, and that they touch no other. */
module RunCalls {
  import opened Entities
  import opened Budgeting
  import opened BudgetCalls
  import opened Calendar
  import opened CloudRunner
  import opened RunInvariants
  import opened RunQueries
  import opened RunSteps
  import opened RunResults

  // ---- cancelling ----

  lemma ReleasingKeeps(s: State, r: RunId, now: Time)
    requires r < |s.runs| == |s.locals|
    ensures var t := ReleaseRun(s, r, now);
      && t.runs[r] == s.runs[r].(actualCost := t.runs[r].actualCost, costSummary := t.runs[r].costSummary)
      && t.locals == s.locals && t.artifacts == s.artifacts && t.objects == s.objects
      && t.processing == s.processing
      && (forall k :: 0 <= k < |s.runs| && k != r ==> t.runs[k] == s.runs[k])
  {
  }

  /** A queued run is cancelled on the spot and its reservation refunded; a running one is only
      asked to cancel, and the first time it was asked stays on record; a closed one, and one
      that does not exist, is left alone. */
  lemma CancelMeans(steps: seq<Step>, r: RunId, now: Time)
    ensures var s, t := Exec(steps), CancelRun(Exec(steps), r, now);
      if r >= |s.runs| then t == s
      else
        && OthersStay(s, t, r)
        && match s.runs[r].status
           case Queued =>
             && t.runs[r].status == t.locals[r].status == Cancelled && t.runs[r].cancelRequested
             && t.runs[r].cancelRequestedAt == t.runs[r].cancelledAt == t.runs[r].completedAt == Some(now)
             && (t.runs[r].callback.Some? ==> t.runs[r].callback.value.usedAt.Some?)
             && t.books.reservations[r].status == ReservationStatus.Released
             && Balance(t.books, s.runs[r].workspace) == Balance(s.books, s.runs[r].workspace) + 100
           case Running =>
             && t.runs[r].cancelRequested
             && t.runs[r].cancelRequestedAt ==
                  (if s.runs[r].cancelRequestedAt.Some? then s.runs[r].cancelRequestedAt else Some(now))
             && t == s.(runs := t.runs)
             && s.runs[r] == t.runs[r].(cancelRequested := s.runs[r].cancelRequested,
                                        cancelRequestedAt := s.runs[r].cancelRequestedAt)
           case _ => t == s
  {
    hide Exec;
    Reachable(steps);
    var s := Exec(steps);
    if r < |s.runs| {
      assert RunOk(s, r);
    }
  }

  // ---- claiming for a local worker ----

  /** A local worker takes a queued run, even one that was asked to cancel or has no attempts
      left, and without counting an attempt; anything else is left alone. */
  lemma LocalClaimMeans(s: State, r: RunId, worker: string, now: Time)
    requires |s.runs| == |s.locals|
    ensures var t := ClaimLocal(s, r, worker, now);
      if r >= |s.runs| || s.runs[r].status != Queued then t == s
      else
        && t == s.(runs := t.runs, locals := t.locals, processing := s.processing + {r})
        && |t.runs| == |s.runs| && |t.locals| == |s.locals|
        && (forall k :: 0 <= k < |s.runs| && k != r ==> t.runs[k] == s.runs[k] && t.locals[k] == s.locals[k])
        && t.runs[r].status == t.locals[r].status == Running
        && t.runs[r].worker == Some(worker) && t.runs[r].claimedAt == Some(now)
        && t.runs[r].attemptCount == s.runs[r].attemptCount
        && s.runs[r] == t.runs[r].(status := Queued, worker := s.runs[r].worker, claimedAt := s.runs[r].claimedAt)
  {
  }

  // ---- expiry ----

  /** The run waits in the queue again, with nothing left of its lease; its attempts and its
      first claim stay on record. */
  ghost predicate BackInQueue(s: State, t: State, r: RunId)
    requires r < |s.runs| == |s.locals|
  {
    && |t.runs| == |t.locals| == |s.runs|
    && t.runs[r].status == t.locals[r].status == Queued
    && t.runs[r].lease.None? && t.runs[r].worker.None?
    && t.runs[r].leaseExpiresAt.None? && t.runs[r].heartbeatAt.None?
    && s.runs[r] == t.runs[r].(status := s.runs[r].status, lease := s.runs[r].lease, worker := s.runs[r].worker,
                               leaseExpiresAt := s.runs[r].leaseExpiresAt, heartbeatAt := s.runs[r].heartbeatAt)
  }

  lemma ExpireMeans(s: State, r: RunId, now: Time)
    requires Inv(s) && |s.runs| == |s.locals| && r < |s.runs|
    requires s.runs[r].status.Running? && s.runs[r].lease.Some?
    ensures var t := ExpireRun(s, r, now);
      && OthersStay(s, t, r)
      && if s.runs[r].attemptCount < s.runs[r].maxAttempts then
           BackInQueue(s, t, r) && t.books == s.books
         else ShowsFailure(s, t, r, "lease_attempts_exhausted", now)
  {
    hide FailRun;
    assert RunOk(s, r);
    if s.runs[r].attemptCount >= s.runs[r].maxAttempts {
      FailMeans(s, s, r, "lease_attempts_exhausted", now);
    }
  }

  /** What a requeue makes of one run. */
  ghost predicate Requeued(s: State, t: State, r: RunId, now: Time)
    requires r < |s.runs| == |s.locals|
  {
    if s.runs[r].attemptCount < s.runs[r].maxAttempts then BackInQueue(s, t, r)
    else ShowsFailure(s, t, r, "lease_attempts_exhausted", now)
  }

  lemma RequeuedStays(s: State, mid: State, t: State, r: RunId, last: RunId, now: Time)
    requires r < |s.runs| == |s.locals| && Requeued(s, mid, r, now) && OthersStay(mid, t, last) && r != last
    ensures Requeued(s, t, r, now)
  {
  }

  lemma RequeuedLater(s: State, mid: State, t: State, r: RunId, now: Time)
    requires r < |s.runs| == |s.locals| == |mid.runs| == |mid.locals|
    requires mid.runs[r] == s.runs[r] && mid.locals[r] == s.locals[r]
    requires Requeued(mid, t, r, now)
    ensures Requeued(s, t, r, now)
  {
  }

  lemma {:induction false} BatchMeans(s: State, batch: seq<RunId>, provider: QueueProvider, now: Time)
    requires Inv(s) && |s.runs| == |s.locals| && ExpiredBatch(s, batch, provider, now)
    ensures var t := ExpireAll(s, batch, now);
      && OnlyBatch(s, t, batch)
      && forall i :: 0 <= i < |batch| ==> Requeued(s, t, batch[i], now)
    decreases |batch|
  {
    hide ExpireRun, Requeued;
    ExpireAllIsSound(s, batch, provider, now);
    if batch != [] {
      var init, last := batch[..|batch| - 1], batch[|batch| - 1];
      BatchMeans(s, init, provider, now);
      ExpireAllIsSound(s, init, provider, now);
      var mid, t := ExpireAll(s, init, now), ExpireAll(s, batch, now);
      assert last !in init && RunOk(s, last);
      ExpireMeans(mid, last, now);
      assert Requeued(mid, t, last, now) by {
        RequeuedByExpiry(mid, last, now);
      }
      RequeuedLater(s, mid, t, last, now);
      forall i | 0 <= i < |init| ensures Requeued(s, t, batch[i], now) {
        RequeuedStays(s, mid, t, init[i], last, now);
      }
    }
  }

  lemma RequeuedByExpiry(s: State, r: RunId, now: Time)
    requires Inv(s) && |s.runs| == |s.locals| && r < |s.runs|
    requires s.runs[r].status.Running? && s.runs[r].lease.Some?
    ensures Requeued(s, ExpireRun(s, r, now), r, now)
  {
    hide ExpireRun;
    ExpireMeans(s, r, now);
  }

  /** A requeue puts each overdue run that it takes back in the queue while it has attempts left,
      and otherwise fails and charges it; it touches no other run. */
  lemma RequeueMeans(steps: seq<Step>, provider: QueueProvider, limit: nat, r: RunId, now: Time)
    requires r < |Exec(steps).runs|
    ensures var s, t := Exec(steps), RequeueExpired(Exec(steps), provider, limit, now);
      && |t.runs| == |t.locals| == |s.runs| == |s.books.reservations| == |t.books.reservations|
      && if r !in ExpiredQuery(s.runs, provider, limit, now) then
           && t.runs[r] == s.runs[r] && t.locals[r] == s.locals[r]
           && t.books.reservations[r] == s.books.reservations[r]
         else if s.runs[r].attemptCount < s.runs[r].maxAttempts then BackInQueue(s, t, r)
         else ShowsFailure(s, t, r, "lease_attempts_exhausted", now)
  {
    hide Exec, ExpireAll, ExpiredQuery, BackInQueue, ShowsFailure;
    var s := Exec(steps);
    Reachable(steps);
    var batch := ExpiredQuery(s.runs, provider, limit, now);
    QueryIsBatch(s, provider, limit, now);
    BatchMeans(s, batch, provider, now);
    if r in batch {
      var i :| 0 <= i < |batch| && batch[i] == r;
      assert Requeued(s, ExpireAll(s, batch, now), batch[i], now);
    }
  }

  // ---- enqueueing ----

  /** A message is put in the queue for every run but those that both the queue and the runtime
      of the one cloud hand out. */
  predicate NeedsMessage(req: EnqueueRequest) {
    req.queueProvider == AliyunMns ==> req.runtimeProvider != Some(AliyunEci)
  }

  /** The four answers to an enqueue. */
  function EnqueueAnswer(s: State, req: EnqueueRequest, month: nat): EnqueueResult {
    if OverLimit(s.books, req.workspace, month) || Balance(s.books, req.workspace) < 100 then PaymentRequired
    else if NeedsMessage(req) && req.queue == QueueError then QueueFailed(|s.runs|)
    else if req.runtimeProvider.Some? && req.runtime == SubmissionError then RuntimeFailed(|s.runs|)
    else Created(|s.runs|)
  }

  /** A run that has just been enqueued: never leased, with three attempts and its hundred cents. */
  ghost predicate Fresh(s: State, t: State, req: EnqueueRequest, now: Time) {
    var r := |s.runs|;
    && |s.runs| == |s.locals| == |s.books.reservations|
    && |t.runs| == |t.locals| == |t.books.reservations| == r + 1
    && s.runs <= t.runs && s.locals <= t.locals && s.books.reservations <= t.books.reservations
    && t.artifacts == s.artifacts && t.processing == s.processing
    && t.runs[r].attemptCount == 0 && t.runs[r].maxAttempts == 3 && !t.runs[r].cancelRequested
    && t.runs[r].claimedAt.None? && t.runs[r].lease.None? && t.runs[r].patchArtifact.None?
    && t.books.reservations[r].workspace == req.workspace && t.books.reservations[r].reserved == 100
    && t.books.reservations[r].run == Some(r) && t.books.reservations[r].createdAt == now
  }

  /** The new run as the answer says: queued and submitted, or failed. */
  ghost predicate ShowsEnqueue(s: State, t: State, req: EnqueueRequest, answer: EnqueueResult, now: Time)
    requires Fresh(s, t, req, now)
  {
    var r := |s.runs|;
    var run, local := t.runs[r], t.locals[r];
    && run.queueMessage ==
         (if NeedsMessage(req) && req.queue.Sent? then req.queue.message else None)
    && (if answer.Created? && req.runtimeProvider.Some? then
          && req.runtime.Submitted?
          && run.manifestUri == req.runtime.manifestUri && run.manifestBytes == req.runtime.manifestBytes
          && run.logUri == req.runtime.logUri && run.logBytes == req.runtime.logBytes
          && t.objects == s.objects + StoredParts(r, req.runtime.stored)
        else run.manifestUri.None? && run.logUri.None? && t.objects == s.objects)
    && match answer
       case Created(_) =>
         && run.status == local.status == Queued && run.failureReason.None? && run.completedAt.None?
         && t.books.reservations[r].status == ReservationStatus.Reserved
       case QueueFailed(_) =>
         && run.status == local.status == Failed && run.completedAt == Some(now)
         && run.failureReason == local.failureReason == Some("queue_enqueue_failed")
         && t.books.reservations[r].status == ReservationStatus.Released
       case _ =>
         && run.status == local.status == Failed && run.completedAt == Some(now)
         && run.failureReason == local.failureReason == Some("runtime_submission_failed")
         && t.books.reservations[r].status == ReservationStatus.Settled
  }

  /** A run that waits for its dispatch. */
  ghost predicate Undispatched(s: State, q: State, req: EnqueueRequest, now: Time) {
    && Fresh(s, q, req, now) && q.objects == s.objects
    && var run := q.runs[|s.runs|];
      && run.status == q.locals[|s.runs|].status == Queued && run.failureReason.None? && run.completedAt.None?
      && run.manifestUri.None? && run.logUri.None? && run.reservation == Some(|s.runs|)
      && q.books.reservations[|s.runs|].status == ReservationStatus.Reserved
  }

  lemma MessageFails(s: State, q: State, req: EnqueueRequest, now: Time)
    requires Undispatched(s, q, req, now) && q.runs[|s.runs|].queueMessage.None?
    requires NeedsMessage(req) && req.queue == QueueError
    ensures var (t, answer) := Dispatched(q, |s.runs|, req, now);
      answer == QueueFailed(|s.runs|) && Fresh(s, t, req, now) && ShowsEnqueue(s, t, req, answer, now)
  {
  }

  lemma SubmissionFails(s: State, q: State, req: EnqueueRequest, now: Time)
    requires Undispatched(s, q, req, now)
    requires q.runs[|s.runs|].queueMessage == if NeedsMessage(req) && req.queue.Sent? then req.queue.message else None
    ensures var t := FailRun(q, |s.runs|, "runtime_submission_failed", now);
      Fresh(s, t, req, now) && ShowsEnqueue(s, t, req, RuntimeFailed(|s.runs|), now)
  {
    hide Measurements, AppendAllUsage, NeedsMessage;
  }

  lemma RunIsCreated(s: State, q: State, req: EnqueueRequest, now: Time)
    requires Undispatched(s, q, req, now)
    requires q.runs[|s.runs|].queueMessage == if NeedsMessage(req) && req.queue.Sent? then req.queue.message else None
    requires req.runtimeProvider.Some? ==> req.runtime.Submitted?
    ensures var t := if req.runtimeProvider.Some? then WithRuntime(q, |s.runs|, req.runtime) else q;
      Fresh(s, t, req, now) && ShowsEnqueue(s, t, req, Created(|s.runs|), now)
  {
    hide NeedsMessage, StoredParts;
  }

  lemma DispatchMeans(s: State, q: State, req: EnqueueRequest, now: Time)
    requires Undispatched(s, q, req, now) && q.runs[|s.runs|].queueMessage.None?
    ensures var (t, answer) := Dispatched(q, |s.runs|, req, now);
      && answer == (if NeedsMessage(req) && req.queue == QueueError then QueueFailed(|s.runs|)
                    else if req.runtimeProvider.Some? && req.runtime == SubmissionError then RuntimeFailed(|s.runs|)
                    else Created(|s.runs|))
      && Fresh(s, t, req, now) && ShowsEnqueue(s, t, req, answer, now)
  {
    hide FailRun, WithRuntime, ReleaseRun, ShowsEnqueue;
    var r := |s.runs|;
    if NeedsMessage(req) && req.queue == QueueError {
      MessageFails(s, q, req, now);
    } else {
      var sent := if NeedsMessage(req) then WithMessage(q, r, req.queue.message) else q;
      assert NeedsMessage(req) == SendsMessage(req);
      if req.runtimeProvider.Some? && req.runtime == SubmissionError {
        SubmissionFails(s, sent, req, now);
      } else {
        RunIsCreated(s, sent, req, now);
      }
    }
  }

  /** An enqueue is refused exactly when a limit or the wallet does not cover its hundred cents,
      and then changes nothing. Otherwise there is one new run: failed and refunded exactly when
      its message was not taken, failed and charged exactly when its submission was not, and
      queued otherwise. */
  lemma EnqueueMeans(steps: seq<Step>, req: EnqueueRequest, now: Time, month: nat)
    requires MonthStart(month) <= now < MonthStart(month + 1)
    ensures var s := Exec(steps);
      var (t, answer) := Enqueue(s, req, now);
      && answer == EnqueueAnswer(s, req, month)
      && (answer.PaymentRequired? ==> t == s)
      && (!answer.PaymentRequired? ==> Fresh(s, t, req, now) && ShowsEnqueue(s, t, req, answer, now))
  {
    hide Exec, Dispatched, Reserve, OverLimit, ShowsEnqueue;
    Reachable(steps);
    var s := Exec(steps);
    ReserveAnswers(s.books, req.workspace, now, month);
    var (books, result) := Reserve(s.books, req.workspace, now);
    if result.ReservedAs? {
      DispatchMeans(s, WithNewRun(s, req, result.id, books, now), req, now);
    }
  }

  // ---- logs, stored objects and usage ----

  /** A log synchronisation with new content adds one stored object of its run, in whatever status,
      and makes the row refer to it; without, or for a run of no remote runtime, nothing changes. */
  lemma SyncMeans(s: State, r: RunId, synced: Option<(string, nat)>)
    ensures var t := SyncLog(s, r, synced);
      if r >= |s.runs| || s.runs[r].runtimeProvider.None? || synced.None? then t == s
      else
        && t == s.(runs := t.runs, objects := t.objects)
        && |t.runs| == |s.runs| && (forall k :: 0 <= k < |s.runs| && k != r ==> t.runs[k] == s.runs[k])
        && SameButLog(s.runs[r], t.runs[r])
        && t.runs[r].logUri == Some(synced.value.0) && t.runs[r].logBytes == Some(synced.value.1)
        && t.objects == s.objects + [StoredObject(r, synced.value.0, synced.value.1)]
  {
  }

  lemma {:induction false} SurvivingMeans(objects: seq<StoredObject>, doomed: set<nat>, o: StoredObject)
    ensures o in Surviving(objects, doomed) <==> exists k :: 0 <= k < |objects| && k !in doomed && objects[k] == o
    ensures (forall k :: 0 <= k < |objects| ==> k !in doomed) ==> Surviving(objects, doomed) == objects
    decreases |objects|
  {
    if objects != [] {
      SurvivingMeans(objects[..|objects| - 1], doomed, o);
    }
  }

  /** A cleanup of stored objects takes away the rows at the given positions and no other, and
      changes nothing else. */
  lemma DropMeans(s: State, doomed: set<nat>, o: StoredObject)
    ensures var t := DropObjects(s, doomed);
      && t == s.(objects := t.objects)
      && (o in t.objects <==> exists k :: 0 <= k < |s.objects| && k !in doomed && s.objects[k] == o)
      && ((forall k :: 0 <= k < |s.objects| ==> k !in doomed) ==> t == s)
  {
    SurvivingMeans(s.objects, doomed, o);
  }

  /** The types of usage that callers report for a run. */
  predicate ReportedByCallers(t: UsageType) {
    t in {UsageType.ModelTokens, UsageType.ObjectStorageReads, UsageType.PrPublishAttempts}
  }

  /** Who may append a usage row: nobody for a run of another workspace, or of another task or
      project than the one named; for a run, no type that its settlement writes, and none that
      it already has. A row that is appended carries the figures of the request, and what it
      leaves open is taken from its run; a row that is not changes nothing. */
  lemma AppendMeans(s: State, req: UsageRequest)
    ensures var (t, reply) := AppendUsageEntry(s, req);
      && (reply == RunNotFound <==>
            req.run.Some? && (req.run.value >= |s.runs| || s.runs[req.run.value].workspace != req.workspace))
      && (!reply.Appended? ==> t == s)
      && (reply == Appended && req.run.Some? ==>
            && req.run.value < |s.runs|
            && (req.task.None? || req.task == Some(s.runs[req.run.value].task))
            && (req.project.None? || req.project == Some(s.runs[req.run.value].project))
            && ReportedByCallers(req.usageType)
            && (forall e <- s.books.ledger :: e.run == req.run ==> e.usageType != req.usageType))
      && (req.run.None? ==> reply == Appended)
      && (reply == Appended ==>
            && t == s.(books := s.books.(ledger := t.books.ledger))
            && |t.books.ledger| == |s.books.ledger| + 1 && s.books.ledger <= t.books.ledger
            && var e := t.books.ledger[|s.books.ledger|];
              && e.workspace == req.workspace && e.run == req.run && e.usageType == req.usageType
              && (e.quantity, e.unitPrice, e.amount) == (req.quantity, req.unitPrice, req.amount)
              && (req.run.Some? ==> e.project == Some(s.runs[req.run.value].project)
                                    && e.task == Some(s.runs[req.run.value].task)))
      && (reply == SettlementOwnsType ==> req.run.Some? && !ReportedByCallers(req.usageType))
      && (reply == DuplicateUsage ==> req.run.Some? && HasEntry(s.books.ledger, req.run.value, req.usageType))
  {
  }
}
