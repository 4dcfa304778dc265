/** What a run is charged, over whole histories. */
module RunPrices {
  import opened Entities
  import opened Budgeting
  import opened SettlementLaws
  import opened CloudRunner
  import opened RunInvariants
  import opened RunQueries
  import opened RunSteps
  import opened RunResults
  import opened LeaseFencing

  /** The cents of a run: 25 for its submission, one for each second it ran, one for its queue
      message, and at most one for its log, which only runs of a remote runtime pay. */
  predicate CostsOf(run: CloudRun, cents: int) {
    var beyond := cents - 25 - (if run.queueMessage.Some? then 1 else 0);
    RanFor(run, beyond) || (run.runtimeProvider.Some? && RanFor(run, beyond - 1))
  }

  /** The cost a row shows: none while it is open, nothing once it is released, and otherwise what
      the run costs, of which it pays up to the hundred cents that were reserved. */
  predicate PriceOk(run: CloudRun) {
    && run.costSummary.logSyncCalls.None?
    && (run.costSummary.status == Pending <==> !Terminal(run.status))
    && (run.costSummary.status == CostReleased ==> run.costSummary.measured == run.actualCost == 0)
    && (run.costSummary.status == CostSettled ==>
          && CostsOf(run, run.costSummary.measured)
          && run.actualCost == Min(run.costSummary.measured, 100))
  }

  ghost predicate Priced(s: State) {
    forall r :: 0 <= r < |s.runs| ==> PriceOk(s.runs[r])
  }

  lemma SettledIsPriced(s: State, row: State, r: RunId, now: Time)
    requires Closing(s, row, r) && row.runs[r].costSummary.logSyncCalls.None?
    ensures PriceOk(SettleRun(row, r, now).runs[r])
  {
    hide Measurements, TotalAmount, AppendAllUsage;
    assert RunOk(s, r);
    var run := row.runs[r];
    var seconds, calls := RuntimeSeconds(run), LogSyncCallCount(run);
    RuntimeIsMeasured(run, seconds, calls);
    CostIsTheSum(run, StorageBytes(r, run, row.objects), seconds, calls);
    assert TotalAmount(Measurements(r, run, row.objects))
        == 25 + seconds + (if run.queueMessage.Some? then 1 else 0) + calls by {
      MeasurementsAreOf(r, run, row.objects);
    }
  }

  lemma MeasurementsAreOf(id: RunId, run: CloudRun, objects: seq<StoredObject>)
    ensures Measurements(id, run, objects) == MeasurementsOf(run, StorageBytes(id, run, objects))
  {
  }

  lemma ReleasedIsPriced(s: State, row: State, r: RunId, now: Time)
    requires Closing(s, row, r)
    ensures PriceOk(ReleaseRun(row, r, now).runs[r])
  {
    assert RunOk(s, r);
  }

  /** Only the one row has changed. */
  ghost predicate OnlyRow(s: State, t: State, r: RunId) {
    |t.runs| == |s.runs| && forall k :: 0 <= k < |s.runs| && k != r ==> t.runs[k] == s.runs[k]
  }

  lemma FailureIsPriced(s: State, t: State, r: RunId, reason: string, now: Time)
    requires Failing(s, t, r) && Priced(s)
    ensures Priced(FailRun(t, r, reason, now))
  {
    hide Closing, SettleRun, PriceOk;
    FailedIsClosing(s, t, r, reason, now);
    var row := Put(t, r, FailedRow(t.runs[r], reason, now), FailedLocal(t.locals[r], reason));
    PendingHasNoCount(s, r);
    SettledIsPriced(s, row, r, now);
    SettlingKeeps(row, r, now);
  }

  lemma PendingHasNoCount(s: State, r: RunId)
    requires Priced(s) && r < |s.runs|
    ensures s.runs[r].costSummary.logSyncCalls.None?
  {
  }

  lemma FinalizeIsPriced(s: State, t: State, r: RunId, result: ExecutionResult, taskAllows: bool, now: Time)
    requires Accepting(s, t, r) && Priced(s)
    ensures var (after, how) := Finalize(t, r, result, taskAllows, now);
      how.Closed? ==> Priced(after)
  {
    hide Closing, SettleRun, PriceOk;
    PendingHasNoCount(s, r);
    if t.runs[r].cancelRequested {
      CancelledIsClosing(s, t, r, now);
      var row := Put(t, r, CancelledRow(t.runs[r], now), LocalRun(Cancelled, None, None));
      SettledIsPriced(s, row, r, now);
      SettlingKeeps(row, r, now);
    } else {
      FinishedIsClosing(s, t, r, result, now);
      var row := Finished(t, r, result, now);
      SettledIsPriced(s, row, r, now);
      SettlingKeeps(row, r, now);
    }
  }

  /** Rows that are still open, and show no cost. */
  lemma OpenRowsStayPriced(s: State, t: State, r: RunId)
    requires Inv(s) && Priced(s) && r < |s.runs| && OnlyRow(s, t, r)
    requires !Terminal(s.runs[r].status) && !Terminal(t.runs[r].status)
    requires t.runs[r].costSummary == s.runs[r].costSummary
    ensures Priced(t)
  {
  }

  lemma CompleteIsPriced(
      s: State, lease: LeaseId, cred: Credential, result: ExecutionResult, taskAllows: bool, now: Time)
    requires Inv(s) && |s.runs| == |s.locals| && Priced(s)
    ensures Priced(CompleteLease(s, lease, cred, result, taskAllows, now).0)
  {
    hide Finalize, Resolve, PriceOk;
    var found := Resolve(s.runs, lease, cred, now);
    if found.Current? {
      ResolvedIsCurrent(s, lease, cred, now);
      var r := found.run;
      assert RunOk(s, r);
      var accepted := s.(runs := s.runs[r := s.runs[r].(callback := UseToken(s.runs[r].callback, now))]);
      FinalizeIsPriced(s, accepted, r, result, taskAllows, now);
      FinalizeIsSound(s, accepted, r, result, taskAllows, now);
      OpenRowsStayPriced(s, accepted, r);
    }
  }

  lemma FinishLocalIsPriced(s: State, r: RunId, outcome: LocalOutcome, now: Time)
    requires Inv(s) && |s.runs| == |s.locals| && Priced(s)
    ensures Priced(FinishLocal(s, r, outcome, now))
  {
    hide Finalize, FailRun, PriceOk;
    if r in s.processing {
      assert RunOk(s, r);
      var left := s.(processing := s.processing - {r});
      match outcome
      case Preflight => FailureIsPriced(s, left, r, "cloud_run_preflight_failed", now);
      case Ran(result, taskAllows) =>
        FinalizeIsPriced(s, left, r, result, taskAllows, now);
        FinalizeIsSound(s, left, r, result, taskAllows, now);
        var (closed, how) := Finalize(left, r, result, taskAllows, now);
        if how.TransitionRejected? {
          FailureIsPriced(s, closed, r, "cloud_run_preflight_failed", now);
        }
    }
  }

  lemma ExpiryIsPriced(s: State, r: RunId, now: Time)
    requires Inv(s) && |s.runs| == |s.locals| && Priced(s) && r < |s.runs|
    requires s.runs[r].status.Running? && s.runs[r].lease.Some?
    ensures Priced(ExpireRun(s, r, now))
  {
    hide FailRun, PriceOk;
    assert RunOk(s, r);
    if s.runs[r].attemptCount >= s.runs[r].maxAttempts {
      FailureIsPriced(s, s, r, "lease_attempts_exhausted", now);
    } else {
      OpenRowsStayPriced(s, ExpireRun(s, r, now), r);
    }
  }

  lemma {:induction false} BatchIsPriced(s: State, batch: seq<RunId>, provider: QueueProvider, now: Time)
    requires Inv(s) && |s.runs| == |s.locals| && Priced(s) && ExpiredBatch(s, batch, provider, now)
    ensures Priced(ExpireAll(s, batch, now))
    decreases |batch|
  {
    hide ExpireRun, PriceOk;
    if batch != [] {
      var init, last := batch[..|batch| - 1], batch[|batch| - 1];
      BatchIsPriced(s, init, provider, now);
      ExpireAllIsSound(s, init, provider, now);
      assert last !in init && RunOk(s, last);
      ExpiryIsPriced(ExpireAll(s, init, now), last, now);
    }
  }

  lemma CancelIsPriced(s: State, r: RunId, now: Time)
    requires Inv(s) && |s.runs| == |s.locals| && Priced(s)
    ensures Priced(CancelRun(s, r, now))
  {
    hide PriceOk;
    if r < |s.runs| {
      assert RunOk(s, r);
      if s.runs[r].status.Queued? {
        var row := Put(s, r, QueuedCancelRow(s.runs[r], now), s.locals[r].(status := Cancelled));
        assert Closing(s, row, r);
        ReleasedIsPriced(s, row, r, now) by {
          PendingHasNoCount(s, r);
        }
      } else if s.runs[r].status.Running? {
        OpenRowsStayPriced(s, CancelRun(s, r, now), r);
      }
    }
  }

  lemma ClaimIsPriced(
      s: State, target: Option<RunId>, provider: QueueProvider, cred: Credential, seconds: nat, now: Time)
    requires Inv(s) && |s.runs| == |s.locals| && Priced(s)
    ensures Priced(ClaimLease(s, target, provider, cred, seconds, now).0)
  {
    hide Candidate, TokenRefusal, PriceOk, IssueLease;
    var (t, result) := ClaimLease(s, target, provider, cred, seconds, now);
    if result.Leased? {
      IssueIsPriced(s, Candidate(s.runs, target, provider).value, cred.worker, seconds, now);
    }
  }

  lemma IssueIsPriced(s: State, r: RunId, worker: string, seconds: nat, now: Time)
    requires Inv(s) && |s.runs| == |s.locals| && Priced(s) && r < |s.runs| && s.runs[r].status.Queued?
    ensures Priced(IssueLease(s, r, worker, seconds, now))
  {
    hide PriceOk;
    OpenRowsStayPriced(s, IssueLease(s, r, worker, seconds, now), r);
  }

  lemma ClaimLocalIsPriced(s: State, r: RunId, worker: string, now: Time)
    requires Inv(s) && |s.runs| == |s.locals| && Priced(s)
    ensures Priced(ClaimLocal(s, r, worker, now))
  {
    hide PriceOk;
    if r < |s.runs| && s.runs[r].status.Queued? {
      OpenRowsStayPriced(s, ClaimLocal(s, r, worker, now), r);
    }
  }

  lemma HeartbeatIsPriced(s: State, lease: LeaseId, cred: Credential, seconds: nat, now: Time)
    requires Inv(s) && Priced(s)
    ensures Priced(HeartbeatLease(s, lease, cred, seconds, now).0)
  {
    hide Resolve, PriceOk;
    var (t, found) := HeartbeatLease(s, lease, cred, seconds, now);
    if found.Current? {
      ResolvedIsCurrent(s, lease, cred, now);
      OpenRowsStayPriced(s, t, found.run);
    }
  }

  /** Where a log is kept does not change what its run costs. */
  lemma SyncIsPriced(s: State, r: RunId, synced: Option<(string, nat)>)
    requires Priced(s)
    ensures Priced(SyncLog(s, r, synced))
  {
  }

  lemma DispatchIsPriced(s: State, u: State, req: EnqueueRequest, now: Time)
    requires Enqueued(s, u) && |u.runs| == |u.locals| && Priced(u)
    ensures Priced(Dispatched(u, |s.runs|, req, now).0)
  {
    hide PriceOk, SettleRun, ReleaseRun, StoredParts;
    var r := |s.runs|;
    assert RunOk(u, r);
    PendingHasNoCount(u, r);
    if SendsMessage(req) && req.queue.QueueError? {
      var failed := Put(u, r, FailedRow(u.runs[r], "queue_enqueue_failed", now),
                        FailedLocal(u.locals[r], "queue_enqueue_failed"));
      assert Closing(u, failed, r);
      ReleasedIsPriced(u, failed, r, now);
      OnlyReleased(failed, r, now);
    } else {
      var sent := if SendsMessage(req) then WithMessage(u, r, req.queue.message) else u;
      OpenRowsStayPriced(u, sent, r);
      if req.runtimeProvider.Some? && req.runtime.SubmissionError? {
        var failed := Put(sent, r, FailedRow(sent.runs[r], "runtime_submission_failed", now),
                          FailedLocal(sent.locals[r], "runtime_submission_failed"));
        assert Closing(u, failed, r);
        SettledIsPriced(u, failed, r, now);
        SettlingKeeps(failed, r, now);
      } else if req.runtimeProvider.Some? {
        OpenRowsStayPriced(u, WithRuntime(sent, r, req.runtime), r);
      }
    }
  }

  lemma OnlyReleased(s: State, r: RunId, now: Time)
    requires r < |s.runs| == |s.locals|
    ensures OnlyRow(s, ReleaseRun(s, r, now), r)
  {
  }

  lemma EnqueueIsPriced(s: State, req: EnqueueRequest, now: Time)
    requires Inv(s) && |s.runs| == |s.locals| && Priced(s)
    ensures Priced(Enqueue(s, req, now).0)
  {
    hide Dispatched, Reserve;
    var (books, result) := Reserve(s.books, req.workspace, now);
    if result.ReservedAs? {
      NewRunIsSound(s, req, now);
      DispatchIsPriced(s, WithNewRun(s, req, result.id, books, now), req, now);
    }
  }

  lemma NextIsPriced(s: State, step: Step)
    requires Inv(s) && |s.runs| == |s.locals| && Priced(s)
    ensures Priced(Next(s, step))
  {
    hide Inv, PriceOk, Enqueue, ClaimLease, HeartbeatLease, CompleteLease, ExpireAll, ExpiredQuery;
    hide ClaimLocal, FinishLocal, CancelRun, SyncLog, Resolve;
    match step.action
    case EnqueueAction(req) => EnqueueIsPriced(s, req, step.at);
    case ClaimLeaseAction(target, provider, cred, seconds) =>
      ClaimIsPriced(s, target, provider, cred, seconds, step.at);
    case HeartbeatAction(lease, cred, seconds) => HeartbeatIsPriced(s, lease, cred, seconds, step.at);
    case CompleteAction(lease, cred, result, taskAllows) =>
      CompleteIsPriced(s, lease, cred, result, taskAllows, step.at);
    case RequeueAction(provider, limit) =>
      QueryIsBatch(s, provider, limit, step.at);
      BatchIsPriced(s, ExpiredQuery(s.runs, provider, limit, step.at), provider, step.at);
    case ClaimLocalAction(r, worker) => ClaimLocalIsPriced(s, r, worker, step.at);
    case FinishLocalAction(r, outcome) => FinishLocalIsPriced(s, r, outcome, step.at);
    case CancelAction(r) => CancelIsPriced(s, r, step.at);
    case SyncLogAction(r, synced) => SyncIsPriced(s, r, synced);
    case _ =>
  }

  /** The price of a run. In every reachable state a run that was charged shows as measured 25
      cents, one for every second from its claim to its completion (one for the first two
      seconds together, none if it never started), one if it has a queue message, and at most
      one more for its log; it paid that, but no more than a hundred cents. A run that was
      released paid nothing, and an open one nothing yet. */
  lemma RunsCostWhatTheyRan(steps: seq<Step>, r: RunId)
    requires r < |Exec(steps).runs|
    ensures PriceOk(Exec(steps).runs[r])
    ensures var s := Exec(steps);
      |s.books.reservations| == |s.runs| && (s.books.reservations[r].status.Settled? ==>
        CostsOf(s.runs[r], s.runs[r].costSummary.measured)
        && s.runs[r].actualCost == Min(s.runs[r].costSummary.measured, 100))
  {
    hide Exec, CostsOf;
    PricesHold(steps);
    Reachable(steps);
    assert RunOk(Exec(steps), r);
  }

  lemma {:induction false} PricesHold(steps: seq<Step>)
    ensures Priced(Exec(steps))
    decreases |steps|
  {
    hide Next, PriceOk;
    if steps != [] {
      PricesHold(steps[..|steps| - 1]);
      Reachable(steps[..|steps| - 1]);
      NextIsPriced(Exec(steps[..|steps| - 1]), steps[|steps| - 1]);
    }
  }
}
