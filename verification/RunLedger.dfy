/** The usage ledger over whole histories: what each run's rows add up to. */
module RunLedger {
  import opened Entities
  import opened Rows
  import opened Budgeting
  import opened SettlementLaws
  import opened BudgetLaws
  import opened CloudRunner
  import opened RunInvariants
  import opened RunQueries
  import opened RunSteps

  /** The rows of a run that are the settlement's to write. */
  function OwnedBy(r: RunId): UsageEntry -> bool {
    (e: UsageEntry) => e.run == Some(r) && SettlementOwned(e.usageType)
  }

  /** What the settlement's rows charge a run. */
  function Billed(ledger: seq<UsageEntry>, r: RunId): int {
    SumOf(Filter(ledger, OwnedBy(r)), AmountBilled())
  }

  /** A run has such rows exactly when it was settled, and then they add up to the measured
      cost on its row, which is charged up to the reservation. */
  ghost predicate RunBilled(ledger: seq<UsageEntry>, r: RunId, run: CloudRun, reservation: Reservation) {
    if reservation.status.Settled? then
      && HasEntry(ledger, r, UsageType.WorkerSubmissions)
      && Billed(ledger, r) == run.costSummary.measured
      && run.actualCost == Min(run.costSummary.measured, reservation.reserved)
    else NoOwnedEntries(ledger, r)
  }

  ghost predicate LedgerOk(s: State) {
    && |s.runs| == |s.books.reservations|
    && UniqueUsage(s.books.ledger)
    && (forall e <- s.books.ledger :: e.run.Some? ==> e.run.value < |s.runs|)
    && (forall r :: 0 <= r < |s.runs| ==> RunBilled(s.books.ledger, r, s.runs[r], s.books.reservations[r]))
  }

  lemma EntriesAreOwned(id: RunId, run: CloudRun, ms: seq<Measurement>, r: RunId)
    requires OwnedTypes(ms)
    ensures Filter(EntriesOf(id, run, ms), OwnedBy(r)) == if r == id then EntriesOf(id, run, ms) else []
  {
    var entries := EntriesOf(id, run, ms);
    assert forall k :: 0 <= k < |entries| ==> ms[k] in ms && entries[k].usageType == ms[k].usageType;
    if r == id {
      FilterAll(entries, OwnedBy(r));
    } else {
      FilterNone(entries, OwnedBy(r));
    }
  }

  /** A first settlement bills its run and no other. */
  lemma SettlementBills(books: Books, id: RunId, run: CloudRun, objects: seq<StoredObject>, now: Time, r: RunId)
    requires ActiveReservation(books, run).Some? && NoOwnedEntries(books.ledger, id)
    ensures var (after, run') := Settle(books, id, run, objects, now);
      && (r == id ==> Billed(after.ledger, r) == run'.costSummary.measured)
      && (r != id ==> Billed(after.ledger, r) == Billed(books.ledger, r))
      && (r != id && NoOwnedEntries(books.ledger, r) ==> NoOwnedEntries(after.ledger, r))
  {
    hide Settle, AmountBilled, Measurements;
    SettlementWritesOnce(books, id, run, objects, now);
    var ms := Measurements(id, run, objects);
    MeasuredTypesAreOwned(id, run, objects);
    var entries := EntriesOf(id, run, ms);
    FilterConcat(books.ledger, entries, OwnedBy(r));
    EntriesAreOwned(id, run, ms, r);
    if r == id {
      FilterNone(books.ledger, OwnedBy(r));
      assert [] + entries == entries;
    } else {
      assert Filter(books.ledger, OwnedBy(r)) + [] == Filter(books.ledger, OwnedBy(r));
    }
  }

  lemma MeasuredTypesAreOwned(id: RunId, run: CloudRun, objects: seq<StoredObject>)
    ensures OwnedTypes(Measurements(id, run, objects))
    ensures exists m <- Measurements(id, run, objects) :: m.usageType.WorkerSubmissions?
  {
    hide StorageBytes;
    MeasurementsAreOwned(run, StorageBytes(id, run, objects));
    assert Measurements(id, run, objects)[0] in Measurements(id, run, objects);
  }

  lemma ClosingSettles(s: State, row: State, r: RunId, now: Time)
    requires Closing(s, row, r) && Chargeable(row.runs[r]) && LedgerOk(s) && row.books.ledger == s.books.ledger
    ensures LedgerOk(SettleRun(row, r, now))
  {
    hide Measurements, AppendAllUsage, UniqueUsage, RunOk, RowsOk, Billed;
    var t := SettleRun(row, r, now);
    var objects := row.objects;
    SettleRunKeeps(s, row, r, now);
    assert RunBilled(s.books.ledger, r, s.runs[r], s.books.reservations[r]);
    SettlementWritesOnce(row.books, r, row.runs[r], objects, now);
    UsageStaysUnique(row.books.ledger, r, row.runs[r], Measurements(r, row.runs[r], objects));
    MeasuredTypesAreOwned(r, row.runs[r], objects);
    forall k | 0 <= k < |t.runs| ensures RunBilled(t.books.ledger, k, t.runs[k], t.books.reservations[k]) {
      SettlementBills(row.books, r, row.runs[r], objects, now, k);
      if k != r {
        assert RunBilled(s.books.ledger, k, s.runs[k], s.books.reservations[k]);
        EntriesRemain(s.books.ledger, t.books.ledger, k);
      }
    }
  }

  lemma EntriesRemain(a: seq<UsageEntry>, b: seq<UsageEntry>, r: RunId)
    requires a <= b
    ensures HasEntry(a, r, UsageType.WorkerSubmissions) ==> HasEntry(b, r, UsageType.WorkerSubmissions)
  {
    if HasEntry(a, r, UsageType.WorkerSubmissions) {
      var k :| 0 <= k < |a| && a[k].run == Some(r) && a[k].usageType == UsageType.WorkerSubmissions;
      assert b[k] == a[k];
    }
  }

  // ---- rows that callers append ----

  lemma AppendedIsNotBilled(ledger: seq<UsageEntry>, e: UsageEntry, r: RunId)
    requires Appendable(ledger, e)
    ensures Billed(ledger + [e], r) == Billed(ledger, r)
    ensures NoOwnedEntries(ledger, r) ==> NoOwnedEntries(ledger + [e], r)
  {
    FilterOneMore(ledger, e, OwnedBy(r));
    assert Filter(ledger, OwnedBy(r)) + [] == Filter(ledger, OwnedBy(r));
  }

  lemma AppendedIsUnique(ledger: seq<UsageEntry>, e: UsageEntry)
    requires UniqueUsage(ledger) && Appendable(ledger, e)
    ensures UniqueUsage(ledger + [e])
  {
    var more := ledger + [e];
    forall i, j | 0 <= i < j < |more| && more[i].run.Some? && more[i].run == more[j].run
      ensures more[i].usageType != more[j].usageType
    {
      assert more[i] == ledger[i];
      assert j < |ledger| ==> more[j] == ledger[j];
    }
  }

  /** The refusal of the settlement's types is what this rests on: whatever callers append, no
      run's bill changes, and no later settlement drops a measurement. */
  lemma AppendKeepsLedger(s: State, usage: UsageRequest)
    requires LedgerOk(s)
    ensures LedgerOk(AppendUsageEntry(s, usage).0)
  {
    hide UniqueUsage, Billed;
    var t := AppendUsageEntry(s, usage).0;
    if t != s {
      var ledger, e := s.books.ledger, EntryFor(s.runs, usage);
      assert Appendable(ledger, e) && t.books.ledger == ledger + [e];
      AppendedIsUnique(ledger, e);
      forall r | 0 <= r < |t.runs| ensures RunBilled(t.books.ledger, r, t.runs[r], t.books.reservations[r]) {
        assert RunBilled(ledger, r, s.runs[r], s.books.reservations[r]);
        AppendedIsNotBilled(ledger, e, r);
        EntriesRemain(ledger, t.books.ledger, r);
      }
    }
  }

  /** Steps that write no ledger row and settle nothing. */
  ghost predicate LedgerQuiet(s: State, t: State) {
    && t.books.ledger == s.books.ledger
    && |s.runs| <= |t.runs| == |t.books.reservations|
    && (forall r :: 0 <= r < |t.runs| && t.books.reservations[r].status.Settled? ==>
          r < |s.runs| == |s.books.reservations| && s.books.reservations[r].status.Settled?)
  }

  lemma QuietKeepsLedger(s: State, t: State)
    requires Inv(s) && LedgerOk(s) && Sound(s, t) && LedgerQuiet(s, t)
    ensures LedgerOk(t)
  {
    hide UniqueUsage, Billed;
    forall r | 0 <= r < |t.runs| ensures RunBilled(t.books.ledger, r, t.runs[r], t.books.reservations[r]) {
      if r < |s.runs| {
        assert RunBilled(s.books.ledger, r, s.runs[r], s.books.reservations[r]);
        assert RunOk(s, r) && Moves(s, t, r);
      }
    }
  }

  lemma FailingKeepsLedger(s: State, t: State, r: RunId, reason: string, now: Time)
    requires Failing(s, t, r) && LedgerOk(s) && t.books.ledger == s.books.ledger
    ensures LedgerOk(FailRun(t, r, reason, now))
  {
    hide LedgerOk, Closing;
    FailedIsClosing(s, t, r, reason, now);
    ClosingSettles(s, Put(t, r, FailedRow(t.runs[r], reason, now), FailedLocal(t.locals[r], reason)), r, now);
  }

  lemma FinalizeKeepsLedger(s: State, t: State, r: RunId, result: ExecutionResult, taskAllows: bool, now: Time)
    requires Accepting(s, t, r) && LedgerOk(s)
    ensures var (after, how) := Finalize(t, r, result, taskAllows, now);
      && (how.Closed? ==> LedgerOk(after))
      && (how.TransitionRejected? ==> after.books == s.books)
  {
    hide LedgerOk, Closing, SettleRun, Sound;
    FinalizeIsSound(s, t, r, result, taskAllows, now);
    if t.runs[r].cancelRequested {
      CancelledIsClosing(s, t, r, now);
      ClosingSettles(s, Put(t, r, CancelledRow(t.runs[r], now), LocalRun(Cancelled, None, None)), r, now);
    } else {
      FinishedIsClosing(s, t, r, result, now);
      ClosingSettles(s, Finished(t, r, result, now), r, now);
    }
  }

  lemma RejectedIsFailing(s: State, left: State, r: RunId, result: ExecutionResult, now: Time)
    requires Accepting(s, left, r) && left.runs[r] == s.runs[r]
    ensures Failing(s, Finished(left, r, result, now), r)
  {
    assert RunOk(s, r);
  }

  lemma FinishLocalKeepsLedger(s: State, r: RunId, outcome: LocalOutcome, now: Time)
    requires Inv(s) && LedgerOk(s)
    ensures LedgerOk(FinishLocal(s, r, outcome, now))
  {
    hide LedgerOk, SettleRun, FailRun, Finalize, Finished;
    if r in s.processing {
      var left := s.(processing := s.processing - {r});
      assert RunOk(s, r);
      assert Accepting(s, left, r) && Failing(s, left, r);
      match outcome
      case Preflight => FailingKeepsLedger(s, left, r, "cloud_run_preflight_failed", now);
      case Ran(result, taskAllows) =>
        FinalizeIsSound(s, left, r, result, taskAllows, now);
        FinalizeKeepsLedger(s, left, r, result, taskAllows, now);
        var (closed, how) := Finalize(left, r, result, taskAllows, now);
        if how.TransitionRejected? {
          RejectedIsFailing(s, left, r, result, now);
          FailingKeepsLedger(s, closed, r, "cloud_run_preflight_failed", now);
        }
    }
  }

  lemma HistoryIsNoLedger(s: State, e: Event)
    requires LedgerOk(s)
    ensures LedgerOk(Record(s, e))
  {
  }

  lemma CompleteKeepsLedger(
      s: State, lease: LeaseId, cred: Credential, result: ExecutionResult, taskAllows: bool, now: Time)
    requires Inv(s) && LedgerOk(s)
    ensures LedgerOk(CompleteLease(s, lease, cred, result, taskAllows, now).0)
  {
    hide LedgerOk, SettleRun, Finalize;
    var found := Resolve(s.runs, lease, cred, now);
    if found.Current? {
      var r := found.run;
      assert RunOk(s, r);
      var accepted := s.(runs := s.runs[r := s.runs[r].(callback := UseToken(s.runs[r].callback, now))]);
      assert Accepting(s, accepted, r);
      FinalizeIsSound(s, accepted, r, result, taskAllows, now);
      FinalizeKeepsLedger(s, accepted, r, result, taskAllows, now);
      var (closed, how) := Finalize(accepted, r, result, taskAllows, now);
      if how.TransitionRejected? {
        OneRowIsSound(s, accepted, r);
        AcceptedIsQuiet(s, accepted, r);
        HistoryIsNoLedger(accepted, Accepted(r, lease, AbortedCompletion));
      } else {
        HistoryIsNoLedger(closed, Accepted(r, lease, Completion));
      }
    }
  }

  lemma AcceptedIsQuiet(s: State, t: State, r: RunId)
    requires Accepting(s, t, r) && LedgerOk(s) && Sound(s, t)
    ensures LedgerOk(t)
  {
    QuietKeepsLedger(s, t);
  }

  lemma ExpireRunKeepsLedger(s: State, r: RunId, now: Time)
    requires Inv(s) && LedgerOk(s) && r < |s.runs| && s.runs[r].status.Running? && s.runs[r].lease.Some?
    ensures LedgerOk(ExpireRun(s, r, now))
  {
    hide LedgerOk, FailRun;
    assert RunOk(s, r);
    ExpireRunIsSound(s, r, now);
    if s.runs[r].attemptCount >= s.runs[r].maxAttempts {
      FailingKeepsLedger(s, s, r, "lease_attempts_exhausted", now);
      HistoryIsNoLedger(FailRun(s, r, "lease_attempts_exhausted", now), Expired(r));
    } else {
      SameBooksKeepLedger(s, ExpireRun(s, r, now));
    }
  }

  lemma SameBooksKeepLedger(s: State, t: State)
    requires Inv(s) && LedgerOk(s) && Sound(s, t) && t.books == s.books
    ensures LedgerOk(t)
  {
    QuietKeepsLedger(s, t);
  }

  lemma {:induction false} ExpireAllKeepsLedger(s: State, batch: seq<RunId>, provider: QueueProvider, now: Time)
    requires Inv(s) && LedgerOk(s) && ExpiredBatch(s, batch, provider, now)
    ensures LedgerOk(ExpireAll(s, batch, now))
    decreases |batch|
  {
    hide LedgerOk, ExpireRun, Sound;
    if batch != [] {
      var init, last := batch[..|batch| - 1], batch[|batch| - 1];
      ExpireAllKeepsLedger(s, init, provider, now);
      ExpireAllIsSound(s, init, provider, now);
      var mid := ExpireAll(s, init, now);
      StillExpired(s, mid, init, last);
      ExpireRunKeepsLedger(mid, last, now);
    }
  }

  lemma StillExpired(s: State, mid: State, init: seq<RunId>, last: RunId)
    requires Inv(s) && Sound(s, mid) && OnlyBatch(s, mid, init)
    requires last < |s.runs| && last !in init && s.runs[last].status.Running? && s.runs[last].leaseExpiresAt.Some?
    ensures Inv(mid) && last < |mid.runs| && mid.runs[last].status.Running? && mid.runs[last].lease.Some?
  {
    assert RunOk(s, last);
  }

  lemma EnqueueKeepsLedger(s: State, req: EnqueueRequest, now: Time)
    requires Inv(s) && LedgerOk(s)
    ensures LedgerOk(Enqueue(s, req, now).0)
  {
    hide LedgerOk, Dispatched, Sound, WithNewRun, Reserve;
    var (books, result) := Reserve(s.books, req.workspace, now);
    ReserveRefuses(s.books, req.workspace, now);
    if result.ReservedAs? {
      NewRunIsSound(s, req, now);
      var u := WithNewRun(s, req, result.id, books, now);
      NewRunIsQuiet(s, req, now);
      DispatchKeepsLedger(s, u, req, now);
    }
  }

  lemma NewRunIsQuiet(s: State, req: EnqueueRequest, now: Time)
    requires Inv(s) && LedgerOk(s) && Reserve(s.books, req.workspace, now).1.ReservedAs?
    ensures var (books, result) := Reserve(s.books, req.workspace, now);
      LedgerOk(WithNewRun(s, req, result.id, books, now))
  {
    hide LedgerOk;
    var (books, result) := Reserve(s.books, req.workspace, now);
    NewRunIsSound(s, req, now);
    QuietKeepsLedger(s, WithNewRun(s, req, result.id, books, now));
  }

  lemma DispatchKeepsLedger(s: State, u: State, req: EnqueueRequest, now: Time)
    requires Enqueued(s, u) && LedgerOk(u)
    ensures LedgerOk(Dispatched(u, |s.runs|, req, now).0)
  {
    hide LedgerOk, ReleaseRun, FailRun, RunOk;
    var r := |s.runs|;
    if SendsMessage(req) && req.queue.QueueError? {
      QueueFailureKeepsLedger(s, u, now);
    } else {
      var sent := if SendsMessage(req) then WithMessage(u, r, req.queue.message) else u;
      if SendsMessage(req) {
        MessageIsSound(s, u, req.queue.message);
        NewRowKeepsLedger(s, u, sent);
      }
      if req.runtimeProvider.Some? {
        if req.runtime.SubmissionError? {
          SubmissionFailureKeepsLedger(s, sent, now);
        } else {
          RuntimeIsSound(s, sent, req.runtime);
          NewRowKeepsLedger(s, sent, WithRuntime(sent, r, req.runtime));
        }
      }
    }
  }

  lemma NewRowKeepsLedger(s: State, u: State, t: State)
    requires Enqueued(s, u) && Enqueued(s, t) && LedgerOk(u) && t.books == u.books && |t.runs| == |u.runs|
    requires t.runs == u.runs[|s.runs| := t.runs[|s.runs|]]
    ensures LedgerOk(t)
  {
    hide UniqueUsage, Billed;
    assert RunOk(u, |s.runs|);
    forall r | 0 <= r < |t.runs| ensures RunBilled(t.books.ledger, r, t.runs[r], t.books.reservations[r]) {
      assert RunBilled(u.books.ledger, r, u.runs[r], u.books.reservations[r]);
    }
  }

  lemma QueueFailureKeepsLedger(s: State, u: State, now: Time)
    requires Enqueued(s, u) && LedgerOk(u)
    ensures var r := |s.runs|;
      LedgerOk(ReleaseRun(Put(u, r, FailedRow(u.runs[r], "queue_enqueue_failed", now),
                              FailedLocal(u.locals[r], "queue_enqueue_failed")), r, now))
  {
    hide UniqueUsage, Billed;
    var r := |s.runs|;
    var failed := Put(u, r, FailedRow(u.runs[r], "queue_enqueue_failed", now),
                      FailedLocal(u.locals[r], "queue_enqueue_failed"));
    assert RunOk(u, r);
    assert Closing(u, failed, r);
    ReleaseRunKeeps(u, failed, r, now);
    var t := ReleaseRun(failed, r, now);
    forall k | 0 <= k < |t.runs| ensures RunBilled(t.books.ledger, k, t.runs[k], t.books.reservations[k]) {
      assert RunBilled(u.books.ledger, k, u.runs[k], u.books.reservations[k]);
    }
  }

  lemma SubmissionFailureKeepsLedger(s: State, u: State, now: Time)
    requires Enqueued(s, u) && LedgerOk(u)
    ensures LedgerOk(FailRun(u, |s.runs|, "runtime_submission_failed", now))
  {
    hide LedgerOk;
    var r := |s.runs|;
    var failed := Put(u, r, FailedRow(u.runs[r], "runtime_submission_failed", now),
                      FailedLocal(u.locals[r], "runtime_submission_failed"));
    assert RunOk(u, r);
    assert Closing(u, failed, r);
    ClosingSettles(u, failed, r, now);
  }

  lemma CancelKeepsLedger(s: State, r: RunId, now: Time)
    requires Inv(s) && LedgerOk(s)
    ensures LedgerOk(CancelRun(s, r, now))
  {
    hide LedgerOk, Sound;
    if r < |s.runs| {
      assert RunOk(s, r);
      CancelIsSound(s, r, now);
      CancelIsQuiet(s, r, now);
      QuietKeepsLedger(s, CancelRun(s, r, now));
    }
  }

  lemma CancelIsQuiet(s: State, r: RunId, now: Time)
    requires |s.runs| == |s.locals| == |s.books.reservations|
    ensures LedgerQuiet(s, CancelRun(s, r, now))
  {
  }

  lemma NextKeepsLedger(s: State, step: Step)
    requires Inv(s) && LedgerOk(s)
    ensures LedgerOk(Next(s, step))
  {
    hide LedgerOk, Inv, Enqueue, CompleteLease, ExpireAll, ExpiredQuery, FinishLocal, CancelRun, AppendUsageEntry;
    NextIsSound(s, step);
    match step.action
    case EnqueueAction(req) => EnqueueKeepsLedger(s, req, step.at);
    case CompleteAction(lease, cred, result, taskAllows) =>
      CompleteKeepsLedger(s, lease, cred, result, taskAllows, step.at);
    case RequeueAction(provider, limit) =>
      QueryIsBatch(s, provider, limit, step.at);
      ExpireAllKeepsLedger(s, ExpiredQuery(s.runs, provider, limit, step.at), provider, step.at);
    case FinishLocalAction(r, outcome) => FinishLocalKeepsLedger(s, r, outcome, step.at);
    case CancelAction(r) => CancelKeepsLedger(s, r, step.at);
    case GrantAction(_, _) => QuietKeepsLedger(s, Next(s, step));
    case LimitAction(_, _, _) => QuietKeepsLedger(s, Next(s, step));
    case ClaimLeaseAction(_, _, _, _) => SameBooksKeepLedger(s, Next(s, step));
    case HeartbeatAction(_, _, _) => SameBooksKeepLedger(s, Next(s, step));
    case UploadAction(_, _, _) => SameBooksKeepLedger(s, Next(s, step));
    case ClaimLocalAction(_, _) => SameBooksKeepLedger(s, Next(s, step));
    case SyncLogAction(_, _) => SameBooksKeepLedger(s, Next(s, step));
    case DropObjectsAction(_) => SameBooksKeepLedger(s, Next(s, step));
    case AppendUsageAction(usage) => AppendKeepsLedger(s, usage);
  }

  lemma {:induction false} LedgerHistory(steps: seq<Step>)
    ensures Inv(Exec(steps)) && LedgerOk(Exec(steps))
    decreases |steps|
  {
    hide Next, LedgerOk, Inv;
    Reachable(steps);
    if steps != [] {
      LedgerHistory(steps[..|steps| - 1]);
      NextKeepsLedger(Exec(steps[..|steps| - 1]), steps[|steps| - 1]);
    } else {
      EmptyLedger();
    }
  }

  lemma EmptyLedger()
    ensures LedgerOk(INITIAL)
  {
  }

  /** Every charge is itemised. In every reachable state, whatever rows callers have appended,
      a run has rows of the settlement's types exactly when its reservation was settled; they
      add up to the measured cost, of which the run pays the part that its reservation covers;
      and no run has two rows of one type. */
  lemma ChargesAreItemised(steps: seq<Step>, r: RunId)
    requires r < |Exec(steps).runs|
    ensures var s := Exec(steps);
      && |s.books.reservations| == |s.runs| && UniqueUsage(s.books.ledger)
      && (s.books.reservations[r].status.Settled? <==> !NoOwnedEntries(s.books.ledger, r))
      && (s.books.reservations[r].status.Settled? ==>
            && Billed(s.books.ledger, r) == s.runs[r].costSummary.measured
            && s.runs[r].actualCost == Min(Billed(s.books.ledger, r), s.books.reservations[r].reserved))
  {
    hide Exec, Billed, UniqueUsage;
    LedgerHistory(steps);
    var s := Exec(steps);
    assert RunBilled(s.books.ledger, r, s.runs[r], s.books.reservations[r]);
    if HasEntry(s.books.ledger, r, UsageType.WorkerSubmissions) {
      var k :| 0 <= k < |s.books.ledger| && s.books.ledger[k].run == Some(r)
        && s.books.ledger[k].usageType == UsageType.WorkerSubmissions;
      assert s.books.ledger[k] in s.books.ledger;
    }
  }
}
