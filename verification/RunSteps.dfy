/** Every step of the protocol keeps the invariants, and moves each run only forward. */
module RunSteps {
  import opened Entities
  import opened Budgeting
  import opened CloudRunner
  import opened RunInvariants
  import opened RunQueries

  /** The retries a run has left, refined so that every change of status uses some of it. */
  function Measure(run: CloudRun): int {
    match run.status
    case Queued => 2 * (run.maxAttempts - run.attemptCount)
    case Running => if run.lease.Some? then 2 * (run.maxAttempts - run.attemptCount) + 1 else 1
    case _ => 0
  }

  /** Nothing of a row has changed but where its log is kept, which a log synchronisation
      rewrites in any status. */
  predicate SameButLog(a: CloudRun, b: CloudRun) {
    b == a.(logUri := b.logUri, logBytes := b.logBytes)
  }

  /** How one step may change one run. */
  ghost predicate Moves(s: State, t: State, r: RunId)
    requires r < |s.runs| == |s.locals| == |s.books.reservations|
    requires r < |t.runs| == |t.locals| == |t.books.reservations|
  {
    var a, b := s.runs[r], t.runs[r];
    && b.maxAttempts == a.maxAttempts
    && (a.cancelRequested ==> b.cancelRequested)
    && (a.callback.Some? <==> b.callback.Some?)
    && (a.callback.Some? && a.callback.value.usedAt.Some? ==> b.callback.value.usedAt.Some?)
    && (b.status == a.status ==> Measure(b) == Measure(a))
    && (b.status != a.status ==> Measure(b) < Measure(a))
    && (Terminal(a.status) ==>
          SameButLog(a, b) && t.locals[r] == s.locals[r] && t.books.reservations[r] == s.books.reservations[r])
    && (!Terminal(a.status) && Terminal(b.status) ==>
          (t.books.reservations[r].status.Released? <==> a.status.Queued?))
    && (a.status.Queued? && Terminal(b.status) ==> b.status.Cancelled? && b.attemptCount == a.attemptCount)
  }

  lemma StaysPut(s: State, t: State, r: RunId)
    requires Inv(s) && r < |s.runs|
    requires r < |t.runs| == |t.locals| == |t.books.reservations|
    requires t.runs[r] == s.runs[r] && t.locals[r] == s.locals[r]
    requires t.books.reservations[r] == s.books.reservations[r]
    ensures Moves(s, t, r)
  {
    assert RunOk(s, r);
  }

  ghost predicate AllMove(s: State, t: State) {
    && |s.runs| == |s.locals| == |s.books.reservations|
    && |s.runs| <= |t.runs| == |t.locals| == |t.books.reservations|
    && forall r :: 0 <= r < |s.runs| ==> Moves(s, t, r)
  }

  lemma OnlyRunMoves(s: State, t: State, r: RunId)
    requires Inv(s) && OnlyRun(s, t, r) && r < |s.runs| && Moves(s, t, r)
    ensures AllMove(s, t)
  {
    forall k | 0 <= k < |s.runs| ensures Moves(s, t, k) {
      if k != r {
        StaysPut(s, t, k);
      }
    }
  }

  /** What a step owes: the invariants, and every run moved only forward. */
  ghost predicate Sound(s: State, t: State) {
    Inv(t) && AllMove(s, t)
  }

  lemma NothingMoves(s: State, t: State)
    requires Inv(s) && t.runs == s.runs && t.locals == s.locals && t.artifacts == s.artifacts
    requires t.processing == s.processing && t.books.reservations == s.books.reservations
    ensures Sound(s, t)
  {
    forall r | 0 <= r < |s.runs| ensures RunOk(t, r) && Moves(s, t, r) {
      assert RunOk(s, r);
      StaysPut(s, t, r);
    }
  }

  /** A step that rewrites one row. */
  lemma OneRowIsSound(s: State, t: State, r: RunId)
    requires Inv(s) && OnlyRun(s, t, r) && r < |s.runs| && RunOk(t, r) && Moves(s, t, r)
    ensures Sound(s, t)
  {
    OnlyRunKeeps(s, t, r);
    OnlyRunMoves(s, t, r);
  }

  /** A step that closes one run that was not queued, and settles it. */
  lemma SettledRunIsSound(s: State, t: State, r: RunId, now: Time)
    requires Closing(s, t, r) && s.runs[r].status.Running? && t.runs[r].claimedAt.Some?
    requires t.runs[r].maxAttempts == s.runs[r].maxAttempts
    requires s.runs[r].cancelRequested ==> t.runs[r].cancelRequested
    requires s.runs[r].callback.Some? <==> t.runs[r].callback.Some?
    requires s.runs[r].callback.Some? && s.runs[r].callback.value.usedAt.Some? ==>
      t.runs[r].callback.value.usedAt.Some?
    ensures Sound(s, SettleRun(t, r, now))
    ensures OnlyRun(s, SettleRun(t, r, now), r)
  {
    SettleRunKeeps(s, t, r, now);
    assert RunOk(s, r);
    assert Moves(s, SettleRun(t, r, now), r);
    OnlyRunMoves(s, SettleRun(t, r, now), r);
  }

  /** A running run whose row may already carry a result that was rejected. */
  ghost predicate Failing(s: State, t: State, r: RunId) {
    && Inv(s) && r < |s.runs| && s.runs[r].status.Running?
    && OnlyRun(s, t, r) && r !in t.processing && ArtifactOk(t, r)
    && t.locals[r].patchArtifact == t.runs[r].patchArtifact
    && t.runs[r].(status := s.runs[r].status, failureReason := s.runs[r].failureReason,
                  patchArtifact := s.runs[r].patchArtifact, completedAt := s.runs[r].completedAt) == s.runs[r]
    && t.books.reservations[r] == s.books.reservations[r]
  }

  lemma FailedIsClosing(s: State, t: State, r: RunId, reason: string, now: Time)
    requires Failing(s, t, r)
    ensures Closing(s, Put(t, r, FailedRow(t.runs[r], reason, now), FailedLocal(t.locals[r], reason)), r)
    ensures s.runs[r].claimedAt.Some?
  {
    assert RunOk(s, r);
  }

  lemma FailRunIsSound(s: State, t: State, r: RunId, reason: string, now: Time)
    requires Failing(s, t, r)
    ensures Sound(s, FailRun(t, r, reason, now))
    ensures OnlyRun(s, FailRun(t, r, reason, now), r)
    ensures Terminal(FailRun(t, r, reason, now).runs[r].status)
  {
    hide Closing;
    FailedIsClosing(s, t, r, reason, now);
    var row := Put(t, r, FailedRow(t.runs[r], reason, now), FailedLocal(t.locals[r], reason));
    SettledRunIsSound(s, row, r, now);
    SettleRunKeeps(s, row, r, now);
  }

  lemma CancelIsSound(s: State, r: RunId, now: Time)
    requires Inv(s)
    ensures Sound(s, CancelRun(s, r, now))
  {
    var t := CancelRun(s, r, now);
    if t == s {
      NothingMoves(s, t);
    } else {
      assert RunOk(s, r);
      if s.runs[r].status.Queued? {
        var row := Put(s, r, QueuedCancelRow(s.runs[r], now), s.locals[r].(status := Cancelled));
        assert Closing(s, row, r);
        ReleaseRunKeeps(s, row, r, now);
        assert Moves(s, t, r);
        OnlyRunMoves(s, t, r);
      } else {
        OneRowIsSound(s, t, r);
      }
    }
  }

  lemma ClaimLeaseIsSound(
      s: State, target: Option<RunId>, provider: QueueProvider, cred: Credential, seconds: nat, now: Time)
    requires Inv(s)
    ensures Sound(s, ClaimLease(s, target, provider, cred, seconds, now).0)
  {
    hide Candidate, Sound;
    var (t, result) := ClaimLease(s, target, provider, cred, seconds, now);
    if result.Leased? {
      IssueIsSound(s, Candidate(s.runs, target, provider).value, provider, cred.worker, seconds, now);
    } else {
      NothingMoves(s, t);
    }
  }

  lemma IssueIsSound(s: State, r: RunId, provider: QueueProvider, worker: string, seconds: nat, now: Time)
    requires Inv(s) && r < |s.runs| && Claimable(s.runs[r], provider)
    ensures Sound(s, IssueLease(s, r, worker, seconds, now))
  {
    assert RunOk(s, r);
    OneRowIsSound(s, IssueLease(s, r, worker, seconds, now), r);
  }

  lemma SyncLogIsSound(s: State, r: RunId, synced: Option<(string, nat)>)
    requires Inv(s)
    ensures Sound(s, SyncLog(s, r, synced))
  {
    var t := SyncLog(s, r, synced);
    if t == s {
      NothingMoves(s, t);
    } else {
      assert RunOk(s, r);
      OneRowIsSound(s, t, r);
    }
  }

  lemma ClaimLocalIsSound(s: State, r: RunId, worker: string, now: Time)
    requires Inv(s)
    ensures Sound(s, ClaimLocal(s, r, worker, now))
  {
    var t := ClaimLocal(s, r, worker, now);
    if t == s {
      NothingMoves(s, t);
    } else {
      assert RunOk(s, r);
      OneRowIsSound(s, t, r);
    }
  }

  lemma HeartbeatIsSound(s: State, lease: LeaseId, cred: Credential, seconds: nat, now: Time)
    requires Inv(s)
    ensures Sound(s, HeartbeatLease(s, lease, cred, seconds, now).0)
  {
    var (t, found) := HeartbeatLease(s, lease, cred, seconds, now);
    if found.Refused? {
      NothingMoves(s, t);
    } else {
      assert RunOk(s, found.run);
      OneRowIsSound(s, t, found.run);
    }
  }

  /** A row whose callback token may have just been used up, and nothing else changed. */
  ghost predicate Accepting(s: State, t: State, r: RunId) {
    && Inv(s) && r < |s.runs| && s.runs[r].status.Running?
    && OnlyRun(s, t, r) && r !in t.processing && t.locals == s.locals && t.artifacts == s.artifacts
    && t.books == s.books
    && t.runs[r] == s.runs[r].(callback := t.runs[r].callback)
    && (s.runs[r].callback.Some? <==> t.runs[r].callback.Some?)
    && (s.runs[r].callback.Some? && s.runs[r].callback.value.usedAt.Some? ==> t.runs[r].callback.value.usedAt.Some?)
  }

  lemma CancelledIsClosing(s: State, t: State, r: RunId, now: Time)
    requires Accepting(s, t, r)
    ensures var row := Put(t, r, CancelledRow(t.runs[r], now), LocalRun(Cancelled, None, None));
      Closing(s, row, r) && row.runs[r].claimedAt.Some?
  {
    assert RunOk(s, r);
  }

  lemma MarkCancelledIsSound(s: State, t: State, r: RunId, now: Time)
    requires Accepting(s, t, r)
    ensures var after := MarkCancelled(t, r, now);
      Sound(s, after) && OnlyRun(s, after, r) && Terminal(after.runs[r].status)
  {
    hide Closing, Sound;
    CancelledIsClosing(s, t, r, now);
    var row := Put(t, r, CancelledRow(t.runs[r], now), LocalRun(Cancelled, None, None));
    SettledRunIsSound(s, row, r, now);
    SettleRunKeeps(s, row, r, now);
  }

  lemma FinishedIsClosing(s: State, t: State, r: RunId, result: ExecutionResult, now: Time)
    requires Accepting(s, t, r) && !t.runs[r].cancelRequested
    ensures var row := Finished(t, r, result, now);
      && Closing(s, row, r)
      && row.runs[r].maxAttempts == s.runs[r].maxAttempts && row.runs[r].callback == t.runs[r].callback
      && row.runs[r].claimedAt.Some?
      && !s.runs[r].cancelRequested
  {
    assert RunOk(s, r);
    hide Inv;
  }

  lemma FinishedIsSound(s: State, t: State, r: RunId, result: ExecutionResult, now: Time)
    requires Accepting(s, t, r) && !t.runs[r].cancelRequested
    ensures var after := SettleRun(Finished(t, r, result, now), r, now);
      Sound(s, after) && OnlyRun(s, after, r) && Terminal(after.runs[r].status)
  {
    hide Finished, RowsOk, Sound;
    FinishedIsClosing(s, t, r, result, now);
    var row := Finished(t, r, result, now);
    SettledRunIsSound(s, row, r, now);
    SettleRunKeeps(s, row, r, now);
  }

  lemma FinalizeIsSound(s: State, t: State, r: RunId, result: ExecutionResult, taskAllows: bool, now: Time)
    requires Accepting(s, t, r)
    ensures var (after, how) := Finalize(t, r, result, taskAllows, now);
      && !how.AlreadyClosed?
      && (how.Closed? ==> Sound(s, after) && OnlyRun(s, after, r) && Terminal(after.runs[r].status))
      && (how.TransitionRejected? ==> after == Finished(t, r, result, now) && !t.runs[r].cancelRequested)
  {
    hide Sound, MarkCancelled, Finished, SettleRun;
    assert s.runs[r].completedAt.None? by {
      assert RunOk(s, r);
    }
    if t.runs[r].cancelRequested {
      MarkCancelledIsSound(s, t, r, now);
    } else {
      FinishedIsSound(s, t, r, result, now);
    }
  }

  lemma FinishLocalIsSound(s: State, r: RunId, outcome: LocalOutcome, now: Time)
    requires Inv(s)
    ensures Sound(s, FinishLocal(s, r, outcome, now))
    ensures r in s.processing ==> Terminal(FinishLocal(s, r, outcome, now).runs[r].status)
  {
    hide Sound, SettleRun, FailRun, Finalize;
    if r !in s.processing {
      NothingMoves(s, s);
    } else {
      assert RunOk(s, r);
      var left := s.(processing := s.processing - {r});
      match outcome
      case Preflight =>
        FailRunIsSound(s, left, r, "cloud_run_preflight_failed", now);
      case Ran(result, taskAllows) =>
        FinalizeIsSound(s, left, r, result, taskAllows, now);
        var (closed, how) := Finalize(left, r, result, taskAllows, now);
        if how.TransitionRejected? {
          FailRunIsSound(s, closed, r, "cloud_run_preflight_failed", now);
        }
    }
  }

  lemma CompleteIsSound(
      s: State, lease: LeaseId, cred: Credential, result: ExecutionResult, taskAllows: bool, now: Time)
    requires Inv(s)
    ensures Sound(s, CompleteLease(s, lease, cred, result, taskAllows, now).0)
  {
    var found := Resolve(s.runs, lease, cred, now);
    if found.Refused? {
      NothingMoves(s, s);
    } else {
      var r := found.run;
      assert RunOk(s, r);
      var accepted := s.(runs := s.runs[r := s.runs[r].(callback := UseToken(s.runs[r].callback, now))]);
      FinalizeIsSound(s, accepted, r, result, taskAllows, now);
      var (closed, how) := Finalize(accepted, r, result, taskAllows, now);
      if how.TransitionRejected? {
        OneRowIsSound(s, Record(accepted, Accepted(r, lease, AbortedCompletion)), r);
      } else {
        SameRows(s, closed, Record(closed, Accepted(r, lease, Completion)));
      }
    }
  }

  /** The ghost trace and the object table play no part in the invariants. */
  lemma SameRows(s: State, t: State, t': State)
    requires Inv(s) && Sound(s, t)
    requires t' == t.(history := t'.history, objects := t'.objects)
    ensures Sound(s, t')
  {
    forall r | 0 <= r < |t.runs| ensures RunOk(t', r) {
      assert RunOk(t, r);
    }
    forall r | 0 <= r < |s.runs| ensures Moves(s, t', r) {
      assert Moves(s, t, r);
    }
  }

  lemma ExpireRunIsSound(s: State, r: RunId, now: Time)
    requires Inv(s) && r < |s.runs| && s.runs[r].status.Running? && s.runs[r].lease.Some?
    ensures Sound(s, ExpireRun(s, r, now))
    ensures OnlyRun(s, ExpireRun(s, r, now), r)
  {
    assert RunOk(s, r);
    if s.runs[r].attemptCount >= s.runs[r].maxAttempts {
      FailRunIsSound(s, s, r, "lease_attempts_exhausted", now);
      SameRows(s, FailRun(s, r, "lease_attempts_exhausted", now), ExpireRun(s, r, now));
    } else {
      OneRowIsSound(s, ExpireRun(s, r, now), r);
    }
  }

  /** The runs outside a batch are untouched by it. */
  ghost predicate OnlyBatch(s: State, t: State, batch: seq<RunId>) {
    && |s.runs| == |s.locals| == |s.books.reservations|
    && |t.runs| == |t.locals| == |t.books.reservations| == |s.runs|
    && forall r :: 0 <= r < |s.runs| && r !in batch ==>
         t.runs[r] == s.runs[r] && t.locals[r] == s.locals[r] && t.books.reservations[r] == s.books.reservations[r]
  }

  lemma BatchOneMore(s: State, mid: State, t: State, batch: seq<RunId>, last: RunId)
    requires Inv(s) && Sound(s, mid) && OnlyBatch(s, mid, batch)
    requires last !in batch && last < |s.runs|
    requires Sound(mid, t) && OnlyRun(mid, t, last)
    ensures Sound(s, t) && OnlyBatch(s, t, batch + [last])
  {
    forall r | 0 <= r < |s.runs| ensures Moves(s, t, r) {
      assert Moves(s, mid, r) && Moves(mid, t, r);
    }
  }

  lemma {:induction false} ExpireAllIsSound(s: State, batch: seq<RunId>, provider: QueueProvider, now: Time)
    requires Inv(s) && ExpiredBatch(s, batch, provider, now)
    ensures Sound(s, ExpireAll(s, batch, now))
    ensures OnlyBatch(s, ExpireAll(s, batch, now), batch)
    decreases |batch|
  {
    hide ExpireRun, AllMove, OnlyRun;
    if batch == [] {
      NothingMoves(s, s);
    } else {
      var init, last := batch[..|batch| - 1], batch[|batch| - 1];
      ExpireAllIsSound(s, init, provider, now);
      var mid := ExpireAll(s, init, now);
      assert last !in init && RunOk(s, last);
      ExpireRunIsSound(mid, last, now);
      BatchOneMore(s, mid, ExpireRun(mid, last, now), init, last);
      assert batch == init + [last];
    }
  }

  /** An enqueue in progress: the run and its reservation exist, nothing has been sent. */
  ghost predicate Enqueued(s: State, u: State) {
    && Inv(s) && Sound(s, u) && |u.runs| == |s.runs| + 1
    && u.runs[|s.runs|].status.Queued?
    && u.history == s.history && u.nextLease == s.nextLease
    && s.runs <= u.runs && u.runs[|s.runs|].lease.None?
  }

  lemma NewRunIsSound(s: State, req: EnqueueRequest, now: Time)
    requires Inv(s) && Reserve(s.books, req.workspace, now).1.ReservedAs?
    ensures var (books, result) := Reserve(s.books, req.workspace, now);
      Enqueued(s, WithNewRun(s, req, result.id, books, now))
  {
    var (books, result) := Reserve(s.books, req.workspace, now);
    var t := WithNewRun(s, req, result.id, books, now);
    forall r | 0 <= r < |s.runs| ensures RunOk(t, r) && Moves(s, t, r) {
      assert RunOk(s, r);
      StaysPut(s, t, r);
    }
    assert RunOk(t, |s.runs|);
  }

  /** Whatever then happens to the new run alone, the older runs have not moved. */
  lemma NewRunChanged(s: State, u: State, t: State)
    requires Inv(s) && Sound(s, u) && Inv(t) && |u.runs| == |s.runs| + 1 && OnlyRun(u, t, |s.runs|)
    ensures Sound(s, t)
  {
    forall r | 0 <= r < |s.runs| ensures Moves(s, t, r) {
      assert Moves(s, u, r);
    }
  }

  lemma MessageIsSound(s: State, u: State, message: Option<string>)
    requires Enqueued(s, u)
    ensures Enqueued(s, WithMessage(u, |s.runs|, message))
  {
    var t := WithMessage(u, |s.runs|, message);
    assert RunOk(u, |s.runs|) && RunOk(t, |s.runs|);
    OnlyRunKeeps(u, t, |s.runs|);
    NewRunChanged(s, u, t);
  }

  lemma RuntimeIsSound(s: State, u: State, refs: RuntimeOutcome)
    requires Enqueued(s, u) && refs.Submitted?
    ensures Enqueued(s, WithRuntime(u, |s.runs|, refs))
  {
    var t := WithRuntime(u, |s.runs|, refs);
    assert RunOk(u, |s.runs|) && RunOk(t, |s.runs|);
    OnlyRunKeeps(u, t, |s.runs|);
    NewRunChanged(s, u, t);
  }

  lemma QueueFailureIsSound(s: State, u: State, now: Time)
    requires Enqueued(s, u)
    ensures var r := |s.runs|;
      var t := ReleaseRun(Put(u, r, FailedRow(u.runs[r], "queue_enqueue_failed", now),
                              FailedLocal(u.locals[r], "queue_enqueue_failed")), r, now);
      && Sound(s, t) && |t.runs| == |s.runs| + 1 && t.history == s.history && t.nextLease == s.nextLease
      && s.runs <= t.runs && t.runs[r].lease.None?
      && t.runs[r].status.Failed? && t.books.reservations[r].status.Released?
  {
    var r := |s.runs|;
    var failed := Put(u, r, FailedRow(u.runs[r], "queue_enqueue_failed", now),
                      FailedLocal(u.locals[r], "queue_enqueue_failed"));
    assert RunOk(u, r);
    assert Closing(u, failed, r);
    ReleaseRunKeeps(u, failed, r, now);
    NewRunChanged(s, u, ReleaseRun(failed, r, now));
  }

  lemma SubmissionFailureIsSound(s: State, u: State, now: Time)
    requires Enqueued(s, u)
    ensures var r := |s.runs|;
      var t := FailRun(u, r, "runtime_submission_failed", now);
      && Sound(s, t) && |t.runs| == |s.runs| + 1 && t.history == s.history && t.nextLease == s.nextLease
      && s.runs <= t.runs && t.runs[r].lease.None?
      && t.runs[r].status.Failed? && t.books.reservations[r].status.Settled?
  {
    var r := |s.runs|;
    var failed := Put(u, r, FailedRow(u.runs[r], "runtime_submission_failed", now),
                      FailedLocal(u.locals[r], "runtime_submission_failed"));
    assert RunOk(u, r);
    assert Closing(u, failed, r);
    SettleRunKeeps(u, failed, r, now);
    NewRunChanged(s, u, SettleRun(failed, r, now));
  }

  /** The three ends of an enqueue: a queued run that holds its money, a failed run whose
      money went back, or a failed run that is charged for its submission. */
  lemma EnqueueIsSound(s: State, req: EnqueueRequest, now: Time)
    requires Inv(s)
    ensures Sound(s, Enqueue(s, req, now).0)
    ensures var (t, result) := Enqueue(s, req, now);
      && t.history == s.history && t.nextLease == s.nextLease
      && (result.PaymentRequired? ==> t == s)
      && (!result.PaymentRequired? ==>
            |t.runs| == |s.runs| + 1 && s.runs <= t.runs && t.runs[|s.runs|].lease.None?)
      && (result.Created? ==> t.runs[|s.runs|].status.Queued?)
      && (result.QueueFailed? ==>
            t.runs[|s.runs|].status.Failed? && t.books.reservations[|s.runs|].status.Released?)
      && (result.RuntimeFailed? ==>
            t.runs[|s.runs|].status.Failed? && t.books.reservations[|s.runs|].status.Settled?)
  {
    hide Sound, SettleRun, ReleaseRun, RunOk, WithNewRun, WithMessage;
    var (books, result) := Reserve(s.books, req.workspace, now);
    if !result.ReservedAs? {
      NothingMoves(s, s);
    } else {
      var r := |s.runs|;
      NewRunIsSound(s, req, now);
      var queued := WithNewRun(s, req, result.id, books, now);
      if SendsMessage(req) && req.queue.QueueError? {
        QueueFailureIsSound(s, queued, now);
      } else {
        var sent := if SendsMessage(req) then WithMessage(queued, r, req.queue.message) else queued;
        if SendsMessage(req) {
          MessageIsSound(s, queued, req.queue.message);
        }
        if req.runtimeProvider.Some? {
          if req.runtime.SubmissionError? {
            SubmissionFailureIsSound(s, sent, now);
          } else {
            RuntimeIsSound(s, sent, req.runtime);
          }
        }
      }
    }
  }

  /** One step, of any kind, from a good state. */
  lemma NextIsSound(s: State, step: Step)
    requires Inv(s)
    ensures Sound(s, Next(s, step))
  {
    hide Sound, Enqueue, ClaimLease, HeartbeatLease, CompleteLease, ExpireAll, ExpiredQuery;
    hide ClaimLocal, FinishLocal, CancelRun, SyncLog;
    match step.action
    case GrantAction(_, _) => NothingMoves(s, Next(s, step));
    case LimitAction(_, _, _) => NothingMoves(s, Next(s, step));
    case EnqueueAction(req) => EnqueueIsSound(s, req, step.at);
    case ClaimLeaseAction(target, provider, cred, seconds) =>
      ClaimLeaseIsSound(s, target, provider, cred, seconds, step.at);
    case HeartbeatAction(lease, cred, seconds) => HeartbeatIsSound(s, lease, cred, seconds, step.at);
    case UploadAction(lease, cred, stored) => NothingMoves(s, Next(s, step));
    case CompleteAction(lease, cred, result, taskAllows) =>
      CompleteIsSound(s, lease, cred, result, taskAllows, step.at);
    case RequeueAction(provider, limit) =>
      QueryIsBatch(s, provider, limit, step.at);
      ExpireAllIsSound(s, ExpiredQuery(s.runs, provider, limit, step.at), provider, step.at);
    case ClaimLocalAction(r, worker) => ClaimLocalIsSound(s, r, worker, step.at);
    case FinishLocalAction(r, outcome) => FinishLocalIsSound(s, r, outcome, step.at);
    case CancelAction(r) => CancelIsSound(s, r, step.at);
    case SyncLogAction(r, synced) => SyncLogIsSound(s, r, synced);
    case DropObjectsAction(_) => NothingMoves(s, Next(s, step));
    case AppendUsageAction(_) => NothingMoves(s, Next(s, step));
  }

  /** Every reachable state is good. */
  lemma {:induction false} Reachable(steps: seq<Step>)
    ensures Inv(Exec(steps))
    decreases |steps|
  {
    if steps != [] {
      Reachable(steps[..|steps| - 1]);
      NextIsSound(Exec(steps[..|steps| - 1]), steps[|steps| - 1]);
    }
  }
}
