/** services/cloud_runner.py as it runs: methods that update the run, local run, object and
    artifact tables in place and call the budget store, each proved to make the protocol step
    of module CloudRunner. The ghost `steps` lists the steps made so far: the tables are
    always in the state that those steps reach, so every theorem about reachable states is a
    theorem about a store.
 */
module RunTables {
  import opened Entities
  import opened Rows
  import opened Budgeting
  import opened BudgetLaws
  import opened BudgetTables
  import opened Text
  import opened CloudRunner
  import opened RunTheorems

  lemma ExecOneMore(steps: seq<Step>, step: Step)
    ensures Exec(steps + [step]) == Next(Exec(steps), step)
  {
    hide Next;
    OneMore(steps, [step]);
    assert steps + [step][..0] == steps;
  }

  class RunStore {
    const budget: BudgetStore
    var runs: seq<CloudRun>
    var locals: seq<LocalRun>
    var objects: seq<StoredObject>
    var artifacts: seq<RunId>
    var nextLease: LeaseId
    ghost var processing: set<RunId>
    ghost var history: seq<Event>
    ghost var steps: seq<Step>

    ghost function View(): State
      reads this, budget
    {
      State(budget.View(), runs, locals, objects, artifacts, nextLease, processing, history)
    }

    ghost predicate Reached()
      reads this, budget
    {
      |runs| == |locals| && View() == Exec(steps)
    }

    constructor ()
      ensures Reached() && steps == [] && fresh(budget)
    {
      budget := new BudgetStore();
      runs, locals, objects, artifacts, nextLease := [], [], [], [], 0;
      processing, history, steps := {}, [], [];
    }

    ghost method Made(step: Step)
      requires |runs| == |locals|
      requires View() == Next(Exec(steps), step)
      modifies this`steps
      ensures Reached() && steps == old(steps) + [step]
    {
      hide Next, Exec;
      ExecOneMore(steps, step);
      steps := steps + [step];
    }

    // ---- shared updates ----

    method SettleRunBudget(r: RunId, now: Time)
      requires r < |runs|
      modifies this`runs, budget
      ensures View() == SettleRun(old(View()), r, now)
    {
      hide Settle;
      var run := budget.SettleCloudRunBudget(r, runs[r], objects, now);
      runs := runs[r := run];
    }

    method ReleaseRunReservation(r: RunId, now: Time)
      requires r < |runs|
      modifies this`runs, budget
      ensures View() == ReleaseRun(old(View()), r, now)
    {
      hide Release;
      var run := budget.ReleaseCloudRunReservation(runs[r], now);
      runs := runs[r := run];
    }

    method MarkFailed(r: RunId, reason: string, now: Time)
      requires r < |runs| == |locals|
      modifies this`runs, this`locals
      ensures View() == Put(old(View()), r, FailedRow(old(runs)[r], reason, now), FailedLocal(old(locals)[r], reason))
    {
      runs := runs[r := runs[r].(status := Failed, failureReason := Some(reason))];
      runs := runs[r := runs[r].(completedAt := Some(now))];
      locals := locals[r := locals[r].(status := Failed, failureReason := Some(reason))];
    }

    method MarkClaimedCloudRunFailed(r: RunId, reason: string, now: Time)
      requires r < |runs| == |locals|
      modifies this`runs, this`locals, budget
      ensures View() == FailRun(old(View()), r, reason, now)
    {
      hide SettleRun;
      MarkFailed(r, reason, now);
      SettleRunBudget(r, now);
    }

    method MarkTokenUsed(r: RunId, now: Time)
      requires r < |runs|
      modifies this`runs
      ensures runs == old(runs)[r := old(runs)[r].(callback := UseToken(old(runs)[r].callback, now))]
    {
      if runs[r].callback.Some? && runs[r].callback.value.usedAt.None? {
        runs := runs[r := runs[r].(callback := Some(runs[r].callback.value.(usedAt := Some(now))))];
      } else {
        assert runs[r].(callback := UseToken(runs[r].callback, now)) == runs[r];
      }
    }

    // ---- enqueue ----

    method EnqueueCloudRun(req: EnqueueRequest, now: Time) returns (result: EnqueueResult)
      requires Reached()
      modifies this, budget
      ensures (View(), result) == Enqueue(old(View()), req, now)
      ensures Reached() && steps == old(steps) + [Step(EnqueueAction(req), now)]
    {
      hide Exec, Reserve, SettleRun, ReleaseRun, NewRun, FailedRow;
      ghost var before := View();
      var reserved := budget.ReserveCloudRunBudget(req.workspace, now);
      if reserved.ReservedAs? {
        var r := |runs|;
        InsertRun(req, reserved.id, now);
        result := Dispatch(r, req, now);
      } else {
        ReserveRefuses(before.books, req.workspace, now);
        result := PaymentRequired;
      }
      Made(Step(EnqueueAction(req), now));
    }

    method InsertRun(req: EnqueueRequest, reservation: ReservationId, now: Time)
      modifies this`runs, this`locals, budget
      ensures View() == WithNewRun(old(View()), req, reservation, old(budget.View()), now)
    {
      var r := |runs|;
      runs := runs + [NewRun(req, r, reservation, RESERVATION_CENTS, now)];
      locals := locals + [LocalRun(Queued, None, None)];
      if reservation < |budget.reservations| {
        budget.reservations := budget.reservations[reservation :=
          budget.reservations[reservation].(run := Some(r))];
      }
    }

    /** What follows the first commit: the queue message and the runtime submission. */
    method Dispatch(r: RunId, req: EnqueueRequest, now: Time) returns (result: EnqueueResult)
      requires r < |runs| == |locals|
      modifies this`runs, this`locals, this`objects, budget
      ensures (View(), result) == Dispatched(old(View()), r, req, now)
    {
      hide SettleRun, ReleaseRun;
      if SendsMessage(req) {
        if req.queue.QueueError? {
          MarkFailed(r, "queue_enqueue_failed", now);
          ReleaseRunReservation(r, now);
          return QueueFailed(r);
        }
        runs := runs[r := runs[r].(queueMessage := req.queue.message)];
      }
      if req.runtimeProvider.Some? {
        if req.runtime.SubmissionError? {
          MarkClaimedCloudRunFailed(r, "runtime_submission_failed", now);
          return RuntimeFailed(r);
        }
        ghost var sent := View();
        objects := objects + StoredParts(r, req.runtime.stored);
        runs := runs[r := runs[r].(manifestUri := req.runtime.manifestUri, manifestBytes := req.runtime.manifestBytes)];
        runs := runs[r := runs[r].(logUri := req.runtime.logUri, logBytes := req.runtime.logBytes)];
        assert runs == WithRuntime(sent, r, req.runtime).runs;
      }
      return Created(r);
    }

    // ---- claiming ----

    /** The conditional update of a lease claim. */
    method ClaimCloudRunLease(r: RunId, worker: string, lease: LeaseId, seconds: nat, now: Time) returns (claimed: bool)
      requires r < |runs|
      modifies this`runs
      ensures claimed <==> Claimable(old(runs)[r], old(runs)[r].queueProvider)
      ensures runs == if claimed then old(runs)[r := old(runs)[r].(
        status := Running, worker := Some(worker), lease := Some(lease),
        leaseExpiresAt := Some(now + seconds * SECOND), heartbeatAt := Some(now),
        attemptCount := old(runs)[r].attemptCount + 1, claimedAt := Some(now))] else old(runs)
    {
      claimed := runs[r].status.Queued? && !runs[r].cancelRequested && runs[r].attemptCount < runs[r].maxAttempts;
      if claimed {
        runs := runs[r := runs[r].(
          status := Running, worker := Some(worker), lease := Some(lease),
          leaseExpiresAt := Some(now + seconds * SECOND), heartbeatAt := Some(now),
          attemptCount := runs[r].attemptCount + 1, claimedAt := Some(now))];
      }
    }

    /** The body of the candidate loop, for a candidate whose token was verified. */
    method TakeLease(r: RunId, worker: string, seconds: nat, now: Time)
      requires r < |runs| == |locals| && Claimable(runs[r], runs[r].queueProvider)
      modifies this`runs, this`locals, this`nextLease, this`history
      ensures View() == IssueLease(old(View()), r, worker, seconds, now)
    {
      var lease := nextLease;
      nextLease := nextLease + 1;
      ghost var before := runs;
      var claimed := ClaimCloudRunLease(r, worker, lease, seconds, now);
      if runs[r].queueProvider.ExternalStub? && runs[r].queueMessage.None? {
        runs := runs[r := runs[r].(queueMessage := Some("external-stub-message-" + Decimal(r)))];
      }
      assert runs == before[r := LeasedRow(r, before[r], lease, worker, seconds, now)];
      locals := locals[r := locals[r].(status := Running)];
      history := history + [Issued(r, lease)];
    }

    /** The candidate loop ends with its first candidate: nothing comes between the query and
        the conditional update of one step. */
    method ClaimNextCloudRunLease(
        target: Option<RunId>, provider: QueueProvider, cred: Credential, seconds: nat, now: Time)
      returns (result: ClaimResult)
      requires Reached()
      modifies this
      ensures (View(), result) == ClaimLease(old(View()), target, provider, cred, seconds, now)
      ensures Reached() && steps == old(steps) + [Step(ClaimLeaseAction(target, provider, cred, seconds), now)]
    {
      hide Exec, IssueLease, FirstClaimable;
      if cred.required && cred.secret.None? {
        result := ClaimRefused(TokenRequired);
      } else if cred.required && target.None? {
        result := ClaimRefused(ScopeRequired);
      } else {
        var candidate := Candidate(runs, target, provider);
        if candidate.None? {
          result := NothingToClaim(target, provider, cred, now);
        } else {
          var r := candidate.value;
          var refusal := TokenRefusal(r, runs[r], cred, now);
          if refusal.Some? {
            result := ClaimRefused(refusal.value);
          } else {
            result := Leased(nextLease);
            TakeLease(r, cred.worker, seconds, now);
          }
        }
      }
      Made(Step(ClaimLeaseAction(target, provider, cred, seconds), now));
    }

    method NothingToClaim(target: Option<RunId>, provider: QueueProvider, cred: Credential, now: Time)
      returns (result: ClaimResult)
      ensures result == NoCandidate(runs, target, provider, cred, now)
    {
      if target.None? {
        return NoWork;
      }
      var r := target.value;
      if cred.required {
        if r >= |runs| {
          return ClaimRefused(TokenInvalid);
        }
        var refusal := TokenRefusal(r, runs[r], cred, now);
        if refusal.Some? {
          return ClaimRefused(refusal.value);
        }
      }
      if r < |runs| && runs[r].queueProvider == provider && runs[r].status.Running? && runs[r].completedAt.None? {
        if !cred.required {
          var refusal := TokenRefusal(r, runs[r], cred, now);
          if refusal.Some? {
            return ClaimRefused(refusal.value);
          }
        }
        if runs[r].leaseExpiresAt.Some? && runs[r].leaseExpiresAt.value >= now {
          return ActiveLease;
        }
      }
      return NoWork;
    }

    // ---- callbacks ----

    method HeartbeatCloudRunLease(lease: LeaseId, cred: Credential, seconds: nat, now: Time)
      returns (found: Resolution)
      requires Reached()
      modifies this
      ensures (View(), found) == HeartbeatLease(old(View()), lease, cred, seconds, now)
      ensures Reached() && steps == old(steps) + [Step(HeartbeatAction(lease, cred, seconds), now)]
    {
      hide Exec, Resolve;
      found := Resolve(runs, lease, cred, now);
      if found.Current? {
        var r := found.run;
        ghost var before := runs;
        runs := runs[r := runs[r].(heartbeatAt := Some(now))];
        runs := runs[r := runs[r].(leaseExpiresAt := Some(now + seconds * SECOND))];
        assert runs == before[r := before[r].(
          heartbeatAt := Some(now), leaseExpiresAt := Some(now + seconds * SECOND))];
        history := history + [Accepted(r, lease, Heartbeat)];
      }
      Made(Step(HeartbeatAction(lease, cred, seconds), now));
    }

    method UploadLeaseArtifact(lease: LeaseId, cred: Credential, stored: Option<(string, nat)>, now: Time)
      returns (found: Resolution)
      requires Reached()
      modifies this
      ensures (View(), found) == UploadArtifact(old(View()), lease, cred, stored, now)
      ensures Reached() && steps == old(steps) + [Step(UploadAction(lease, cred, stored), now)]
    {
      hide Exec, Resolve;
      found := Resolve(runs, lease, cred, now);
      if found.Current? && stored.Some? {
        objects := objects + [StoredObject(found.run, stored.value.0, stored.value.1)];
        history := history + [Accepted(found.run, lease, Upload)];
      }
      Made(Step(UploadAction(lease, cred, stored), now));
    }

    // ---- finalisation ----

    method MarkClaimedCloudRunCancelled(r: RunId, now: Time)
      requires r < |runs| == |locals|
      modifies this`runs, this`locals, budget
      ensures View() == MarkCancelled(old(View()), r, now)
    {
      hide SettleRun;
      ghost var before := runs;
      locals := locals[r := LocalRun(Cancelled, None, None)];
      runs := runs[r := runs[r].(status := Cancelled, patchArtifact := None, failureReason := None)];
      runs := runs[r := runs[r].(cancelRequested := true, cancelRequestedAt := OrNow(runs[r].cancelRequestedAt, now),
                                 cancelledAt := OrNow(runs[r].cancelledAt, now), completedAt := Some(now))];
      MarkTokenUsed(r, now);
      assert runs == before[r := CancelledRow(before[r], now)];
      SettleRunBudget(r, now);
    }

    method RecordResult(r: RunId, result: ExecutionResult, now: Time)
      requires r < |runs| == |locals|
      modifies this`runs, this`locals, this`artifacts
      ensures View() == Finished(old(View()), r, result, now)
    {
      ghost var before := View();
      if CreatesArtifact(result) {
        artifacts := artifacts + [r];
        locals := locals[r := locals[r].(patchArtifact := Some(|artifacts| - 1))];
        runs := runs[r := runs[r].(patchArtifact := Some(|artifacts| - 1))];
      }
      locals := locals[r := locals[r].(status := ResultStatus(result), failureReason := result.failureReason)];
      runs := runs[r := runs[r].(status := ResultStatus(result), failureReason := result.failureReason)];
      runs := runs[r := runs[r].(completedAt := Some(now))];
      ghost var after := Finished(before, r, result, now);
      assert runs == after.runs && locals == after.locals;
    }

    /** `how` tells how the call ends; a rejected transition is an exception of the source. */
    method FinalizeClaimedCloudRunResult(r: RunId, result: ExecutionResult, taskAllows: bool, now: Time)
      returns (how: Finalisation)
      requires r < |runs| == |locals|
      modifies this`runs, this`locals, this`artifacts, budget
      ensures (View(), how) == Finalize(old(View()), r, result, taskAllows, now)
    {
      hide SettleRun, Finished, MarkCancelled;
      if runs[r].cancelRequested {
        MarkClaimedCloudRunCancelled(r, now);
        return Closed;
      }
      if !(runs[r].status.Running? && runs[r].completedAt.None?) {
        return AlreadyClosed;
      }
      RecordResult(r, result, now);
      if CreatesArtifact(result) && !taskAllows {
        return TransitionRejected;
      }
      SettleRunBudget(r, now);
      return Closed;
    }

    method CompleteCloudRunLease(
        lease: LeaseId, cred: Credential, result: ExecutionResult, taskAllows: bool, now: Time)
      returns (found: Resolution)
      requires Reached()
      modifies this, budget
      ensures (View(), found) == CompleteLease(old(View()), lease, cred, result, taskAllows, now)
      ensures Reached() && steps == old(steps) + [Step(CompleteAction(lease, cred, result, taskAllows), now)]
    {
      hide Exec, Resolve, Finalize;
      found := Resolve(runs, lease, cred, now);
      if found.Current? {
        var r := found.run;
        MarkTokenUsed(r, now);
        var committedRuns, committedLocals, committedArtifacts := runs, locals, artifacts;
        ghost var accepted := View();
        var how := FinalizeClaimedCloudRunResult(r, result, taskAllows, now);
        if how.TransitionRejected? {
          RejectedChargesNothing(accepted, r, result, taskAllows, now);
          runs, locals, artifacts := committedRuns, committedLocals, committedArtifacts;
          history := history + [Accepted(r, lease, AbortedCompletion)];
        } else {
          history := history + [Accepted(r, lease, Completion)];
        }
      }
      Made(Step(CompleteAction(lease, cred, result, taskAllows), now));
    }

    // ---- local processing ----

    method ClaimCloudRun(r: RunId, worker: string, now: Time) returns (claimed: bool)
      requires Reached()
      modifies this
      ensures claimed <==> r < |old(runs)| && old(runs)[r].status.Queued?
      ensures View() == ClaimLocal(old(View()), r, worker, now)
      ensures Reached() && steps == old(steps) + [Step(ClaimLocalAction(r, worker), now)]
    {
      hide Exec;
      claimed := r < |runs| && runs[r].status.Queued?;
      if claimed {
        runs := runs[r := runs[r].(status := Running, worker := Some(worker), claimedAt := Some(now))];
        locals := locals[r := locals[r].(status := Running)];
        processing := processing + {r};
      }
      Made(Step(ClaimLocalAction(r, worker), now));
    }

    /** The rest of process_cloud_run, for the worker that claimed the run. */
    method ProcessClaimedCloudRun(r: RunId, outcome: LocalOutcome, now: Time)
      requires Reached() && r in processing && r < |runs|
      modifies this, budget
      ensures View() == FinishLocal(old(View()), r, outcome, now)
      ensures Reached() && steps == old(steps) + [Step(FinishLocalAction(r, outcome), now)]
    {
      hide Exec, Finalize, FailRun;
      processing := processing - {r};
      match outcome {
        case Preflight =>
          MarkClaimedCloudRunFailed(r, "cloud_run_preflight_failed", now);
        case Ran(result, taskAllows) =>
          var how := FinalizeClaimedCloudRunResult(r, result, taskAllows, now);
          if how.TransitionRejected? {
            MarkClaimedCloudRunFailed(r, "cloud_run_preflight_failed", now);
          }
      }
      Made(Step(FinishLocalAction(r, outcome), now));
    }

    // ---- expiry ----

    method ExpireLease(r: RunId, now: Time)
      requires r < |runs| == |locals|
      modifies this`runs, this`locals, this`history, budget
      ensures View() == ExpireRun(old(View()), r, now)
    {
      hide SettleRun;
      ghost var before := View();
      if runs[r].attemptCount >= runs[r].maxAttempts {
        MarkClaimedCloudRunFailed(r, "lease_attempts_exhausted", now);
      } else {
        runs := runs[r := runs[r].(status := Queued, worker := None, lease := None)];
        runs := runs[r := runs[r].(leaseExpiresAt := None, heartbeatAt := None)];
        assert runs == before.runs[r := RequeuedRow(before.runs[r])];
        locals := locals[r := locals[r].(status := Queued)];
      }
      history := history + [Expired(r)];
    }

    /** The loop over the rows that the expiry query returns. */
    method RequeueExpiredCloudRunLeases(provider: QueueProvider, limit: nat, now: Time) returns (changed: seq<RunId>)
      requires Reached()
      modifies this, budget
      ensures changed == ExpiredQuery(old(runs), provider, limit, now)
      ensures View() == RequeueExpired(old(View()), provider, limit, now)
      ensures Reached() && steps == old(steps) + [Step(RequeueAction(provider, limit), now)]
    {
      hide Exec, ExpireRun, ExpiredQuery;
      ghost var before := View();
      var expired := ExpiredQuery(runs, provider, limit, now);
      changed := [];
      for k := 0 to |expired|
        invariant View() == ExpireAll(before, expired[..k], now)
        invariant changed == expired[..k]
        invariant |runs| == |locals| == |before.runs| && steps == old(steps)
      {
        TakeOfTake(expired, k);
        TakeOneMore(expired, k);
        ExpireLease(expired[k], now);
        changed := changed + [expired[k]];
      }
      TakeAll(expired);
      Made(Step(RequeueAction(provider, limit), now));
    }

    // ---- cancellation ----

    /** The conditional update of a queued cancel. */
    method CancelQueuedCloudRun(r: RunId, now: Time) returns (cancelled: bool)
      requires r < |runs|
      modifies this`runs
      ensures cancelled <==> old(runs)[r].status.Queued?
      ensures runs == if cancelled then old(runs)[r := old(runs)[r].(
        status := Cancelled, cancelRequested := true, cancelRequestedAt := Some(now), cancelledAt := Some(now),
        completedAt := Some(now))] else old(runs)
    {
      cancelled := runs[r].status.Queued?;
      if cancelled {
        runs := runs[r := runs[r].(
          status := Cancelled, cancelRequested := true, cancelRequestedAt := Some(now), cancelledAt := Some(now),
          completedAt := Some(now))];
      }
    }

    method CancelCloudRun(r: RunId, now: Time)
      requires Reached()
      modifies this, budget
      ensures View() == CancelRun(old(View()), r, now)
      ensures Reached() && steps == old(steps) + [Step(CancelAction(r), now)]
    {
      hide Exec, ReleaseRun;
      if r < |runs| && !Terminal(runs[r].status) {
        ghost var before := runs;
        var cancelled := CancelQueuedCloudRun(r, now);
        if cancelled {
          MarkTokenUsed(r, now);
          assert runs == before[r := QueuedCancelRow(before[r], now)];
          locals := locals[r := locals[r].(status := Cancelled)];
          ReleaseRunReservation(r, now);
        } else if runs[r].status.Running? && runs[r].completedAt.None? {
          runs := runs[r := runs[r].(
            cancelRequested := true, cancelRequestedAt := OrNow(runs[r].cancelRequestedAt, now))];
        }
      }
      Made(Step(CancelAction(r), now));
    }

    // ---- stored objects and usage rows ----

    /** sync_cloud_run_log_stream; `synced` is what the runtime provider stored, if anything. */
    method SyncCloudRunLogStream(r: RunId, synced: Option<(string, nat)>, now: Time)
      requires Reached()
      modifies this
      ensures View() == SyncLog(old(View()), r, synced)
      ensures Reached() && steps == old(steps) + [Step(SyncLogAction(r, synced), now)]
    {
      hide Exec;
      if r < |runs| && runs[r].runtimeProvider.Some? && synced.Some? {
        var (uri, bytes) := synced.value;
        objects := objects + [StoredObject(r, uri, bytes)];
        runs := runs[r := runs[r].(logUri := Some(uri), logBytes := Some(bytes))];
      }
      Made(Step(SyncLogAction(r, synced), now));
    }

    method DeleteStoredObjects(doomed: set<nat>, now: Time)
      requires Reached()
      modifies this
      ensures View() == DropObjects(old(View()), doomed)
      ensures Reached() && steps == old(steps) + [Step(DropObjectsAction(doomed), now)]
    {
      hide Exec;
      var stored, kept: seq<StoredObject> := objects, [];
      for k := 0 to |stored|
        invariant kept == Surviving(stored[..k], doomed)
        invariant View() == old(View()) && |runs| == |locals| && steps == old(steps)
      {
        TakeOfTake(stored, k);
        if k !in doomed {
          kept := kept + [stored[k]];
        }
      }
      TakeAll(stored);
      objects := kept;
      Made(Step(DropObjectsAction(doomed), now));
    }

    /** append_usage_ledger_entry, in the order of its refusals. */
    method AppendUsage(req: UsageRequest, now: Time) returns (reply: UsageReply)
      requires Reached()
      modifies this, budget
      ensures (View(), reply) == AppendUsageEntry(old(View()), req)
      ensures Reached() && steps == old(steps) + [Step(AppendUsageAction(req), now)]
    {
      hide Exec, Appendable;
      if req.run.Some? && (req.run.value >= |runs| || runs[req.run.value].workspace != req.workspace) {
        reply := RunNotFound;
      } else if req.run.Some? && ((req.task.Some? && runs[req.run.value].task != req.task.value)
                                  || (req.project.Some? && runs[req.run.value].project != req.project.value)) {
        reply := RunMismatch;
      } else if req.run.Some? && SettlementOwned(req.usageType) {
        reply := SettlementOwnsType;
      } else {
        var project, task := req.project, req.task;
        if req.run.Some? {
          var run := runs[req.run.value];
          project, task := Or(project, Some(run.project)), Or(task, Some(run.task));
        }
        project := Or(project, req.plannerProject);
        var e := UsageEntry(req.workspace, project, task, req.run,
                            req.usageType, req.quantity, req.unitPrice, req.amount);
        assert e == EntryFor(runs, req);
        var appended := budget.AppendUsageLedgerEntry(e);
        reply := if appended then Appended else DuplicateUsage;
      }
      Made(Step(AppendUsageAction(req), now));
    }

    // ---- credits ----

    method GrantCredit(ws: WorkspaceId, cents: nat, now: Time)
      requires Reached()
      modifies this`steps, budget
      ensures Reached() && steps == old(steps) + [Step(GrantAction(ws, cents), now)]
    {
      hide Exec;
      budget.GrantManualCredit(ws, cents);
      Made(Step(GrantAction(ws, cents), now));
    }

    method SetSpendLimit(ws: WorkspaceId, monthly: nat, perRun: nat, now: Time)
      requires Reached()
      modifies this`steps, budget
      ensures Reached() && steps == old(steps) + [Step(LimitAction(ws, monthly, perRun), now)]
    {
      hide Exec;
      budget.SetWorkspaceSpendLimit(ws, monthly, perRun);
      Made(Step(LimitAction(ws, monthly, perRun), now));
    }
  }

  lemma RejectedChargesNothing(s: State, r: RunId, result: ExecutionResult, taskAllows: bool, now: Time)
    requires r < |s.runs| == |s.locals|
    requires Finalize(s, r, result, taskAllows, now).1.TransitionRejected?
    ensures var t := Finalize(s, r, result, taskAllows, now).0;
      s == t.(runs := s.runs, locals := s.locals, artifacts := s.artifacts)
  {
  }
}
