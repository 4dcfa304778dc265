/** What becomes of a run whose result arrives, from a lease or from a local worker. */
module RunResults {
  import opened Entities
  import opened Budgeting
  import opened CloudRunner
  import opened RunInvariants
  import opened RunSteps
  import opened LeaseFencing

  /** The result comes with a patch: it is ready, or a failed test left a diff behind. */
  predicate HasPatch(result: ExecutionResult) {
    result.ready
    || (result.failureReason == Some("test_failed") && result.filesChanged != [] && !result.diffBlank)
  }

  /** The run and its local run show the result, with a patch artifact of their own when it has
      a patch; the run is charged. */
  ghost predicate ShowsResult(s: State, t: State, r: RunId, result: ExecutionResult, now: Time)
    requires r < |s.runs| == |s.locals|
  {
    && |t.runs| == |t.locals| == |s.runs| == |t.books.reservations|
    && (t.runs[r].status == PatchReady <==> result.ready)
    && (t.runs[r].status == Failed <==> !result.ready)
    && t.locals[r].status == t.runs[r].status
    && t.runs[r].failureReason == t.locals[r].failureReason == result.failureReason
    && t.runs[r].completedAt == Some(now)
    && t.runs[r].patchArtifact == t.locals[r].patchArtifact
    && t.runs[r].patchArtifact == (if HasPatch(result) then Some(|s.artifacts|) else None)
    && t.artifacts == s.artifacts + (if HasPatch(result) then [r] else [])
    && t.books.reservations[r].status == ReservationStatus.Settled
  }

  /** The run and its local run are cancelled, without an artifact; the run is charged. */
  ghost predicate ShowsCancel(s: State, t: State, r: RunId, now: Time)
    requires r < |s.runs| == |s.locals|
  {
    && |t.runs| == |t.locals| == |s.runs| == |t.books.reservations|
    && t.runs[r].status == t.locals[r].status == Cancelled
    && t.runs[r].failureReason.None? && t.locals[r].failureReason.None?
    && t.runs[r].patchArtifact.None? && t.locals[r].patchArtifact.None?
    && t.runs[r].completedAt == Some(now) && t.runs[r].cancelledAt.Some?
    && t.artifacts == s.artifacts
    && t.books.reservations[r].status == ReservationStatus.Settled
  }

  ghost predicate ShowsFailure(s: State, t: State, r: RunId, reason: string, now: Time)
    requires r < |s.runs| == |s.locals|
  {
    && |t.runs| == |t.locals| == |s.runs| == |t.books.reservations|
    && t.runs[r].status == t.locals[r].status == Failed
    && t.runs[r].failureReason == t.locals[r].failureReason == Some(reason)
    && t.runs[r].completedAt == Some(now)
    && t.books.reservations[r].status == ReservationStatus.Settled
  }

  /** No other run, and none of its money, is touched. */
  ghost predicate OthersStay(s: State, t: State, r: RunId) {
    && |t.runs| == |t.locals| == |s.runs| == |s.locals|
    && |t.books.reservations| == |s.books.reservations| == |s.runs|
    && forall k :: 0 <= k < |s.runs| && k != r ==>
         t.runs[k] == s.runs[k] && t.locals[k] == s.locals[k] && t.books.reservations[k] == s.books.reservations[k]
  }

  /** What a settlement leaves alone. */
  lemma SettlingKeeps(s: State, r: RunId, now: Time)
    requires r < |s.runs| == |s.locals|
    ensures var t := SettleRun(s, r, now);
      && t.runs[r] == s.runs[r].(actualCost := t.runs[r].actualCost, costSummary := t.runs[r].costSummary)
      && t.locals == s.locals && t.artifacts == s.artifacts && t.objects == s.objects
      && t.processing == s.processing
      && (forall k :: 0 <= k < |s.runs| && k != r ==> t.runs[k] == s.runs[k])
  {
  }

  lemma FinalizeMeans(s: State, t: State, r: RunId, result: ExecutionResult, taskAllows: bool, now: Time)
    requires Accepting(s, t, r)
    ensures var (after, how) := Finalize(t, r, result, taskAllows, now);
      && |s.runs| == |s.locals|
      && (how.TransitionRejected? <==> !s.runs[r].cancelRequested && HasPatch(result) && !taskAllows)
      && (how.Closed? <==> !how.TransitionRejected?)
      && (how.Closed? ==> OthersStay(s, after, r) && after.processing == t.processing)
      && (how.Closed? && s.runs[r].cancelRequested ==> ShowsCancel(s, after, r, now))
      && (how.Closed? && !s.runs[r].cancelRequested ==> ShowsResult(s, after, r, result, now))
  {
    hide SettleRun;
    assert RunOk(s, r);
    FinalizeIsSound(s, t, r, result, taskAllows, now);
    var (after, how) := Finalize(t, r, result, taskAllows, now);
    SettlingKeeps(Put(t, r, CancelledRow(t.runs[r], now), LocalRun(Cancelled, None, None)), r, now);
    SettlingKeeps(Finished(t, r, result, now), r, now);
    if how.Closed? {
      assert RunOk(after, r) && Moves(s, after, r);
    }
  }

  /** An accepted completion uses up the run's token. A run that was asked to cancel is
      cancelled; a patch that the task does not allow leaves the run as it was; and in every
      other case the run shows the result: patch-ready exactly when the result is ready, failed
      exactly when it is not, with the reason of the result, and with an artifact exactly when
      there is a patch. */
  lemma CompletionMeans(
      steps: seq<Step>, lease: LeaseId, cred: Credential, result: ExecutionResult, taskAllows: bool, now: Time)
    requires Resolve(Exec(steps).runs, lease, cred, now).Current?
    ensures var s := Exec(steps);
      var (t, found) := CompleteLease(s, lease, cred, result, taskAllows, now);
      var r := found.run;
      && found == Resolve(s.runs, lease, cred, now)
      && OthersStay(s, t, r)
      && (s.runs[r].callback.Some? ==> t.runs[r].callback.Some? && t.runs[r].callback.value.usedAt == Some(now))
      && (if s.runs[r].cancelRequested then ShowsCancel(s, t, r, now)
          else if HasPatch(result) && !taskAllows then
            && t.runs[r] == s.runs[r].(callback := t.runs[r].callback)
            && t.locals == s.locals && t.artifacts == s.artifacts && t.books == s.books
          else ShowsResult(s, t, r, result, now))
  {
    hide Exec, Finalize, Resolve, HasPatch;
    Reachable(steps);
    var s := Exec(steps);
    ResolvedIsCurrent(s, lease, cred, now);
    var r := Resolve(s.runs, lease, cred, now).run;
    assert RunOk(s, r);
    var accepted := s.(runs := s.runs[r := s.runs[r].(callback := UseToken(s.runs[r].callback, now))]);
    FinalizeMeans(s, accepted, r, result, taskAllows, now);
    FinalizeKeepsToken(accepted, r, result, taskAllows, now);
  }

  /** Finalising does not touch a token that is already used. */
  lemma FinalizeKeepsToken(s: State, r: RunId, result: ExecutionResult, taskAllows: bool, now: Time)
    requires r < |s.runs| == |s.locals| && (s.runs[r].callback.Some? ==> s.runs[r].callback.value.usedAt.Some?)
    ensures Finalize(s, r, result, taskAllows, now).0.runs[r].callback == s.runs[r].callback
  {
    hide SettleRun;
    SettlingKeeps(Put(s, r, CancelledRow(s.runs[r], now), LocalRun(Cancelled, None, None)), r, now);
    SettlingKeeps(Finished(s, r, result, now), r, now);
  }

  lemma FailMeans(s: State, t: State, r: RunId, reason: string, now: Time)
    requires Failing(s, t, r) && |s.runs| == |s.locals|
    ensures var after := FailRun(t, r, reason, now);
      && ShowsFailure(s, after, r, reason, now) && OthersStay(s, after, r)
      && after.runs[r].patchArtifact == t.runs[r].patchArtifact
      && after.artifacts == t.artifacts && after.processing == t.processing
  {
    hide SettleRun;
    FailRunIsSound(s, t, r, reason, now);
    var after := FailRun(t, r, reason, now);
    SettlingKeeps(Put(t, r, FailedRow(t.runs[r], reason, now), FailedLocal(t.locals[r], reason)), r, now);
    assert RunOk(after, r) && Moves(s, after, r);
  }

  /** The rest of local processing. A preflight failure fails the run. A run that was asked to
      cancel is cancelled; a patch that the task does not allow fails the run and stays on
      record; and in every other case the run shows the result. */
  lemma LocalFinishMeans(steps: seq<Step>, r: RunId, outcome: LocalOutcome, now: Time)
    requires r in Exec(steps).processing
    ensures var s, t := Exec(steps), FinishLocal(Exec(steps), r, outcome, now);
      && r < |s.runs| && t.processing == s.processing - {r} && OthersStay(s, t, r)
      && match outcome
         case Preflight =>
           && ShowsFailure(s, t, r, "cloud_run_preflight_failed", now)
           && t.runs[r].patchArtifact.None? && t.artifacts == s.artifacts
         case Ran(result, taskAllows) =>
           if s.runs[r].cancelRequested then ShowsCancel(s, t, r, now)
           else if HasPatch(result) && !taskAllows then
             && ShowsFailure(s, t, r, "cloud_run_preflight_failed", now)
             && t.runs[r].patchArtifact == Some(|s.artifacts|) && t.artifacts == s.artifacts + [r]
           else ShowsResult(s, t, r, result, now)
  {
    hide Exec, Finalize, FailRun, ShowsResult, ShowsCancel;
    Reachable(steps);
    var s := Exec(steps);
    assert RunOk(s, r);
    var left := s.(processing := s.processing - {r});
    match outcome
    case Preflight => FailMeans(s, left, r, "cloud_run_preflight_failed", now);
    case Ran(result, taskAllows) =>
      FinalizeMeans(s, left, r, result, taskAllows, now);
      FinalizeIsSound(s, left, r, result, taskAllows, now);
      var (closed, how) := Finalize(left, r, result, taskAllows, now);
      if how.TransitionRejected? {
        FailMeans(s, closed, r, "cloud_run_preflight_failed", now);
      }
  }

  // ---- only a ready result makes a run patch-ready ----

  /** No run is patch-ready that was not before. */
  ghost predicate NoneBecomesReady(s: State, t: State) {
    forall r :: 0 <= r < |t.runs| && t.runs[r].status == PatchReady ==> r < |s.runs| && s.runs[r].status == PatchReady
  }

  lemma ExpiryMakesNoneReady(s: State, r: RunId, now: Time)
    requires r < |s.runs| == |s.locals|
    ensures NoneBecomesReady(s, ExpireRun(s, r, now))
  {
    hide SettleRun;
    var reason := "lease_attempts_exhausted";
    SettlingKeeps(Put(s, r, FailedRow(s.runs[r], reason, now), FailedLocal(s.locals[r], reason)), r, now);
  }

  lemma {:induction false} BatchMakesNoneReady(s: State, batch: seq<RunId>, now: Time)
    requires |s.runs| == |s.locals| && InTable(s.runs, batch)
    ensures NoneBecomesReady(s, ExpireAll(s, batch, now))
    decreases |batch|
  {
    hide ExpireRun;
    if batch != [] {
      BatchMakesNoneReady(s, batch[..|batch| - 1], now);
      ExpiryMakesNoneReady(ExpireAll(s, batch[..|batch| - 1], now), batch[|batch| - 1], now);
    }
  }

  lemma CancelMakesNoneReady(s: State, r: RunId, now: Time)
    requires |s.runs| == |s.locals|
    ensures NoneBecomesReady(s, CancelRun(s, r, now))
  {
  }

  lemma EnqueueMakesNoneReady(s: State, req: EnqueueRequest, now: Time)
    requires Inv(s)
    ensures NoneBecomesReady(s, Enqueue(s, req, now).0)
  {
    hide Inv, Enqueue;
    EnqueueIsSound(s, req, now);
  }

  lemma ClaimMakesNoneReady(
      s: State, target: Option<RunId>, provider: QueueProvider, cred: Credential, seconds: nat, now: Time)
    requires |s.runs| == |s.locals|
    ensures NoneBecomesReady(s, ClaimLease(s, target, provider, cred, seconds, now).0)
  {
    hide Candidate, NoCandidate, TokenRefusal;
  }

  lemma OtherStepsMakeNoneReady(s: State, step: Step)
    requires Inv(s) && |s.runs| == |s.locals|
    requires !step.action.CompleteAction? && !step.action.FinishLocalAction?
    ensures NoneBecomesReady(s, Next(s, step))
  {
    hide Inv, Enqueue, ClaimLease, CancelRun, ExpireAll, ExpiredQuery, Resolve;
    match step.action
    case EnqueueAction(req) => EnqueueMakesNoneReady(s, req, step.at);
    case ClaimLeaseAction(target, provider, cred, seconds) =>
      ClaimMakesNoneReady(s, target, provider, cred, seconds, step.at);
    case RequeueAction(provider, limit) =>
      BatchMakesNoneReady(s, ExpiredQuery(s.runs, provider, limit, step.at), step.at);
    case CancelAction(r) => CancelMakesNoneReady(s, r, step.at);
    case _ =>
  }

  /** The step finishes a running run that was not asked to cancel, with a ready result that the
      task allows: as a completion of the lease the run is out on, or as the end of its local
      processing. */
  ghost predicate BringsReadyResult(s: State, step: Step, r: RunId) {
    && r < |s.runs| && s.runs[r].status == Running && !s.runs[r].cancelRequested
    && match step.action
       case CompleteAction(lease, cred, result, taskAllows) =>
         Resolve(s.runs, lease, cred, step.at) == Current(r) && result.ready && taskAllows
       case FinishLocalAction(run, Ran(result, taskAllows)) =>
         run == r && r in s.processing && result.ready && taskAllows
       case _ => false
  }

  lemma CompletionBringsReady(steps: seq<Step>, step: Step, r: RunId)
    requires step.action.CompleteAction? && r < |Next(Exec(steps), step).runs|
    requires Next(Exec(steps), step).runs[r].status == PatchReady
    ensures r < |Exec(steps).runs|
    ensures Exec(steps).runs[r].status == PatchReady || BringsReadyResult(Exec(steps), step, r)
  {
    hide Exec, CompleteLease, Resolve, HasPatch;
    var CompleteAction(lease, cred, result, taskAllows) := step.action;
    var s := Exec(steps);
    Reachable(steps);
    if Resolve(s.runs, lease, cred, step.at).Current? {
      CompletionMeans(steps, lease, cred, result, taskAllows, step.at);
      ResolvedIsCurrent(s, lease, cred, step.at);
      assert result.ready ==> HasPatch(result) by {
        PatchOfReady(result);
      }
    } else {
      RefusedCompletion(s, lease, cred, result, taskAllows, step.at);
    }
  }

  lemma PatchOfReady(result: ExecutionResult)
    ensures result.ready ==> HasPatch(result)
  {
  }

  lemma RefusedCompletion(
      s: State, lease: LeaseId, cred: Credential, result: ExecutionResult, taskAllows: bool, now: Time)
    requires |s.runs| == |s.locals| && Resolve(s.runs, lease, cred, now).Refused?
    ensures CompleteLease(s, lease, cred, result, taskAllows, now) == (s, Resolve(s.runs, lease, cred, now))
  {
    hide Resolve;
  }

  lemma NotProcessing(s: State, r: RunId, outcome: LocalOutcome, now: Time)
    requires |s.runs| == |s.locals| && r !in s.processing
    ensures FinishLocal(s, r, outcome, now) == s
  {
  }

  lemma LocalFinishBringsReady(steps: seq<Step>, step: Step, r: RunId)
    requires step.action.FinishLocalAction? && r < |Next(Exec(steps), step).runs|
    requires Next(Exec(steps), step).runs[r].status == PatchReady
    ensures r < |Exec(steps).runs|
    ensures Exec(steps).runs[r].status == PatchReady || BringsReadyResult(Exec(steps), step, r)
  {
    hide Exec, HasPatch, FinishLocal;
    var FinishLocalAction(run, outcome) := step.action;
    var s := Exec(steps);
    if run in s.processing {
      Reachable(steps);
      assert RunOk(s, run);
      LocalFinishMeans(steps, run, outcome, step.at);
      if outcome.Ran? {
        PatchOfReady(outcome.result);
      }
    } else {
      NotProcessing(s, run, outcome, step.at);
    }
  }

  /** Step `i` of the history brought the run its ready result. */
  ghost predicate BroughtReady(steps: seq<Step>, i: nat, r: RunId) {
    i < |steps| && BringsReadyResult(Exec(steps[..i]), steps[i], r)
  }

  /** Every patch-ready run was closed by a ready result that the task allowed. */
  lemma {:induction false} PatchReadyWasReady(steps: seq<Step>, r: RunId) returns (i: nat)
    requires r < |Exec(steps).runs| && Exec(steps).runs[r].status == PatchReady
    ensures BroughtReady(steps, i, r)
    decreases |steps|
  {
    hide Next, BringsReadyResult;
    var init, last := steps[..|steps| - 1], steps[|steps| - 1];
    Reachable(init);
    match last.action {
      case CompleteAction(_, _, _, _) => CompletionBringsReady(init, last, r);
      case FinishLocalAction(_, _) => LocalFinishBringsReady(init, last, r);
      case _ => OtherStepsMakeNoneReady(Exec(init), last);
    }
    if Exec(init).runs[r].status == PatchReady {
      i := PatchReadyWasReady(init, r);
      assert init[..i] == steps[..i];
    } else {
      i := |init|;
    }
  }
}
