/** Where runs come from: every run was enqueued once, what the enqueue fixed stays fixed, and so
    every accepted callback of a protected run carried the secret of its enqueue.
 */
module RunOrigins {
  import opened Entities
  import opened Budgeting
  import opened CloudRunner
  import opened RunCredentials
  import opened RunInvariants
  import opened RunSteps
  import opened LeaseFencing
  import opened RunCallbacks

  /** What no step rewrites; of the callback token, only the used mark is ever set. */
  predicate SameOrigin(a: CloudRun, b: CloudRun) {
    && b.workspace == a.workspace && b.project == a.project && b.task == a.task
    && b.queueProvider == a.queueProvider && b.runtimeProvider == a.runtimeProvider
    && b.createdAt == a.createdAt && b.reservation == a.reservation && b.maxAttempts == a.maxAttempts
    && (a.callback.Some? <==> b.callback.Some?)
    && (a.callback.Some? ==>
          b.callback.value.hash == a.callback.value.hash && b.callback.value.expiresAt == a.callback.value.expiresAt)
  }

  ghost predicate KeepsOrigins(s: State, t: State) {
    |s.runs| == |t.runs| && forall r :: 0 <= r < |s.runs| ==> SameOrigin(s.runs[r], t.runs[r])
  }

  lemma SettleKeepsOrigins(s: State, r: RunId, now: Time)
    requires r < |s.runs| == |s.locals|
    ensures KeepsOrigins(s, SettleRun(s, r, now))
  {
  }

  lemma FailKeepsOrigins(s: State, r: RunId, reason: string, now: Time)
    requires r < |s.runs| == |s.locals|
    ensures KeepsOrigins(s, FailRun(s, r, reason, now))
  {
    hide SettleRun;
    SettleKeepsOrigins(Put(s, r, FailedRow(s.runs[r], reason, now), FailedLocal(s.locals[r], reason)), r, now);
  }

  lemma FinishedKeepsOrigins(s: State, r: RunId, result: ExecutionResult, now: Time)
    requires r < |s.runs| == |s.locals|
    ensures KeepsOrigins(s, Finished(s, r, result, now))
  {
  }

  lemma FinalizeKeepsOrigins(s: State, r: RunId, result: ExecutionResult, taskAllows: bool, now: Time)
    requires r < |s.runs| == |s.locals|
    ensures KeepsOrigins(s, Finalize(s, r, result, taskAllows, now).0)
  {
    hide SettleRun, Finished;
    FinishedKeepsOrigins(s, r, result, now);
    SettleKeepsOrigins(Put(s, r, CancelledRow(s.runs[r], now), LocalRun(Cancelled, None, None)), r, now);
    SettleKeepsOrigins(Finished(s, r, result, now), r, now);
  }

  lemma CompleteKeepsOrigins(
      s: State, lease: LeaseId, cred: Credential, result: ExecutionResult, taskAllows: bool, now: Time)
    requires |s.runs| == |s.locals|
    ensures KeepsOrigins(s, CompleteLease(s, lease, cred, result, taskAllows, now).0)
  {
    hide Finalize, Resolve;
    var found := Resolve(s.runs, lease, cred, now);
    if found.Current? {
      var r := found.run;
      var accepted := s.(runs := s.runs[r := s.runs[r].(callback := UseToken(s.runs[r].callback, now))]);
      FinalizeKeepsOrigins(accepted, r, result, taskAllows, now);
    }
  }

  lemma FinishLocalKeepsOrigins(s: State, r: RunId, outcome: LocalOutcome, now: Time)
    requires |s.runs| == |s.locals|
    ensures KeepsOrigins(s, FinishLocal(s, r, outcome, now))
  {
    hide Finalize, FailRun;
    if r in s.processing && r < |s.runs| {
      var left := s.(processing := s.processing - {r});
      match outcome
      case Preflight => FailKeepsOrigins(left, r, "cloud_run_preflight_failed", now);
      case Ran(result, taskAllows) =>
        FinalizeKeepsOrigins(left, r, result, taskAllows, now);
        FailKeepsOrigins(Finalize(left, r, result, taskAllows, now).0, r, "cloud_run_preflight_failed", now);
    }
  }

  lemma ExpireKeepsOrigins(s: State, r: RunId, now: Time)
    requires r < |s.runs| == |s.locals|
    ensures KeepsOrigins(s, ExpireRun(s, r, now))
  {
    hide FailRun;
    FailKeepsOrigins(s, r, "lease_attempts_exhausted", now);
  }

  lemma {:induction false} ExpireAllKeepsOrigins(s: State, batch: seq<RunId>, now: Time)
    requires |s.runs| == |s.locals| && InTable(s.runs, batch)
    ensures KeepsOrigins(s, ExpireAll(s, batch, now))
    decreases |batch|
  {
    hide ExpireRun;
    if batch != [] {
      ExpireAllKeepsOrigins(s, batch[..|batch| - 1], now);
      ExpireKeepsOrigins(ExpireAll(s, batch[..|batch| - 1], now), batch[|batch| - 1], now);
    }
  }

  lemma ReleaseKeepsOrigins(s: State, r: RunId, now: Time)
    requires r < |s.runs| == |s.locals|
    ensures KeepsOrigins(s, ReleaseRun(s, r, now))
  {
  }

  lemma CancelKeepsOrigins(s: State, r: RunId, now: Time)
    requires |s.runs| == |s.locals|
    ensures KeepsOrigins(s, CancelRun(s, r, now))
  {
    hide ReleaseRun;
    if r < |s.runs| {
      ReleaseKeepsOrigins(Put(s, r, QueuedCancelRow(s.runs[r], now), s.locals[r].(status := Cancelled)), r, now);
    }
  }

  lemma DispatchKeepsOrigins(s: State, r: RunId, req: EnqueueRequest, now: Time)
    requires r < |s.runs| == |s.locals|
    ensures KeepsOrigins(s, Dispatched(s, r, req, now).0)
  {
    hide ReleaseRun, FailRun;
    if SendsMessage(req) && req.queue.QueueError? {
      ReleaseKeepsOrigins(Put(s, r, FailedRow(s.runs[r], "queue_enqueue_failed", now),
                              FailedLocal(s.locals[r], "queue_enqueue_failed")), r, now);
    } else {
      var sent := if SendsMessage(req) then WithMessage(s, r, req.queue.message) else s;
      FailKeepsOrigins(sent, r, "runtime_submission_failed", now);
    }
  }

  /** The enqueue adds one run, with its token, to runs that stay as they are. */
  ghost predicate AddsRun(s: State, t: State, req: EnqueueRequest, at: Time) {
    && s.runs <= t.runs && |t.runs| == |s.runs| + 1
    && var run := t.runs[|s.runs|];
      && run.workspace == req.workspace && run.project == req.project && run.task == req.task
      && run.queueProvider == req.queueProvider && run.runtimeProvider == req.runtimeProvider
      && run.createdAt == at && TokenFor(req, |s.runs|, at, run.callback)
  }

  lemma EnqueueAddsRun(s: State, req: EnqueueRequest, at: Time)
    requires Inv(s)
    ensures var (t, result) := Enqueue(s, req, at);
      if result.PaymentRequired? then t == s else AddsRun(s, t, req, at)
  {
    hide Inv, Dispatched, Reserve;
    EnqueueIsSound(s, req, at);
    var (books, result) := Reserve(s.books, req.workspace, at);
    if result.ReservedAs? {
      var queued := WithNewRun(s, req, result.id, books, at);
      NewRunHasItsToken(req, |s.runs|, result.id, 100, at);
      DispatchKeepsOrigins(queued, |s.runs|, req, at);
      assert SameOrigin(queued.runs[|s.runs|], Enqueue(s, req, at).0.runs[|s.runs|]);
    }
  }

  lemma ClaimKeepsOrigins(
      s: State, target: Option<RunId>, provider: QueueProvider, cred: Credential, seconds: nat, now: Time)
    requires |s.runs| == |s.locals|
    ensures KeepsOrigins(s, ClaimLease(s, target, provider, cred, seconds, now).0)
  {
    hide Candidate, NoCandidate, TokenRefusal;
  }

  lemma HeartbeatKeepsOrigins(s: State, lease: LeaseId, cred: Credential, seconds: nat, now: Time)
    ensures KeepsOrigins(s, HeartbeatLease(s, lease, cred, seconds, now).0)
  {
    hide Resolve;
  }

  lemma NextKeepsOrigins(s: State, step: Step)
    requires |s.runs| == |s.locals| && !step.action.EnqueueAction?
    ensures KeepsOrigins(s, Next(s, step))
  {
    hide ClaimLease, HeartbeatLease, CompleteLease, FinishLocal, CancelRun, ExpireAll, ExpiredQuery, Resolve;
    match step.action
    case CompleteAction(lease, cred, result, taskAllows) =>
      CompleteKeepsOrigins(s, lease, cred, result, taskAllows, step.at);
    case ClaimLeaseAction(target, provider, cred, seconds) =>
      ClaimKeepsOrigins(s, target, provider, cred, seconds, step.at);
    case HeartbeatAction(lease, cred, seconds) => HeartbeatKeepsOrigins(s, lease, cred, seconds, step.at);
    case RequeueAction(provider, limit) =>
      ExpireAllKeepsOrigins(s, ExpiredQuery(s.runs, provider, limit, step.at), step.at);
    case FinishLocalAction(r, outcome) => FinishLocalKeepsOrigins(s, r, outcome, step.at);
    case CancelAction(r) => CancelKeepsOrigins(s, r, step.at);
    case _ =>
  }

  // ---- every run was enqueued ----

  /** The row still shows the request and the time it was enqueued with. */
  predicate ShowsRequest(req: EnqueueRequest, r: RunId, at: Time, run: CloudRun) {
    && run.workspace == req.workspace && run.project == req.project && run.task == req.task
    && run.queueProvider == req.queueProvider && run.runtimeProvider == req.runtimeProvider
    && run.createdAt == at && TokenFor(req, r, at, run.callback)
  }

  ghost predicate CameFrom(steps: seq<Step>, j: nat, r: RunId) {
    && j < |steps| && steps[j].action.EnqueueAction? && |Exec(steps[..j]).runs| == r < |Exec(steps).runs|
    && ShowsRequest(steps[j].action.req, r, steps[j].at, Exec(steps).runs[r])
  }

  lemma OriginStays(steps: seq<Step>, j: nat, r: RunId)
    requires steps != [] && CameFrom(steps[..|steps| - 1], j, r)
    requires var s, t := Exec(steps[..|steps| - 1]), Exec(steps);
      r < |t.runs| && SameOrigin(s.runs[r], t.runs[r])
    ensures CameFrom(steps, j, r)
  {
    hide Exec;
    assert steps[..|steps| - 1][..j] == steps[..j];
  }

  /** Every run was enqueued by one step of the history, and whatever has happened since, its row
      shows the workspace, task and providers of that request, and the token that the request
      gave it: none when no remote worker hands the run out, and otherwise one that is bound
      to its worker and its secret and expires after an hour. */
  lemma {:induction false} RunsComeFromEnqueues(steps: seq<Step>, r: RunId) returns (j: nat)
    requires r < |Exec(steps).runs|
    ensures CameFrom(steps, j, r)
    decreases |steps|
  {
    hide Next, ShowsRequest, SameOrigin;
    var init, last := steps[..|steps| - 1], steps[|steps| - 1];
    Reachable(init);
    var s := Exec(init);
    if last.action.EnqueueAction? {
      EnqueueStepAdds(s, last);
    } else {
      NextKeepsOrigins(s, last);
    }
    if r < |s.runs| {
      j := RunsComeFromEnqueues(init, r);
      OriginStays(steps, j, r);
    } else {
      j := |init|;
    }
  }

  lemma EnqueueStepAdds(s: State, step: Step)
    requires Inv(s) && step.action.EnqueueAction?
    ensures var t := Next(s, step);
      && |s.runs| <= |t.runs| <= |s.runs| + 1
      && (forall k :: 0 <= k < |s.runs| ==> SameOrigin(s.runs[k], t.runs[k]))
      && (|t.runs| > |s.runs| ==> ShowsRequest(step.action.req, |s.runs|, step.at, t.runs[|s.runs|]))
  {
    hide Inv, Enqueue, TokenFor;
    EnqueueAddsRun(s, step.action.req, step.at);
  }

  // ---- callbacks of protected runs ----

  /** The lease and the credential that a callback presents. */
  function Presented(action: Action): Option<(LeaseId, Credential)> {
    match action
    case HeartbeatAction(lease, cred, _) => Some((lease, cred))
    case UploadAction(lease, cred, _) => Some((lease, cred))
    case CompleteAction(lease, cred, _, _) => Some((lease, cred))
    case _ => None
  }

  /** The step is a callback that resolves to the run of the event, under its lease. */
  ghost predicate Makes(s: State, step: Step, e: Event) {
    && e.Accepted? && Presented(step.action).Some? && Presented(step.action).value.0 == e.lease
    && Resolve(s.runs, e.lease, Presented(step.action).value.1, step.at) == Current(e.run)
  }

  /** The events that a step adds. */
  ghost predicate Adds(s: State, step: Step, t: State) {
    && s.history <= t.history
    && forall k :: |s.history| <= k < |t.history| && t.history[k].Accepted? ==> Makes(s, step, t.history[k])
  }

  lemma {:induction false} ExpiryAddsExpiries(s: State, batch: seq<RunId>, now: Time)
    requires |s.runs| == |s.locals| && InTable(s.runs, batch)
    ensures var t := ExpireAll(s, batch, now);
      s.history <= t.history && forall k :: |s.history| <= k < |t.history| ==> t.history[k].Expired?
    decreases |batch|
  {
    hide FailRun;
    if batch != [] {
      var mid := ExpireAll(s, batch[..|batch| - 1], now);
      ExpiryAddsExpiries(s, batch[..|batch| - 1], now);
      FailRunKeepsLease(mid, batch[|batch| - 1], "lease_attempts_exhausted", now);
    }
  }

  lemma CompletionAdds(s: State, step: Step)
    requires |s.runs| == |s.locals| && step.action.CompleteAction?
    ensures Adds(s, step, Next(s, step))
  {
    hide Finalize, Resolve;
    var CompleteAction(lease, cred, result, taskAllows) := step.action;
    var found := Resolve(s.runs, lease, cred, step.at);
    if found.Current? {
      var r := found.run;
      var accepted := s.(runs := s.runs[r := s.runs[r].(callback := UseToken(s.runs[r].callback, step.at))]);
      FinalizeKeepsLease(accepted, r, result, taskAllows, step.at);
    }
  }

  lemma FinishAddsNothing(s: State, r: RunId, outcome: LocalOutcome, now: Time)
    requires |s.runs| == |s.locals|
    ensures FinishLocal(s, r, outcome, now).history == s.history
  {
    if r < |s.runs| {
      FinishLocalKeepsLease(s, r, outcome, now);
    }
  }

  lemma StepAdds(s: State, step: Step)
    requires Inv(s) && |s.runs| == |s.locals|
    ensures Adds(s, step, Next(s, step))
  {
    hide Inv, Enqueue, CompleteLease, FinishLocal, ExpireAll, ExpiredQuery, Resolve, Candidate;
    match step.action
    case EnqueueAction(req) => EnqueueIsSound(s, req, step.at);
    case CompleteAction(_, _, _, _) => CompletionAdds(s, step);
    case RequeueAction(provider, limit) =>
      ExpiryAddsExpiries(s, ExpiredQuery(s.runs, provider, limit, step.at), step.at);
    case FinishLocalAction(r, outcome) => FinishAddsNothing(s, r, outcome, step.at);
    case _ =>
  }

  /** Step `i` of the history is the callback that the event records; if step `j`, which enqueued
      its run, made it a protected one, the callback came from the worker named for it, with
      the secret of the enqueue, within the hour. */
  ghost predicate CarriedSecret(steps: seq<Step>, i: nat, j: nat, e: Event) {
    && j < i < |steps| && Makes(Exec(steps[..i]), steps[i], e)
    && CameFrom(steps[..i], j, e.run)
    && var req, cred := steps[j].action.req, Presented(steps[i].action).value.1;
      IsProtected(req) ==>
        cred.secret == Some(req.secret) && NamesWorker(req, e.run, cred.worker)
        && steps[i].at <= steps[j].at + 3600 * SECOND
  }

  lemma MadeWithSecret(steps: seq<Step>, step: Step, e: Event) returns (j: nat)
    requires Makes(Exec(steps), step, e)
    ensures CarriedSecret(steps + [step], |steps|, j, e)
  {
    hide Exec, Resolve;
    var (lease, cred) := Presented(step.action).value;
    AcceptedExactly(steps, e.run, lease, cred, step.at);
    j := RunsComeFromEnqueues(steps, e.run);
    assert (steps + [step])[..|steps|] == steps;
  }

  lemma CarriedStays(steps: seq<Step>, step: Step, i: nat, j: nat, e: Event)
    requires CarriedSecret(steps, i, j, e)
    ensures CarriedSecret(steps + [step], i, j, e)
  {
    hide Exec, Makes, CameFrom;
    assert (steps + [step])[..i] == steps[..i];
  }

  /** Every accepted heartbeat, upload and completion in the history of a protected run carried
      the secret of its enqueue. */
  lemma {:induction false} AcceptedCarriedItsSecret(steps: seq<Step>, k: nat) returns (i: nat, j: nat)
    requires k < |Exec(steps).history| && Exec(steps).history[k].Accepted?
    ensures CarriedSecret(steps, i, j, Exec(steps).history[k])
    decreases |steps|
  {
    hide Next, Makes;
    var init, last := steps[..|steps| - 1], steps[|steps| - 1];
    assert steps == init + [last];
    Reachable(init);
    StepAdds(Exec(init), last);
    if k < |Exec(init).history| {
      i, j := AcceptedCarriedItsSecret(init, k);
      CarriedStays(init, last, i, j, Exec(steps).history[k]);
    } else {
      i := |init|;
      j := MadeWithSecret(init, last, Exec(steps).history[k]);
    }
  }
}
