/** Fencing of worker callbacks by leases, over whole histories. */
module LeaseFencing {
  import opened Entities
  import opened Budgeting
  import opened CloudRunner
  import opened RunInvariants
  import opened RunQueries
  import opened RunSteps
  import opened RunTheorems

  /** The lease a run is out on, read off the trace alone. */
  ghost function Holder(h: seq<Event>, r: RunId): Option<LeaseId> {
    if h == [] then None
    else match h[|h| - 1]
      case Issued(run, lease) => if run == r then Some(lease) else Holder(h[..|h| - 1], r)
      case Accepted(run, _, kind) => if run == r && kind.Completion? then None else Holder(h[..|h| - 1], r)
      case Expired(run) => if run == r then None else Holder(h[..|h| - 1], r)
  }

  predicate EndsHold(e: Event, r: RunId) {
    e.run == r && (e.Issued? || e.Expired? || (e.Accepted? && e.kind.Completion?))
  }

  lemma {:induction false} HolderMeans(h: seq<Event>, r: RunId, lease: LeaseId)
    requires Holder(h, r) == Some(lease)
    ensures exists i :: 0 <= i < |h| && h[i] == Issued(r, lease)
              && forall m :: i < m < |h| ==> !EndsHold(h[m], r)
    decreases |h|
  {
    if h[|h| - 1] != Issued(r, lease) {
      var g := h[..|h| - 1];
      HolderMeans(g, r, lease);
      var i :| 0 <= i < |g| && g[i] == Issued(r, lease) && forall m :: i < m < |g| ==> !EndsHold(g[m], r);
      assert forall m :: 0 <= m < |g| ==> h[m] == g[m];
      assert h[i] == Issued(r, lease);
    }
  }

  /** The lease a row is out on. */
  function OutOn(run: CloudRun): Option<LeaseId> {
    if run.status.Running? then run.lease else None
  }

  predicate TokenSpent(run: CloudRun) {
    run.callback.Some? && run.callback.value.usedAt.Some?
  }

  ghost predicate LeasesOk(s: State) {
    && (forall r :: 0 <= r < |s.runs| && s.runs[r].lease.Some? ==> s.runs[r].lease.value < s.nextLease)
    && (forall q, r :: 0 <= q < r < |s.runs| && s.runs[q].lease.Some? ==> s.runs[q].lease != s.runs[r].lease)
    && (forall r :: 0 <= r < |s.runs| ==> Holder(s.history, r) == OutOn(s.runs[r]))
  }

  ghost predicate TraceOk(s: State) {
    var h := s.history;
    && (forall k :: 0 <= k < |h| ==> h[k].run < |s.runs|)
    && (forall k :: 0 <= k < |h| && h[k].Issued? ==> h[k].lease < s.nextLease)
    && (forall i, k :: 0 <= i < k < |h| && h[i].Issued? && h[k].Issued? ==> h[i].lease < h[k].lease)
    && (forall k :: 0 <= k < |h| && h[k].Accepted? ==> Holder(h[..k], h[k].run) == Some(h[k].lease))
  }

  predicate Completes(e: Event) {
    e.Accepted? && e.kind.Completion?
  }

  predicate Aborts(e: Event) {
    e.Accepted? && e.kind.AbortedCompletion?
  }

  /** A completed run is closed, and nothing of it follows the completion. */
  ghost predicate CompletionsOk(s: State) {
    var h := s.history;
    && (forall i :: 0 <= i < |h| && Completes(h[i]) && h[i].run < |s.runs| ==> Terminal(s.runs[h[i].run].status))
    && (forall i, k :: 0 <= i < k < |h| && Completes(h[i]) ==> h[k].run != h[i].run)
  }

  /** After a rejected completion the token is used up, and only an expiry can follow. */
  ghost predicate AbortsOk(s: State) {
    var h := s.history;
    && (forall i :: 0 <= i < |h| && Aborts(h[i]) && h[i].run < |s.runs| && s.runs[h[i].run].callback.Some? ==>
          TokenSpent(s.runs[h[i].run]))
    && (forall i, k :: (0 <= i < k < |h| && Aborts(h[i]) && h[i].run < |s.runs|
                        && s.runs[h[i].run].callback.Some? && h[k].run == h[i].run) ==> h[k].Expired?)
  }

  ghost predicate Fenced(s: State) {
    LeasesOk(s) && TraceOk(s) && CompletionsOk(s) && AbortsOk(s)
  }

  // ---- steps that add no event ----

  ghost predicate Quiet(s: State, t: State) {
    && t.history == s.history && t.nextLease == s.nextLease
    && |s.runs| <= |t.runs|
    && (forall r :: 0 <= r < |s.runs| ==> t.runs[r].lease == s.runs[r].lease && OutOn(t.runs[r]) == OutOn(s.runs[r]))
    && (forall r :: |s.runs| <= r < |t.runs| ==> t.runs[r].lease.None?)
  }

  lemma {:induction false} StrangersHoldNothing(h: seq<Event>, r: RunId)
    requires forall k :: 0 <= k < |h| ==> h[k].run != r
    ensures Holder(h, r).None?
    decreases |h|
  {
    if h != [] {
      StrangersHoldNothing(h[..|h| - 1], r);
    }
  }

  /** Closed runs stay closed and used tokens stay used. */
  ghost predicate OnlyForward(s: State, t: State) {
    |s.runs| <= |t.runs| && forall r :: 0 <= r < |s.runs| ==>
      && (Terminal(s.runs[r].status) ==> Terminal(t.runs[r].status))
      && (s.runs[r].callback.Some? <==> t.runs[r].callback.Some?)
      && (TokenSpent(s.runs[r]) ==> TokenSpent(t.runs[r]))
  }

  lemma SoundIsForward(s: State, t: State)
    requires Inv(s) && Sound(s, t)
    ensures OnlyForward(s, t)
  {
    forall r | 0 <= r < |s.runs|
      ensures Terminal(s.runs[r].status) ==> Terminal(t.runs[r].status)
      ensures s.runs[r].callback.Some? <==> t.runs[r].callback.Some?
      ensures TokenSpent(s.runs[r]) ==> TokenSpent(t.runs[r])
    {
      assert Moves(s, t, r);
    }
  }

  lemma QuietKeepsFence(s: State, t: State)
    requires Inv(s) && Fenced(s) && Sound(s, t) && Quiet(s, t)
    ensures Fenced(t)
  {
    forall r | 0 <= r < |t.runs| ensures Holder(t.history, r) == OutOn(t.runs[r]) {
      if r >= |s.runs| {
        StrangersHoldNothing(s.history, r);
      }
    }
    SoundIsForward(s, t);
  }

  // ---- steps that add one event ----

  ghost predicate Loud(s: State, t: State, e: Event) {
    && t.history == s.history + [e] && |t.runs| == |s.runs| && e.run < |s.runs|
    && (forall k :: 0 <= k < |s.runs| && k != e.run ==>
          t.runs[k].lease == s.runs[k].lease && OutOn(t.runs[k]) == OutOn(s.runs[k]))
    && !Terminal(s.runs[e.run].status)
    && (e.Issued? ==> e.lease == s.nextLease && t.nextLease == e.lease + 1
                      && t.runs[e.run].lease == Some(e.lease) == OutOn(t.runs[e.run]))
    && (!e.Issued? ==> t.nextLease == s.nextLease
                       && (t.runs[e.run].lease.None? || t.runs[e.run].lease == s.runs[e.run].lease))
    && (!e.Expired? ==> !TokenSpent(s.runs[e.run]))
    && (e.Accepted? ==> OutOn(s.runs[e.run]) == Some(e.lease))
    && (Completes(e) ==> Terminal(t.runs[e.run].status))
    && (e.Accepted? && !Completes(e) ==> OutOn(t.runs[e.run]) == Some(e.lease))
    && (Aborts(e) && t.runs[e.run].callback.Some? ==> TokenSpent(t.runs[e.run]))
    && (e.Expired? ==> OutOn(t.runs[e.run]).None?)
  }

  lemma LoudKeepsLeases(s: State, t: State, e: Event)
    requires LeasesOk(s) && Loud(s, t, e)
    ensures LeasesOk(t)
  {
    assert t.history[..|t.history| - 1] == s.history;
    forall r | 0 <= r < |t.runs| ensures Holder(t.history, r) == OutOn(t.runs[r]) {
    }
  }

  lemma LoudKeepsTrace(s: State, t: State, e: Event)
    requires LeasesOk(s) && TraceOk(s) && Loud(s, t, e)
    ensures TraceOk(t)
  {
    var h, h' := s.history, t.history;
    forall k | 0 <= k < |h'| && h'[k].Accepted?
      ensures Holder(h'[..k], h'[k].run) == Some(h'[k].lease)
    {
      assert h'[..k] == h[..k];
      if k == |h| {
        assert h[..k] == h;
      }
    }
  }

  lemma LoudKeepsCompletions(s: State, t: State, e: Event)
    requires TraceOk(s) && CompletionsOk(s) && OnlyForward(s, t) && Loud(s, t, e)
    ensures CompletionsOk(t)
  {
    hide TokenSpent;
    var h, h' := s.history, t.history;
    assert forall k :: 0 <= k < |h| ==> h'[k] == h[k];
  }

  lemma LoudKeepsAborts(s: State, t: State, e: Event)
    requires TraceOk(s) && AbortsOk(s) && OnlyForward(s, t) && Loud(s, t, e)
    ensures AbortsOk(t)
  {
    var h, h' := s.history, t.history;
    assert forall k :: 0 <= k < |h| ==> h'[k] == h[k];
  }

  lemma LoudKeepsFence(s: State, t: State, e: Event)
    requires Inv(s) && Fenced(s) && Sound(s, t) && Loud(s, t, e)
    ensures Fenced(t)
  {
    hide Loud, Sound, LeasesOk, TraceOk, CompletionsOk, AbortsOk, OnlyForward;
    SoundIsForward(s, t);
    LoudKeepsLeases(s, t, e);
    LoudKeepsTrace(s, t, e);
    LoudKeepsCompletions(s, t, e);
    LoudKeepsAborts(s, t, e);
  }

  // ---- the steps ----

  /** What an accepted callback proves about the row it is resolved to. */
  lemma ResolvedIsCurrent(s: State, lease: LeaseId, cred: Credential, now: Time)
    requires Inv(s)
    ensures var found := Resolve(s.runs, lease, cred, now);
      found.Current? ==>
        var run := s.runs[found.run];
        && OutOn(run) == Some(lease) && run.worker == Some(cred.worker)
        && LeaseAcceptable(run, now) && !TokenSpent(run)
  {
  }

  /** Finalising changes neither the trace, nor a lease column, nor another run. */
  lemma FinalizeKeepsLease(s: State, r: RunId, result: ExecutionResult, taskAllows: bool, now: Time)
    requires r < |s.runs| == |s.locals|
    ensures var t := Finalize(s, r, result, taskAllows, now).0;
      && t.history == s.history && t.nextLease == s.nextLease && |t.runs| == |s.runs|
      && t.runs[r].lease == s.runs[r].lease
      && forall k :: 0 <= k < |s.runs| && k != r ==> t.runs[k] == s.runs[k]
  {
  }

  /** A completion that closes the run. */
  lemma ClosingIsLoud(s: State, closed: State, r: RunId, lease: LeaseId)
    requires Inv(s) && r < |s.runs| && OutOn(s.runs[r]) == Some(lease) && !TokenSpent(s.runs[r])
    requires Sound(s, closed) && OnlyRun(s, closed, r) && Terminal(closed.runs[r].status)
    requires closed.history == s.history && closed.nextLease == s.nextLease
    requires closed.runs[r].lease == s.runs[r].lease
    ensures Sound(s, Record(closed, Accepted(r, lease, Completion)))
    ensures Loud(s, Record(closed, Accepted(r, lease, Completion)), Accepted(r, lease, Completion))
  {
    SameRows(s, closed, Record(closed, Accepted(r, lease, Completion)));
  }

  lemma CompleteKeepsFence(
      s: State, lease: LeaseId, cred: Credential, result: ExecutionResult, taskAllows: bool, now: Time)
    requires Inv(s) && Fenced(s)
    ensures Fenced(CompleteLease(s, lease, cred, result, taskAllows, now).0)
  {
    hide Fenced, Sound, OnlyRun, Finalize, Resolve;
    var found := Resolve(s.runs, lease, cred, now);
    if found.Current? {
      var r := found.run;
      ResolvedIsCurrent(s, lease, cred, now);
      CompleteIsSound(s, lease, cred, result, taskAllows, now);
      var accepted := s.(runs := s.runs[r := s.runs[r].(callback := UseToken(s.runs[r].callback, now))]);
      CompletesSoundly(s, accepted, r, result, taskAllows, now);
      var (closed, how) := Finalize(accepted, r, result, taskAllows, now);
      if how.TransitionRejected? {
        var e := Accepted(r, lease, AbortedCompletion);
        LoudKeepsFence(s, Record(accepted, e), e);
      } else {
        ClosingIsLoud(s, closed, r, lease);
        LoudKeepsFence(s, Record(closed, Accepted(r, lease, Completion)), Accepted(r, lease, Completion));
      }
    }
  }

  lemma CompletesSoundly(s: State, accepted: State, r: RunId, result: ExecutionResult, taskAllows: bool, now: Time)
    requires Inv(s) && r < |s.runs| && s.runs[r].status.Running? && s.runs[r].lease.Some?
    requires accepted == s.(runs := s.runs[r := s.runs[r].(callback := UseToken(s.runs[r].callback, now))])
    ensures var (closed, how) := Finalize(accepted, r, result, taskAllows, now);
      && !how.AlreadyClosed?
      && (how.Closed? ==>
            && Sound(s, closed) && OnlyRun(s, closed, r) && Terminal(closed.runs[r].status)
            && closed.history == s.history && closed.nextLease == s.nextLease
            && closed.runs[r].lease == s.runs[r].lease)
  {
    assert RunOk(s, r);
    FinalizeIsSound(s, accepted, r, result, taskAllows, now);
    FinalizeKeepsLease(accepted, r, result, taskAllows, now);
  }

  lemma ExpireRunKeepsFence(s: State, r: RunId, now: Time)
    requires Inv(s) && Fenced(s) && r < |s.runs| && s.runs[r].status.Running? && s.runs[r].lease.Some?
    ensures Fenced(ExpireRun(s, r, now))
  {
    hide Fenced, Sound;
    ExpireRunIsSound(s, r, now);
    LoudKeepsFence(s, ExpireRun(s, r, now), Expired(r));
  }

  lemma {:induction false} ExpireAllKeepsFence(s: State, batch: seq<RunId>, provider: QueueProvider, now: Time)
    requires Inv(s) && Fenced(s) && ExpiredBatch(s, batch, provider, now)
    ensures Fenced(ExpireAll(s, batch, now))
    decreases |batch|
  {
    if batch != [] {
      var init, last := batch[..|batch| - 1], batch[|batch| - 1];
      ExpireAllKeepsFence(s, init, provider, now);
      ExpireAllIsSound(s, init, provider, now);
      assert last !in init && RunOk(s, last);
      ExpireRunKeepsFence(ExpireAll(s, init, now), last, now);
    }
  }

  lemma IssueIsLoud(s: State, r: RunId, worker: string, seconds: nat, now: Time)
    requires r < |s.runs| == |s.locals| && s.runs[r].status.Queued? && !TokenSpent(s.runs[r])
    ensures Loud(s, IssueLease(s, r, worker, seconds, now), Issued(r, s.nextLease))
  {
  }

  lemma ClaimLeaseKeepsFence(
      s: State, target: Option<RunId>, provider: QueueProvider, cred: Credential, seconds: nat, now: Time)
    requires Inv(s) && Fenced(s)
    ensures Fenced(ClaimLease(s, target, provider, cred, seconds, now).0)
  {
    hide Fenced, Sound, IssueLease, Loud, Candidate;
    var (t, result) := ClaimLease(s, target, provider, cred, seconds, now);
    if result.Leased? {
      var r := Candidate(s.runs, target, provider).value;
      ClaimLeaseIsSound(s, target, provider, cred, seconds, now);
      IssueIsLoud(s, r, cred.worker, seconds, now);
      LoudKeepsFence(s, t, Issued(r, s.nextLease));
    }
  }

  lemma HeartbeatKeepsFence(s: State, lease: LeaseId, cred: Credential, seconds: nat, now: Time)
    requires Inv(s) && Fenced(s)
    ensures Fenced(HeartbeatLease(s, lease, cred, seconds, now).0)
  {
    hide Fenced, Sound, Resolve;
    var (t, found) := HeartbeatLease(s, lease, cred, seconds, now);
    if found.Current? {
      ResolvedIsCurrent(s, lease, cred, now);
      HeartbeatIsSound(s, lease, cred, seconds, now);
      LoudKeepsFence(s, t, Accepted(found.run, lease, Heartbeat));
    }
  }

  lemma UploadKeepsFence(s: State, lease: LeaseId, cred: Credential, stored: Option<(string, nat)>, now: Time)
    requires Inv(s) && Fenced(s)
    ensures Fenced(UploadArtifact(s, lease, cred, stored, now).0)
  {
    hide Fenced, Resolve;
    var (t, found) := UploadArtifact(s, lease, cred, stored, now);
    if found.Current? && stored.Some? {
      ResolvedIsCurrent(s, lease, cred, now);
      NothingMoves(s, t);
      LoudKeepsFence(s, t, Accepted(found.run, lease, Upload));
    }
  }

  lemma ClaimLocalKeepsFence(s: State, r: RunId, worker: string, now: Time)
    requires Inv(s) && Fenced(s)
    ensures Fenced(ClaimLocal(s, r, worker, now))
  {
    hide Fenced, Sound;
    if r < |s.runs| {
      assert RunOk(s, r);
      ClaimLocalIsSound(s, r, worker, now);
      QuietKeepsFence(s, ClaimLocal(s, r, worker, now));
    }
  }

  lemma FailRunKeepsLease(s: State, r: RunId, reason: string, now: Time)
    requires r < |s.runs| == |s.locals|
    ensures var t := FailRun(s, r, reason, now);
      && t.history == s.history && t.nextLease == s.nextLease && |t.runs| == |s.runs|
      && t.runs[r].lease == s.runs[r].lease
      && forall k :: 0 <= k < |s.runs| && k != r ==> t.runs[k] == s.runs[k]
  {
  }

  lemma FinishLocalKeepsLease(s: State, r: RunId, outcome: LocalOutcome, now: Time)
    requires r < |s.runs| == |s.locals|
    ensures var t := FinishLocal(s, r, outcome, now);
      && t.history == s.history && t.nextLease == s.nextLease && |t.runs| == |s.runs|
      && t.runs[r].lease == s.runs[r].lease
      && forall k :: 0 <= k < |s.runs| && k != r ==> t.runs[k] == s.runs[k]
  {
    hide FailRun, Finalize;
    if r in s.processing {
      var left := s.(processing := s.processing - {r});
      match outcome {
        case Preflight =>
          FailRunKeepsLease(left, r, "cloud_run_preflight_failed", now);
        case Ran(result, taskAllows) =>
          FinalizeKeepsLease(left, r, result, taskAllows, now);
          FailRunKeepsLease(Finalize(left, r, result, taskAllows, now).0, r, "cloud_run_preflight_failed", now);
      }
    }
  }

  lemma FinishLocalKeepsFence(s: State, r: RunId, outcome: LocalOutcome, now: Time)
    requires Inv(s) && Fenced(s)
    ensures Fenced(FinishLocal(s, r, outcome, now))
  {
    hide Fenced, Sound;
    if r in s.processing {
      assert RunOk(s, r);
      FinishLocalIsSound(s, r, outcome, now);
      FinishLocalKeepsLease(s, r, outcome, now);
      QuietKeepsFence(s, FinishLocal(s, r, outcome, now));
    }
  }

  lemma CancelKeepsFence(s: State, r: RunId, now: Time)
    requires Inv(s) && Fenced(s)
    ensures Fenced(CancelRun(s, r, now))
  {
    hide Fenced, Sound;
    if r < |s.runs| {
      assert RunOk(s, r);
      CancelIsSound(s, r, now);
      QuietKeepsFence(s, CancelRun(s, r, now));
    }
  }

  lemma EnqueueKeepsFence(s: State, req: EnqueueRequest, now: Time)
    requires Inv(s) && Fenced(s)
    ensures Fenced(Enqueue(s, req, now).0)
  {
    hide Enqueue, Fenced;
    EnqueueIsSound(s, req, now);
    QuietKeepsFence(s, Enqueue(s, req, now).0);
  }

  lemma BooksKeepFence(s: State, books: Books)
    requires Inv(s) && Fenced(s) && books.reservations == s.books.reservations
    ensures Fenced(s.(books := books))
  {
    NothingMoves(s, s.(books := books));
    QuietKeepsFence(s, s.(books := books));
  }

  lemma ClaimLeaseStep(s: State, step: Step)
    requires Inv(s) && Fenced(s) && step.action.ClaimLeaseAction?
    ensures Fenced(Next(s, step))
  {
    hide Fenced, Inv;
    var ClaimLeaseAction(target, provider, cred, seconds) := step.action;
    ClaimLeaseKeepsFence(s, target, provider, cred, seconds, step.at);
  }

  lemma HeartbeatStep(s: State, step: Step)
    requires Inv(s) && Fenced(s) && step.action.HeartbeatAction?
    ensures Fenced(Next(s, step))
  {
    hide Fenced, Inv;
    var HeartbeatAction(lease, cred, seconds) := step.action;
    HeartbeatKeepsFence(s, lease, cred, seconds, step.at);
  }

  lemma UploadStep(s: State, step: Step)
    requires Inv(s) && Fenced(s) && step.action.UploadAction?
    ensures Fenced(Next(s, step))
  {
    hide Fenced, Inv;
    var UploadAction(lease, cred, stored) := step.action;
    UploadKeepsFence(s, lease, cred, stored, step.at);
  }

  lemma CompleteStep(s: State, step: Step)
    requires Inv(s) && Fenced(s) && step.action.CompleteAction?
    ensures Fenced(Next(s, step))
  {
    hide Fenced, Inv;
    var CompleteAction(lease, cred, result, taskAllows) := step.action;
    CompleteKeepsFence(s, lease, cred, result, taskAllows, step.at);
  }

  lemma EnqueueStep(s: State, step: Step)
    requires Inv(s) && Fenced(s) && step.action.EnqueueAction?
    ensures Fenced(Next(s, step))
  {
    hide Fenced, Inv;
    var EnqueueAction(req) := step.action;
    EnqueueKeepsFence(s, req, step.at);
  }

  lemma ClaimLocalStep(s: State, step: Step)
    requires Inv(s) && Fenced(s) && step.action.ClaimLocalAction?
    ensures Fenced(Next(s, step))
  {
    hide Fenced, Inv;
    var ClaimLocalAction(r, worker) := step.action;
    ClaimLocalKeepsFence(s, r, worker, step.at);
  }

  lemma FinishLocalStep(s: State, step: Step)
    requires Inv(s) && Fenced(s) && step.action.FinishLocalAction?
    ensures Fenced(Next(s, step))
  {
    hide Fenced, Inv;
    var FinishLocalAction(r, outcome) := step.action;
    FinishLocalKeepsFence(s, r, outcome, step.at);
  }

  lemma CancelStep(s: State, step: Step)
    requires Inv(s) && Fenced(s) && step.action.CancelAction?
    ensures Fenced(Next(s, step))
  {
    hide Fenced, Inv;
    var CancelAction(r) := step.action;
    CancelKeepsFence(s, r, step.at);
  }

  lemma RequeueStep(s: State, step: Step)
    requires Inv(s) && Fenced(s) && step.action.RequeueAction?
    ensures Fenced(Next(s, step))
  {
    hide Fenced, Inv;
    var RequeueAction(provider, limit) := step.action;
    QueryIsBatch(s, provider, limit, step.at);
    ExpireAllKeepsFence(s, ExpiredQuery(s.runs, provider, limit, step.at), provider, step.at);
  }

  lemma SyncLogStep(s: State, step: Step)
    requires Inv(s) && Fenced(s) && step.action.SyncLogAction?
    ensures Fenced(Next(s, step))
  {
    hide Fenced, Inv, Sound;
    var SyncLogAction(r, synced) := step.action;
    SyncLogIsSound(s, r, synced);
    QuietKeepsFence(s, SyncLog(s, r, synced));
  }

  lemma SameRunsStep(s: State, t: State)
    requires Inv(s) && Fenced(s) && Sound(s, t)
    requires t.runs == s.runs && t.history == s.history && t.nextLease == s.nextLease
    ensures Fenced(t)
  {
    hide Fenced, Inv, Sound;
    QuietKeepsFence(s, t);
  }

  lemma NextKeepsFence(s: State, step: Step)
    requires Inv(s) && Fenced(s)
    ensures Fenced(Next(s, step))
  {
    hide Fenced, Inv;
    match step.action
    case GrantAction(ws, cents) => BooksKeepFence(s, Credit(s.books, ws, cents));
    case LimitAction(ws, monthly, perRun) => BooksKeepFence(s, SetLimit(s.books, ws, monthly, perRun));
    case EnqueueAction(_) => EnqueueStep(s, step);
    case ClaimLeaseAction(_, _, _, _) => ClaimLeaseStep(s, step);
    case HeartbeatAction(_, _, _) => HeartbeatStep(s, step);
    case UploadAction(_, _, _) => UploadStep(s, step);
    case CompleteAction(_, _, _, _) => CompleteStep(s, step);
    case RequeueAction(_, _) => RequeueStep(s, step);
    case ClaimLocalAction(_, _) => ClaimLocalStep(s, step);
    case FinishLocalAction(_, _) => FinishLocalStep(s, step);
    case CancelAction(_) => CancelStep(s, step);
    case SyncLogAction(_, _) => SyncLogStep(s, step);
    case DropObjectsAction(_) =>
      NextIsSound(s, step);
      SameRunsStep(s, Next(s, step));
    case AppendUsageAction(_) =>
      NextIsSound(s, step);
      SameRunsStep(s, Next(s, step));
  }

  lemma {:induction false} HistoryIsFenced(steps: seq<Step>)
    ensures Inv(Exec(steps)) && Fenced(Exec(steps))
    decreases |steps|
  {
    Reachable(steps);
    if steps != [] {
      HistoryIsFenced(steps[..|steps| - 1]);
      NextKeepsFence(Exec(steps[..|steps| - 1]), steps[|steps| - 1]);
    }
  }

  // ---- the theorems ----

  lemma AcceptedUnderLease(s: State, k: nat)
    requires TraceOk(s) && k < |s.history| && s.history[k].Accepted?
    ensures var h := s.history;
      exists i :: 0 <= i < k && h[i] == Issued(h[k].run, h[k].lease)
        && forall m :: i < m < k ==> !EndsHold(h[m], h[k].run)
    ensures var h := s.history;
      forall j :: 0 <= j < |h| && h[j].Issued? && h[j].run == h[k].run && h[j].lease > h[k].lease ==> k < j
  {
    var h := s.history;
    var g, r := h[..k], h[k].run;
    assert forall m :: 0 <= m < k ==> h[m] == g[m];
    HolderMeans(g, r, h[k].lease);
    var i :| 0 <= i < |g| && g[i] == Issued(r, h[k].lease) && forall m :: i < m < |g| ==> !EndsHold(g[m], r);
    assert h[i] == Issued(r, h[k].lease) && forall m :: i < m < k ==> !EndsHold(h[m], r);
    forall j | 0 <= j < k && h[j].Issued? && h[j].run == r ensures h[j].lease <= h[k].lease {
      assert EndsHold(g[j], r);
      assert j <= i;
    }
  }

  /** Lease fencing: an accepted heartbeat, upload or completion was made under the lease the
      run was out on: the lease had been issued, and neither an expiry, nor a completion, nor
      another lease of that run came between the issue and the callback. So every accepted
      callback of a lease precedes the issue of the run's next lease. */
  lemma CallbacksAreFenced(steps: seq<Step>, k: nat)
    requires k < |Exec(steps).history| && Exec(steps).history[k].Accepted?
    ensures var h := Exec(steps).history;
      exists i :: 0 <= i < k && h[i] == Issued(h[k].run, h[k].lease)
        && forall m :: i < m < k ==> !EndsHold(h[m], h[k].run)
    ensures var h := Exec(steps).history;
      forall j :: 0 <= j < |h| && h[j].Issued? && h[j].run == h[k].run && h[j].lease > h[k].lease ==> k < j
  {
    hide Exec;
    HistoryIsFenced(steps);
    AcceptedUnderLease(Exec(steps), k);
  }

  /** At most one completion of a run is accepted and finalised, and no callback, lease or
      expiry of that run follows it. */
  lemma OneCompletionPerRun(steps: seq<Step>, i: nat, k: nat)
    requires i < k < |Exec(steps).history| && Completes(Exec(steps).history[i])
    ensures Exec(steps).history[k].run != Exec(steps).history[i].run
  {
    hide Exec;
    HistoryIsFenced(steps);
  }

  /** A run that carries a callback token accepts no callback after a completion, even after
      one whose finalisation the task state machine rejected. */
  lemma TokenAllowsOneCompletion(steps: seq<Step>, i: nat, k: nat)
    requires i < k < |Exec(steps).history|
    requires var e := Exec(steps).history[i];
      && e.Accepted?
      && (Completes(e) || (Aborts(e) && e.run < |Exec(steps).runs| && Exec(steps).runs[e.run].callback.Some?))
    requires Exec(steps).history[k].run == Exec(steps).history[i].run
    ensures Exec(steps).history[k].Expired? && !Completes(Exec(steps).history[i])
  {
    hide Exec;
    HistoryIsFenced(steps);
  }

  lemma AbortLeavesOpen(
      s: State, lease: LeaseId, cred: Credential, result: ExecutionResult, taskAllows: bool, now: Time)
    requires Inv(s) && Resolve(s.runs, lease, cred, now).Current?
    ensures var (t, found) := CompleteLease(s, lease, cred, result, taskAllows, now);
      && |t.runs| == |s.runs|
      && (!Terminal(t.runs[found.run].status) <==>
            CreatesArtifact(result) && !taskAllows && !s.runs[found.run].cancelRequested)
      && (!Terminal(t.runs[found.run].status) && s.runs[found.run].callback.None? ==>
            t == Record(s, Accepted(found.run, lease, AbortedCompletion)))
  {
    ResolvedIsCurrent(s, lease, cred, now);
    var r := Resolve(s.runs, lease, cred, now).run;
    var accepted := s.(runs := s.runs[r := s.runs[r].(callback := UseToken(s.runs[r].callback, now))]);
    CompletesSoundly(s, accepted, r, result, taskAllows, now);
    assert s.runs[r].callback.None? ==> accepted.runs[r] == s.runs[r] && accepted == s;
  }

  /** Without a token it is otherwise. An accepted completion leaves the run open exactly when
      it would create an artifact, no cancel was requested, and the task state machine rejects
      the transition; with no token the row is then as it was, so the same completion is
      accepted again. */
  lemma AbortedCompletionCanRepeat(
      steps: seq<Step>, lease: LeaseId, cred: Credential, result: ExecutionResult, taskAllows: bool, now: Time)
    requires Resolve(Exec(steps).runs, lease, cred, now).Current?
    ensures var s := Exec(steps);
      var (t, found) := CompleteLease(s, lease, cred, result, taskAllows, now);
      && |t.runs| == |s.runs|
      && (!Terminal(t.runs[found.run].status) <==>
            CreatesArtifact(result) && !taskAllows && !s.runs[found.run].cancelRequested)
      && (!Terminal(t.runs[found.run].status) && s.runs[found.run].callback.None? ==>
            t.runs == s.runs && t.books == s.books && Resolve(t.runs, lease, cred, now) == found)
  {
    hide Exec;
    Reachable(steps);
    AbortLeavesOpen(Exec(steps), lease, cred, result, taskAllows, now);
  }

  /** A completion by worker "k" of the lease that the expiry history gives it. */
  function Completing(taskAllows: bool): Step {
    Step(CompleteAction(0, Credential("k", None, false), ExecutionResult(true, None, [], true), taskAllows), SECOND)
  }

  lemma SameCompletionAgain(s: State)
    requires Inv(s) && Resolve(s.runs, 0, Credential("k", None, false), SECOND) == Current(0)
    requires s.runs[0].callback.None? && !s.runs[0].cancelRequested
    ensures Next(s, Completing(false)) == Record(s, Accepted(0, 0, AbortedCompletion))
    ensures |Next(s, Completing(true)).runs| == |s.runs| && Next(s, Completing(true)).runs[0].status.PatchReady?
  {
    hide Finalize, Resolve;
    AbortLeavesOpen(s, 0, Credential("k", None, false), ExecutionResult(true, None, [], true), false, SECOND);
    ReadyCompletionIsReady(s);
  }

  lemma ReadyCompletionIsReady(s: State)
    requires Inv(s) && Resolve(s.runs, 0, Credential("k", None, false), SECOND) == Current(0)
    requires s.runs[0].callback.None? && !s.runs[0].cancelRequested
    ensures |Next(s, Completing(true)).runs| == |s.runs| && Next(s, Completing(true)).runs[0].status.PatchReady?
  {
    ResolvedIsCurrent(s, 0, Credential("k", None, false), SECOND);
    assert s.runs[0].completedAt.None? by {
      assert RunOk(s, 0);
    }
  }

  /** The leased run of the expiry history, while its lease lasts. */
  lemma LeasedRunResolves()
    ensures var s := Exec(ExpiryHistory()[..3]);
      && Inv(s) && |s.runs| == 1 && Resolve(s.runs, 0, Credential("k", None, false), SECOND) == Current(0)
      && s.runs[0].callback.None? && !s.runs[0].cancelRequested
  {
    hide Exec;
    FirstRunIsLeased();
    Reachable(ExpiryHistory()[..3]);
  }

  /** A history in which one completion is accepted twice: enqueue, lease, and then the same
      completion twice while the task state machine rejects the transition; when it no longer
      does, the same completion closes the run. */
  lemma CompletedTwice()
    ensures var steps := ExpiryHistory()[..3] + [Completing(false), Completing(false)];
      var s := Exec(steps);
      && |s.history| >= 2 && |s.runs| == 1 && s.runs[0].status.Running?
      && s.history[|s.history| - 2] == s.history[|s.history| - 1] == Accepted(0, 0, AbortedCompletion)
      && |Exec(steps + [Completing(true)]).runs| == 1
      && Exec(steps + [Completing(true)]).runs[0].status.PatchReady?
  {
    hide Next, Resolve;
    var start, abort := ExpiryHistory()[..3], Completing(false);
    var s := Exec(start);
    LeasedRunResolves();
    SameCompletionAgain(s);
    var once := Record(s, Accepted(0, 0, AbortedCompletion));
    OneMore(start, [abort]);
    assert start + [abort][..0] == start;
    Reachable(start + [abort]);
    SameCompletionAgain(once);
    OneMore(start, [abort, abort]);
    assert [abort, abort][..1] == [abort];
    var twice := Record(once, Accepted(0, 0, AbortedCompletion));
    Reachable(start + [abort, abort]);
    SameCompletionAgain(twice);
    OneMore(start + [abort, abort], [Completing(true)]);
    assert (start + [abort, abort]) + [Completing(true)][..0] == start + [abort, abort];
    ResolvedIsCurrent(s, 0, Credential("k", None, false), SECOND);
  }

  /** At any instant the lease of a running run is either acceptable or up for requeueing,
      never both; a run claimed by a local worker is neither. */
  lemma AcceptableOrRequeueable(steps: seq<Step>, r: RunId, now: Time)
    requires r < |Exec(steps).runs| && Exec(steps).runs[r].status.Running?
    ensures var run := Exec(steps).runs[r];
      && (run.lease.Some? ==> (LeaseAcceptable(run, now) <==> !LeaseRequeueable(run, now)))
      && (run.lease.None? ==> !LeaseAcceptable(run, now) && !LeaseRequeueable(run, now))
  {
    hide Exec;
    Reachable(steps);
    assert RunOk(Exec(steps), r);
  }

  /** A claimed lease, and one renewed by a heartbeat, can be used up to the last instant of
      the seconds asked for, and is up for requeueing from the next instant on. */
  lemma LeaseLastsAsAsked(s: State, lease: LeaseId, cred: Credential, seconds: nat, now: Time, later: Time)
    requires Inv(s) && Resolve(s.runs, lease, cred, now).Current?
    ensures var r := Resolve(s.runs, lease, cred, now).run;
      var run := HeartbeatLease(s, lease, cred, seconds, now).0.runs[r];
      && run.lease == Some(lease)
      && (LeaseAcceptable(run, later) <==> later <= now + seconds * SECOND)
      && (LeaseRequeueable(run, later) <==> later > now + seconds * SECOND)
    ensures forall r, worker :: 0 <= r < |s.runs| && s.runs[r].status.Queued? ==>
      var run := IssueLease(s, r, worker, seconds, now).runs[r];
      && run.lease == Some(s.nextLease) && run.worker == Some(worker)
      && (LeaseAcceptable(run, later) <==> later <= now + seconds * SECOND)
      && (LeaseRequeueable(run, later) <==> later > now + seconds * SECOND)
  {
    ResolvedIsCurrent(s, lease, cred, now);
    forall r | 0 <= r < |s.runs| && s.runs[r].status.Queued? ensures s.runs[r].completedAt.None? {
      assert RunOk(s, r);
    }
  }
}
