/** What holds of cloud runs over whole histories, for any number of runs and workers and any
    interleaving of their steps.
 */
module RunTheorems {
  import opened Entities
  import opened Budgeting
  import opened CloudRunner
  import opened RunInvariants
  import opened RunSteps

  /** A history that goes on after `steps`. */
  ghost predicate Continues(steps: seq<Step>, more: seq<Step>, r: RunId) {
    Inv(Exec(steps)) && Inv(Exec(steps + more)) && r < |Exec(steps).runs| <= |Exec(steps + more).runs|
  }

  lemma OneMore(steps: seq<Step>, more: seq<Step>)
    requires more != []
    ensures Exec(steps + more) == Next(Exec(steps + more[..|more| - 1]), more[|more| - 1])
  {
    hide Next;
    assert (steps + more)[..|steps + more| - 1] == steps + more[..|more| - 1];
  }

  lemma {:induction false} RunsRemain(steps: seq<Step>, more: seq<Step>, r: RunId)
    requires r < |Exec(steps).runs|
    ensures Continues(steps, more, r)
    decreases |more|
  {
    Reachable(steps);
    Reachable(steps + more);
    if more == [] {
      assert steps + more == steps;
    } else {
      RunsRemain(steps, more[..|more| - 1], r);
      OneMore(steps, more);
    }
  }

  /** Mirrored state. In every reachable state the local run shows the cloud run's status and
      artifact, a completion time is set exactly in the terminal statuses, a patch-ready run
      has a recorded artifact of its own and was not asked to cancel, and a cancelled run was
      asked to cancel and keeps no artifact. */
  lemma StatusIsMirrored(steps: seq<Step>, r: RunId)
    requires r < |Exec(steps).runs|
    ensures var s := Exec(steps);
      var run := s.runs[r];
      && s.locals[r].status == run.status && s.locals[r].patchArtifact == run.patchArtifact
      && (run.completedAt.Some? <==> Terminal(run.status))
      && (run.status.PatchReady? ==>
            && !run.cancelRequested && run.patchArtifact.Some?
            && run.patchArtifact.value < |s.artifacts| && s.artifacts[run.patchArtifact.value] == r)
      && (run.status.Cancelled? ==> run.cancelRequested && run.patchArtifact.None?)
  {
    Reachable(steps);
    assert RunOk(Exec(steps), r);
  }

  /** Terminal absorption: once a run is patch-ready, failed or cancelled, its local run and its
      reservation never change again, and its row changes only in where its log is kept. */
  lemma {:induction false} TerminalIsForever(steps: seq<Step>, more: seq<Step>, r: RunId)
    requires r < |Exec(steps).runs| && Terminal(Exec(steps).runs[r].status)
    ensures Continues(steps, more, r)
    ensures SameButLog(Exec(steps).runs[r], Exec(steps + more).runs[r])
    ensures Exec(steps + more).locals[r] == Exec(steps).locals[r]
    ensures Exec(steps + more).books.reservations[r] == Exec(steps).books.reservations[r]
    decreases |more|
  {
    RunsRemain(steps, more, r);
    if more == [] {
      assert steps + more == steps;
    } else {
      TerminalIsForever(steps, more[..|more| - 1], r);
      OneMore(steps, more);
      NextIsSound(Exec(steps + more[..|more| - 1]), more[|more| - 1]);
      assert Moves(Exec(steps + more[..|more| - 1]), Exec(steps + more), r);
    }
  }

  /** Cancellation safety: a request to cancel is never withdrawn, and a run that carries one
      never becomes patch-ready, wherever in its life the request landed. */
  lemma {:induction false} CancelIsNeverLost(steps: seq<Step>, more: seq<Step>, r: RunId)
    requires r < |Exec(steps).runs| && Exec(steps).runs[r].cancelRequested
    ensures Continues(steps, more, r)
    ensures Exec(steps + more).runs[r].cancelRequested
    ensures !Exec(steps + more).runs[r].status.PatchReady?
    decreases |more|
  {
    RunsRemain(steps, more, r);
    assert RunOk(Exec(steps + more), r);
    if more == [] {
      assert steps + more == steps;
    } else {
      CancelIsNeverLost(steps, more[..|more| - 1], r);
      OneMore(steps, more);
      NextIsSound(Exec(steps + more[..|more| - 1]), more[|more| - 1]);
      assert Moves(Exec(steps + more[..|more| - 1]), Exec(steps + more), r);
    }
  }

  // ---- bounded retries ----

  function Changed(a: CloudRun, b: CloudRun): nat {
    if a.status == b.status then 0 else 1
  }

  /** How often a run's status has changed since it was enqueued. */
  ghost function StatusChanges(steps: seq<Step>, r: RunId): nat
    requires r < |Exec(steps).runs|
  {
    if steps == [] || r >= |Exec(steps[..|steps| - 1]).runs| then 0
    else StatusChanges(steps[..|steps| - 1], r) + Changed(Exec(steps[..|steps| - 1]).runs[r], Exec(steps).runs[r])
  }

  lemma MeasureStarts(s: State, r: RunId)
    requires Inv(s) && r < |s.runs|
    ensures Measure(s.runs[r]) <= 2 * s.runs[r].maxAttempts
  {
    assert RunOk(s, r);
  }

  lemma MeasurePays(s: State, t: State, r: RunId)
    requires Sound(s, t) && r < |s.runs|
    ensures Changed(s.runs[r], t.runs[r]) + Measure(t.runs[r]) <= Measure(s.runs[r])
    ensures t.runs[r].maxAttempts == s.runs[r].maxAttempts
  {
    assert Moves(s, t, r);
  }

  lemma {:induction false} ChangesAreMeasured(steps: seq<Step>, r: RunId)
    requires r < |Exec(steps).runs|
    ensures StatusChanges(steps, r) + Measure(Exec(steps).runs[r]) <= 2 * Exec(steps).runs[r].maxAttempts
    decreases |steps|
  {
    Reachable(steps);
    MeasureStarts(Exec(steps), r);
    if steps != [] {
      var init := steps[..|steps| - 1];
      if r < |Exec(init).runs| {
        ChangesAreMeasured(init, r);
        Reachable(init);
        NextIsSound(Exec(init), steps[|steps| - 1]);
        MeasurePays(Exec(init), Exec(steps), r);
      }
    }
  }

  /** Bounded retries: attempts never exceed the maximum, a queued run has an attempt left and
      no lease, and the status changes at most twice per allowed attempt. */
  lemma RetriesAreBounded(steps: seq<Step>, r: RunId)
    requires r < |Exec(steps).runs|
    ensures var run := Exec(steps).runs[r];
      && run.attemptCount <= run.maxAttempts
      && (run.status.Queued? ==> run.attemptCount < run.maxAttempts && run.lease.None? && run.leaseExpiresAt.None?)
      && StatusChanges(steps, r) <= 2 * run.maxAttempts
  {
    Reachable(steps);
    assert RunOk(Exec(steps), r);
    ChangesAreMeasured(steps, r);
  }

  // ---- money follows the run ----

  /** In every reachable state a run's own reservation is held exactly while the run is queued
      or running; afterwards it is settled or released and the run shows what it cost. A run
      that was charged had started, or its runtime submission failed; a run that got its money
      back never started exactly when its attempt counter is zero. */
  lemma MoneyFollowsRun(steps: seq<Step>, r: RunId)
    requires r < |Exec(steps).runs|
    ensures |Exec(steps).books.reservations| == |Exec(steps).runs|
    ensures var run, row := Exec(steps).runs[r], Exec(steps).books.reservations[r];
      && run.reservation == Some(r) && row.run == Some(r)
      && (row.status.Reserved? <==> run.status.Queued? || run.status.Running?)
      && (Terminal(run.status) ==> run.actualCost == row.settled)
      && (row.status.Settled? && run.claimedAt.None? ==> run.failureReason == Some("runtime_submission_failed"))
      && (row.status.Released? ==> (run.claimedAt.None? <==> run.attemptCount == 0))
  {
    Reachable(steps);
    assert RunOk(Exec(steps), r);
  }

  lemma ClosingMoves(s: State, t: State, r: RunId)
    requires Sound(s, t) && r < |s.runs| && !Terminal(s.runs[r].status) && Terminal(t.runs[r].status)
    ensures s.runs[r].status.Queued? ==> t.runs[r].status.Cancelled? && t.books.reservations[r].status.Released?
    ensures s.runs[r].status.Running? ==> t.books.reservations[r].status.Settled?
  {
    assert Moves(s, t, r) && RunOk(t, r);
  }

  /** How a run's reservation is closed depends only on where the closing step found the run:
      a queued run can only be cancelled, and gets its money back; a running run is charged. */
  lemma ClosingChargesWhatRan(steps: seq<Step>, last: Step, r: RunId)
    requires r < |Exec(steps).runs| && !Terminal(Exec(steps).runs[r].status)
    ensures var s, t := Exec(steps), Next(Exec(steps), last);
      && r < |t.runs| == |t.books.reservations|
      && (s.runs[r].status.Queued? && Terminal(t.runs[r].status) ==>
            t.runs[r].status.Cancelled? && t.books.reservations[r].status.Released?)
      && (s.runs[r].status.Running? && Terminal(t.runs[r].status) ==> t.books.reservations[r].status.Settled?)
  {
    hide Exec, Next;
    Reachable(steps);
    NextIsSound(Exec(steps), last);
    if Terminal(Next(Exec(steps), last).runs[r].status) {
      ClosingMoves(Exec(steps), Next(Exec(steps), last), r);
    }
  }

  /** A release does not mean that the run never started: cancelling a queued run releases its
      reservation however often it was leased before. It never started exactly when its
      attempt counter is zero at the call. */
  lemma QueuedCancelReleases(steps: seq<Step>, r: RunId, at: Time)
    requires r < |Exec(steps).runs| && Exec(steps).runs[r].status.Queued?
    ensures var t := Next(Exec(steps), Step(CancelAction(r), at));
      && t.runs[r].status.Cancelled?
      && |t.books.reservations| == |t.runs| && t.books.reservations[r].status.Released?
      && (t.runs[r].claimedAt.None? <==> Exec(steps).runs[r].attemptCount == 0)
  {
    Reachable(steps);
    assert RunOk(Exec(steps), r);
    NextIsSound(Exec(steps), Step(CancelAction(r), at));
    assert Moves(Exec(steps), Next(Exec(steps), Step(CancelAction(r), at)), r);
  }

  /** The failing family is inhabited: enqueue, lease, let the lease expire, requeue, cancel. */
  ghost function ExpiryHistory(): seq<Step> {
    [ Step(GrantAction("w", RESERVATION_CENTS), 0),
      Step(EnqueueAction(EnqueueRequest("w", "p", "t", LocalDb, None, "", Sent(None), SubmissionError)), 0),
      Step(ClaimLeaseAction(None, LocalDb, Credential("k", None, false), 60), 0),
      Step(RequeueAction(LocalDb, 25), 61 * SECOND) ]
  }

  lemma FirstRunIsQueued()
    ensures var s := Exec(ExpiryHistory()[..2]);
      && |s.runs| == 1 && s.runs[0].status.Queued? && s.runs[0].attemptCount == 0 && s.runs[0].maxAttempts == 3
      && s.runs[0].callback.None? && !s.runs[0].cancelRequested && s.runs[0].queueProvider.LocalDb?
  {
    var steps := ExpiryHistory();
    assert steps[..2][..1] == steps[..1] && steps[..1][..0] == [];
    assert Exec(steps[..1]) == INITIAL.(books := Credit(INITIAL.books, "w", RESERVATION_CENTS));
  }

  lemma FirstRunIsLeased()
    ensures var s := Exec(ExpiryHistory()[..3]);
      && |s.runs| == 1 && s.runs[0].status.Running? && s.runs[0].attemptCount == 1 && s.runs[0].maxAttempts == 3
      && s.runs[0].leaseExpiresAt == Some(60 * SECOND) && s.runs[0].completedAt.None?
      && s.runs[0].queueProvider.LocalDb?
      && s.runs[0].lease == Some(0) && s.runs[0].worker == Some("k") && s.runs[0].callback.None?
      && !s.runs[0].cancelRequested
  {
    var steps := ExpiryHistory();
    FirstRunIsQueued();
    Reachable(steps[..2]);
    assert RunOk(Exec(steps[..2]), 0);
    assert steps[..3][..2] == steps[..2];
  }

  /** A requeue of a table whose only row has expired. */
  lemma OnlyRunExpires(s: State, provider: QueueProvider, now: Time)
    requires |s.runs| == |s.locals| == 1 && IsExpired(s.runs[0], provider, now)
    ensures RequeueExpired(s, provider, 25, now) == ExpireRun(s, 0, now)
  {
    hide ExpireRun;
    assert ExpiredInOrder(s.runs, 0, provider, now) == [];
    assert ExpiredInOrder(s.runs, 1, provider, now) == [0];
    assert [0][..0] == [] && ExpireAll(s, [0][..0], now) == s;
    assert ExpireAll(s, [0], now) == ExpireRun(s, 0, now);
  }

  lemma FirstRunIsRequeued()
    ensures var s := Exec(ExpiryHistory());
      |s.runs| == 1 && s.runs[0].status.Queued? && s.runs[0].attemptCount == 1
  {
    hide RequeueExpired;
    var steps := ExpiryHistory();
    FirstRunIsLeased();
    assert steps[..4] == steps && steps[..4][..3] == steps[..3];
    OnlyRunExpires(Exec(steps[..3]), LocalDb, 61 * SECOND);
  }

  lemma ReleasedAfterRunning()
    ensures var s := Exec(ExpiryHistory() + [Step(CancelAction(0), 61 * SECOND)]);
      && |s.runs| == |s.books.reservations| == 1
      && s.books.reservations[0].status.Released? && s.runs[0].claimedAt.Some?
  {
    hide Next;
    var steps := ExpiryHistory();
    var last := Step(CancelAction(0), 61 * SECOND);
    FirstRunIsRequeued();
    QueuedCancelReleases(steps, 0, 61 * SECOND);
    RunsRemain(steps, [last], 0);
    OneMore(steps, [last]);
    assert steps + [last][..0] == steps;
    NextIsSound(Exec(steps), last);
    CancelAddsNoRun(Exec(steps), last);
  }

  lemma CancelAddsNoRun(s: State, step: Step)
    requires |s.runs| == |s.locals| && step.action.CancelAction?
    ensures |Next(s, step).runs| == |s.runs|
  {
    hide CancelRun;
  }
}
