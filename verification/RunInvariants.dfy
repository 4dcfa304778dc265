/** What every reachable state of the lease protocol satisfies, run by run: the status, its
    mirror, the retry counter, the cancel flag, the artifact and the money agree.
 */
module RunInvariants {
  import opened Entities
  import opened Budgeting
  import opened CloudRunner

  ghost predicate StatusOk(run: CloudRun, local: LocalRun) {
    && local.status == run.status
    && local.patchArtifact == run.patchArtifact
    && (run.completedAt.Some? <==> Terminal(run.status))
    && (run.status.Cancelled? ==> run.cancelRequested && run.patchArtifact.None?)
    && (run.status.PatchReady? ==> !run.cancelRequested && run.patchArtifact.Some?)
    && (run.patchArtifact.Some? ==> run.status.PatchReady? || run.status.Failed?)
  }

  ghost predicate LeaseOk(run: CloudRun) {
    && run.attemptCount <= run.maxAttempts
    && (run.lease.Some? <==> run.leaseExpiresAt.Some?)
    && (run.lease.Some? ==> run.attemptCount > 0)
    && (run.status.Running? ==> run.claimedAt.Some? && (run.lease.None? ==> run.attemptCount < run.maxAttempts))
    && (run.status.Queued? ==>
          && run.attemptCount < run.maxAttempts
          && run.lease.None? && run.leaseExpiresAt.None? && run.heartbeatAt.None?
          && (run.claimedAt.Some? <==> run.attemptCount > 0))
  }

  /** What a settlement charges for: a claim, or a runtime submission that failed. */
  ghost predicate Chargeable(run: CloudRun) {
    run.claimedAt.Some? || run.failureReason == Some("runtime_submission_failed")
  }

  /** Every start was a counted lease attempt; a local claim starts a run without counting. */
  ghost predicate StartsAreCounted(run: CloudRun) {
    run.claimedAt.Some? <==> run.attemptCount > 0
  }

  ghost predicate MoneyOk(r: RunId, run: CloudRun, reservation: Reservation) {
    && run.reservation == Some(r)
    && reservation.run == Some(r)
    && reservation.workspace == run.workspace && reservation.reserved == RESERVATION_CENTS
    && (reservation.status.Reserved? <==> !Terminal(run.status))
    && (reservation.status.Settled? ==> run.costSummary.status.CostSettled?)
    && (reservation.status.Released? ==> run.costSummary.status.CostReleased?)
    && (Terminal(run.status) ==> run.actualCost == reservation.settled)
    && (reservation.status.Settled? ==> Chargeable(run))
    && (reservation.status.Released? ==> StartsAreCounted(run))
  }

  ghost predicate ArtifactOk(s: State, r: RunId)
    requires r < |s.runs|
  {
    s.runs[r].patchArtifact.Some? ==>
      s.runs[r].patchArtifact.value < |s.artifacts| && s.artifacts[s.runs[r].patchArtifact.value] == r
  }

  ghost predicate RowsOk(s: State, r: RunId)
    requires r < |s.runs| == |s.locals|
  {
    && StatusOk(s.runs[r], s.locals[r])
    && LeaseOk(s.runs[r])
    && ArtifactOk(s, r)
    && (r in s.processing ==> s.runs[r].status.Running? && s.runs[r].lease.None?)
  }

  ghost predicate RunOk(s: State, r: RunId)
    requires r < |s.runs| == |s.locals| == |s.books.reservations|
  {
    RowsOk(s, r) && MoneyOk(r, s.runs[r], s.books.reservations[r])
  }

  ghost predicate Inv(s: State) {
    && |s.runs| == |s.locals| == |s.books.reservations|
    && (forall r :: 0 <= r < |s.runs| ==> RunOk(s, r))
    && (forall r <- s.processing :: r < |s.runs|)
  }

  /** The step changed nothing of any other run. */
  ghost predicate OnlyRun(s: State, t: State, r: RunId) {
    && |s.runs| == |s.locals| == |s.books.reservations|
    && |t.runs| == |t.locals| == |t.books.reservations| == |s.runs|
    && (forall k :: 0 <= k < |s.runs| && k != r ==>
          t.runs[k] == s.runs[k] && t.locals[k] == s.locals[k]
          && t.books.reservations[k] == s.books.reservations[k])
    && s.artifacts <= t.artifacts
    && (forall k :: k != r ==> (k in t.processing <==> k in s.processing))
  }

  lemma OnlyRunKeeps(s: State, t: State, r: RunId)
    requires Inv(s) && OnlyRun(s, t, r) && r < |s.runs| && RunOk(t, r)
    ensures Inv(t)
  {
    forall k | 0 <= k < |t.runs| ensures RunOk(t, k) {
      if k != r {
        assert RunOk(s, k);
      }
    }
  }

  /** A run whose row has just become terminal while its reservation is still held. */
  ghost predicate Closing(s: State, t: State, r: RunId) {
    && Inv(s) && OnlyRun(s, t, r) && r < |s.runs|
    && RowsOk(t, r) && Terminal(t.runs[r].status)
    && t.runs[r].reservation == Some(r) && t.runs[r].workspace == s.runs[r].workspace
    && t.books.reservations[r] == s.books.reservations[r] && t.books.reservations[r].status.Reserved?
  }

  lemma SettleRunKeeps(s: State, t: State, r: RunId, now: Time)
    requires Closing(s, t, r) && Chargeable(t.runs[r])
    ensures Inv(SettleRun(t, r, now))
    ensures OnlyRun(s, SettleRun(t, r, now), r)
    ensures SettleRun(t, r, now).books.reservations[r].status.Settled?
    ensures SettleRun(t, r, now).locals == t.locals
    ensures var run := SettleRun(t, r, now).runs[r];
      t.runs[r] == run.(actualCost := t.runs[r].actualCost, costSummary := t.runs[r].costSummary)
  {
    hide Measurements, AppendAllUsage;
    assert RunOk(s, r);
    OnlyRunKeeps(s, SettleRun(t, r, now), r);
  }

  lemma ReleaseRunKeeps(s: State, t: State, r: RunId, now: Time)
    requires Closing(s, t, r) && StartsAreCounted(t.runs[r])
    ensures Inv(ReleaseRun(t, r, now))
    ensures OnlyRun(s, ReleaseRun(t, r, now), r)
    ensures ReleaseRun(t, r, now).books.reservations[r].status.Released?
    ensures ReleaseRun(t, r, now).locals == t.locals
    ensures var run := ReleaseRun(t, r, now).runs[r];
      t.runs[r] == run.(actualCost := t.runs[r].actualCost, costSummary := t.runs[r].costSummary)
  {
    assert RunOk(s, r);
    OnlyRunKeeps(s, ReleaseRun(t, r, now), r);
  }
}
