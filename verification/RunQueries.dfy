/** The queries of services/cloud_runner.py: whom a claim serves, and which expired leases a
    requeue picks.
 */
module RunQueries {
  import opened Entities
  import opened CloudRunner
  import opened RunCredentials

  /** The run is waiting for a lease of this queue. */
  predicate Waiting(run: CloudRun, provider: QueueProvider) {
    && run.status == Queued && run.queueProvider == provider
    && !run.cancelRequested && run.attemptCount < run.maxAttempts
  }

  /** `ORDER BY created_at, id` */
  predicate CreatedBefore(runs: seq<CloudRun>, a: RunId, b: RunId)
    requires a < |runs| && b < |runs|
  {
    runs[a].createdAt < runs[b].createdAt || (runs[a].createdAt == runs[b].createdAt && a < b)
  }

  ghost predicate IsFirstClaimable(runs: seq<CloudRun>, provider: QueueProvider, r: RunId) {
    && r < |runs| && Waiting(runs[r], provider)
    && forall j :: 0 <= j < |runs| && j != r && Waiting(runs[j], provider) ==> CreatedBefore(runs, r, j)
  }

  lemma {:induction false} FirstClaimableMeans(runs: seq<CloudRun>, provider: QueueProvider)
    ensures FirstClaimable(runs, provider).Some? ==>
      IsFirstClaimable(runs, provider, FirstClaimable(runs, provider).value)
    ensures FirstClaimable(runs, provider).None? ==>
      forall j :: 0 <= j < |runs| ==> !Waiting(runs[j], provider)
    decreases |runs|
  {
    if runs != [] {
      FirstClaimableMeans(runs[..|runs| - 1], provider);
    }
  }

  /** The run is being worked on by a worker of this queue. */
  predicate Busy(run: CloudRun, provider: QueueProvider) {
    run.status == Running && run.completedAt.None? && run.queueProvider == provider
  }

  predicate LeaseLasts(run: CloudRun, now: Time) {
    run.leaseExpiresAt.Some? && now <= run.leaseExpiresAt.value
  }

  /** The run, and no other, has been given a fresh lease. */
  ghost predicate LeasedTo(s: State, t: State, r: RunId, worker: string, seconds: nat, now: Time)
    requires r < |s.runs| == |s.locals|
  {
    && t.nextLease == s.nextLease + 1 && t.history == s.history + [Issued(r, s.nextLease)]
    && t.books == s.books && t.objects == s.objects && t.artifacts == s.artifacts && t.processing == s.processing
    && |t.runs| == |t.locals| == |s.runs|
    && (forall k :: 0 <= k < |s.runs| && k != r ==> t.runs[k] == s.runs[k] && t.locals[k] == s.locals[k])
    && t.locals[r] == s.locals[r].(status := Running)
    && t.runs[r].status == Running && t.runs[r].worker == Some(worker) && t.runs[r].lease == Some(s.nextLease)
    && t.runs[r].leaseExpiresAt == Some(now + seconds * SECOND)
    && t.runs[r].claimedAt == t.runs[r].heartbeatAt == Some(now)
    && t.runs[r].attemptCount == s.runs[r].attemptCount + 1
    && (t.runs[r].queueMessage.None? <==> s.runs[r].queueMessage.None? && !s.runs[r].queueProvider.ExternalStub?)
    && (s.runs[r].queueMessage.Some? ==> t.runs[r].queueMessage == s.runs[r].queueMessage)
    && s.runs[r] == t.runs[r].(
         status := s.runs[r].status, worker := s.runs[r].worker, lease := s.runs[r].lease,
         leaseExpiresAt := s.runs[r].leaseExpiresAt, claimedAt := s.runs[r].claimedAt,
         heartbeatAt := s.runs[r].heartbeatAt, attemptCount := s.runs[r].attemptCount,
         queueMessage := s.runs[r].queueMessage)
  }

  lemma IssueMeans(s: State, r: RunId, worker: string, seconds: nat, now: Time)
    requires r < |s.runs| == |s.locals|
    ensures LeasedTo(s, IssueLease(s, r, worker, seconds, now), r, worker, seconds, now)
  {
  }

  /** A claim that names its run leases that run and no other: exactly when it waits in the
      queue and the credential opens it. Otherwise nothing changes: the answer is a conflict
      exactly when the run is out under a lease that lasts and the credential opens it; a
      refusal exactly when the credential does not open a run that waits or is busy, or does
      not open the run, or there is none, and a token is insisted on. */
  lemma NamedClaimServesItsRun(
      s: State, r: RunId, provider: QueueProvider, cred: Credential, seconds: nat, now: Time)
    requires |s.runs| == |s.locals|
    ensures var (t, result) := ClaimLease(s, Some(r), provider, cred, seconds, now);
      && (result == Leased(s.nextLease) <==>
            r < |s.runs| && Waiting(s.runs[r], provider) && Proves(r, s.runs[r], cred, now))
      && (result.Leased? ==> result.lease == s.nextLease && LeasedTo(s, t, r, cred.worker, seconds, now))
      && (!result.Leased? ==> t == s)
      && (result.ActiveLease? <==>
            && r < |s.runs| && Busy(s.runs[r], provider) && LeaseLasts(s.runs[r], now)
            && Proves(r, s.runs[r], cred, now))
      && (result.ClaimRefused? <==>
            if r >= |s.runs| then cred.required
            else !Proves(r, s.runs[r], cred, now)
                 && (cred.required || Waiting(s.runs[r], provider) || Busy(s.runs[r], provider)))
      && (result.ClaimRefused? ==>
            (result.why ==
             if cred.secret.None? && (cred.required || s.runs[r].callback.Some?) then TokenRequired else TokenInvalid))
  {
    hide IssueLease, LeasedTo;
    if r < |s.runs| {
      RefusalMeans(r, s.runs[r], cred, now);
      IssueMeans(s, r, cred.worker, seconds, now);
    }
  }

  /** A claim that names no run serves the first waiting run by creation time and id, and
      nobody else: it succeeds exactly when the credential opens that run, and is refused
      when it does not, whatever runs are queued behind it. */
  lemma UnnamedClaimServesTheFirst(
      s: State, r: RunId, provider: QueueProvider, cred: Credential, seconds: nat, now: Time)
    requires |s.runs| == |s.locals| && !cred.required && IsFirstClaimable(s.runs, provider, r)
    ensures var (t, result) := ClaimLease(s, None, provider, cred, seconds, now);
      && (result.Leased? <==> Proves(r, s.runs[r], cred, now))
      && (result.Leased? ==> result.lease == s.nextLease && LeasedTo(s, t, r, cred.worker, seconds, now))
      && (!result.Leased? ==> result.ClaimRefused? && t == s)
  {
    hide Claimable, Waiting, IssueLease, LeasedTo, Proves, TokenRefusal;
    FirstClaimableMeans(s.runs, provider);
    assert FirstClaimable(s.runs, provider) == Some(r);
    RefusalMeans(r, s.runs[r], cred, now);
    IssueMeans(s, r, cred.worker, seconds, now);
  }

  /** Without a waiting run there is no work, and a claim that insists on a token must name its run. */
  lemma UnnamedClaimWithoutWork(s: State, provider: QueueProvider, cred: Credential, seconds: nat, now: Time)
    requires |s.runs| == |s.locals|
    requires cred.required || forall j :: 0 <= j < |s.runs| ==> !Waiting(s.runs[j], provider)
    ensures ClaimLease(s, None, provider, cred, seconds, now) == (s,
      if !cred.required then NoWork
      else if cred.secret.None? then ClaimRefused(TokenRequired) else ClaimRefused(ScopeRequired))
  {
    hide IssueLease;
    FirstClaimableMeans(s.runs, provider);
  }

  // ---- expiry ----

  predicate ExpiresBefore(runs: seq<CloudRun>, a: RunId, b: RunId)
    requires a < |runs| && b < |runs|
  {
    ExpiryOf(runs[a]) < ExpiryOf(runs[b]) || (ExpiryOf(runs[a]) == ExpiryOf(runs[b]) && a < b)
  }

  /** Strictly rising by lease expiry and id. */
  ghost predicate Rising(runs: seq<CloudRun>, ids: seq<RunId>)
    requires InTable(runs, ids)
  {
    forall i, j :: 0 <= i < j < |ids| ==> ExpiresBefore(runs, ids[i], ids[j])
  }

  lemma {:induction false} InsertMeans(runs: seq<CloudRun>, ids: seq<RunId>, r: RunId)
    requires InTable(runs, ids) && r < |runs| && Rising(runs, ids) && forall id <- ids :: id < r
    ensures Rising(runs, InsertByExpiry(runs, ids, r))
    ensures forall x :: x in InsertByExpiry(runs, ids, r) <==> x in ids || x == r
    decreases |ids|
  {
    if ids == [] {
    } else if ExpiryOf(runs[ids[|ids| - 1]]) <= ExpiryOf(runs[r]) {
      var last := ids[|ids| - 1];
      assert last in ids;
      forall i | 0 <= i < |ids| ensures ExpiresBefore(runs, ids[i], r) {
        assert ids[i] in ids;
        assert i < |ids| - 1 ==> ExpiresBefore(runs, ids[i], last);
      }
    } else {
      var init, last := ids[..|ids| - 1], ids[|ids| - 1];
      assert ids == init + [last];
      assert forall id <- init :: id in ids;
      InsertMeans(runs, init, r);
      var more := InsertByExpiry(runs, init, r);
      forall i | 0 <= i < |more| ensures ExpiresBefore(runs, more[i], last) {
        assert more[i] in more;
      }
    }
  }

  lemma {:induction false} ExpiredInOrderMeans(runs: seq<CloudRun>, n: nat, provider: QueueProvider, now: Time)
    requires n <= |runs|
    ensures Rising(runs, ExpiredInOrder(runs, n, provider, now))
    ensures forall r :: r in ExpiredInOrder(runs, n, provider, now) <==> 0 <= r < n && IsExpired(runs[r], provider, now)
    decreases n
  {
    hide IsExpired, Rising;
    if n == 0 {
      NothingIsRising(runs);
    } else {
      ExpiredInOrderMeans(runs, n - 1, provider, now);
      if IsExpired(runs[n - 1], provider, now) {
        InsertMeans(runs, ExpiredInOrder(runs, n - 1, provider, now), n - 1);
      }
    }
  }

  lemma NothingIsRising(runs: seq<CloudRun>)
    ensures Rising(runs, [])
  {
  }

  /** The run is busy under a lease that is over. */
  predicate Overdue(run: CloudRun, provider: QueueProvider, now: Time) {
    Busy(run, provider) && run.leaseExpiresAt.Some? && run.leaseExpiresAt.value < now
  }

  /** The query answers distinct overdue runs of its queue. */
  lemma QueryIsBatch(s: State, provider: QueueProvider, limit: nat, now: Time)
    ensures ExpiredBatch(s, ExpiredQuery(s.runs, provider, limit, now), provider, now)
    ensures var batch := ExpiredQuery(s.runs, provider, limit, now);
      && (forall i :: 0 <= i < |batch| ==> Overdue(s.runs[batch[i]], provider, now))
      && (forall i, j :: 0 <= i < j < |batch| ==> batch[i] != batch[j])
  {
    ExpiredInOrderMeans(s.runs, |s.runs|, provider, now);
    var ids := ExpiredInOrder(s.runs, |s.runs|, provider, now);
    forall i | 0 <= i < |ids| ensures IsExpired(s.runs[ids[i]], provider, now) {
      assert ids[i] in ids;
    }
  }

  /** A requeue takes the overdue runs of its queue oldest first: one is left for a later call
      exactly when the batch is full of runs that were due before it. */
  lemma OldestExpireFirst(runs: seq<CloudRun>, provider: QueueProvider, limit: nat, now: Time, r: RunId)
    requires r < |runs| && Overdue(runs[r], provider, now)
    ensures var batch := ExpiredQuery(runs, provider, limit, now);
      && Rising(runs, batch)
      && (r !in batch <==> |batch| == limit && forall i :: 0 <= i < |batch| ==> ExpiresBefore(runs, batch[i], r))
  {
    ExpiredInOrderMeans(runs, |runs|, provider, now);
    var ids := ExpiredInOrder(runs, |runs|, provider, now);
    assert r in ids;
    var k :| 0 <= k < |ids| && ids[k] == r;
    if k < limit && |ids| > limit {
      assert ids[..limit][k] == r;
    }
    assert !ExpiresBefore(runs, r, r);
  }
}
