/** Which worker callbacks are accepted, exactly, and what an accepted one does. */
module RunCallbacks {
  import opened Entities
  import opened Rows
  import opened CloudRunner
  import opened RunCredentials
  import opened RunInvariants
  import opened RunQueries
  import opened LeaseFencing

  /** The run is out on the lease, the worker holds it, and it lasts. */
  predicate HeldBy(run: CloudRun, lease: LeaseId, worker: string, now: Time) {
    run.status == Running && run.lease == Some(lease) && run.worker == Some(worker) && LeaseLasts(run, now)
  }

  lemma FirstIsTheOnlyOne(runs: seq<CloudRun>, keep: CloudRun -> bool, r: nat)
    requires r < |runs| && keep(runs[r])
    requires forall k :: 0 <= k < |runs| && k != r ==> !keep(runs[k])
    ensures FirstIndex(runs, keep) == r
  {
  }

  lemma RunHoldingLease(s: State, r: RunId, lease: LeaseId, worker: string)
    requires Inv(s) && LeasesOk(s) && r < |s.runs| && s.runs[r].lease == Some(lease)
    ensures FirstIndex(s.runs, HasLease(lease)) == r
    ensures var k := FirstIndex(s.runs, HoldsLease(lease, worker));
      k == if s.runs[r].status == Running && s.runs[r].worker == Some(worker) then r else -1
  {
    FirstIsTheOnlyOne(s.runs, HasLease(lease), r);
    assert RunOk(s, r);
    if s.runs[r].status == Running && s.runs[r].worker == Some(worker) {
      FirstIsTheOnlyOne(s.runs, HoldsLease(lease, worker), r);
    }
  }

  lemma NoRunHoldsLease(s: State, lease: LeaseId, worker: string)
    requires forall r :: 0 <= r < |s.runs| ==> s.runs[r].lease != Some(lease)
    ensures FirstIndex(s.runs, HasLease(lease)) == -1
    ensures FirstIndex(s.runs, HoldsLease(lease, worker)) == -1
  {
  }

  /** The answer to a callback when one run has the lease. */
  lemma ResolveByRun(s: State, r: RunId, lease: LeaseId, cred: Credential, now: Time)
    requires Inv(s) && LeasesOk(s) && r < |s.runs| && s.runs[r].lease == Some(lease)
    ensures var held, proved := HeldBy(s.runs[r], lease, cred.worker, now), Proves(r, s.runs[r], cred, now);
      Resolve(s.runs, lease, cred, now) ==
        if held && proved then Current(r)
        else if cred.secret.None? && (cred.required || (held && s.runs[r].callback.Some?)) then Refused(TokenRequired)
        else if !proved && (cred.required || held) then Refused(TokenInvalid)
        else Refused(LeaseNotCurrent)
  {
    RunHoldingLease(s, r, lease, cred.worker);
    RefusalMeans(r, s.runs[r], cred, now);
    assert RunOk(s, r);
  }

  /** A callback is accepted exactly when its worker holds the lease, the lease lasts, and the
      credential opens the run: with no token and none insisted on, or with the secret of an
      unused token that has not expired. */
  lemma AcceptedExactly(steps: seq<Step>, r: RunId, lease: LeaseId, cred: Credential, now: Time)
    ensures var s := Exec(steps);
      Resolve(s.runs, lease, cred, now) == Current(r) <==>
        r < |s.runs| && HeldBy(s.runs[r], lease, cred.worker, now) && Proves(r, s.runs[r], cred, now)
  {
    hide Exec, Resolve, HeldBy, Proves;
    var s := Exec(steps);
    HistoryIsFenced(steps);
    if k :| 0 <= k < |s.runs| && s.runs[k].lease == Some(lease) {
      ResolveByRun(s, k, lease, cred, now);
      HeldHasLease(s, r, k, lease, cred, now);
    } else {
      UnknownLeaseIsRefused(s, lease, cred, now);
      if r < |s.runs| && HeldBy(s.runs[r], lease, cred.worker, now) {
        HeldHasLease(s, r, r, lease, cred, now);
        assert false;
      }
    }
  }

  lemma HeldHasLease(s: State, r: RunId, k: RunId, lease: LeaseId, cred: Credential, now: Time)
    requires LeasesOk(s) && k < |s.runs|
    ensures r < |s.runs| && HeldBy(s.runs[r], lease, cred.worker, now) ==> s.runs[r].lease == Some(lease)
    ensures r < |s.runs| && r != k && s.runs[k].lease == Some(lease) ==> s.runs[r].lease != Some(lease)
  {
  }

  lemma UnknownLeaseIsRefused(s: State, lease: LeaseId, cred: Credential, now: Time)
    requires forall r :: 0 <= r < |s.runs| ==> s.runs[r].lease != Some(lease)
    ensures Resolve(s.runs, lease, cred, now) ==
      Refused(if !cred.required then LeaseNotCurrent else if cred.secret.None? then TokenRequired else TokenInvalid)
  {
    NoRunHoldsLease(s, lease, cred.worker);
  }

  /** A refusal says no more than it must: whoever has to insist on a token learns of the lease
      only after the token was found good, and of the token only when the lease is held. */
  lemma RefusalSaysWhy(steps: seq<Step>, r: RunId, lease: LeaseId, cred: Credential, now: Time)
    requires r < |Exec(steps).runs| && Exec(steps).runs[r].lease == Some(lease)
    ensures var run := Exec(steps).runs[r];
      var held, proved := HeldBy(run, lease, cred.worker, now), Proves(r, run, cred, now);
      var answer := Resolve(Exec(steps).runs, lease, cred, now);
      && (answer == Refused(TokenRequired) <==>
            cred.secret.None? && (cred.required || (held && run.callback.Some?)))
      && (answer == Refused(TokenInvalid) <==>
            !proved && (cred.required || held) && (cred.secret.Some? || (!cred.required && run.callback.None?)))
      && (answer == Refused(LeaseNotCurrent) <==> !held && (cred.required ==> proved))
  {
    hide Exec, Resolve, HeldBy;
    HistoryIsFenced(steps);
    ResolveByRun(Exec(steps), r, lease, cred, now);
  }

  // ---- what an accepted callback does ----

  /** An accepted heartbeat rewrites the two lease times of its run, and a refused one nothing. */
  lemma HeartbeatMeans(s: State, lease: LeaseId, cred: Credential, seconds: nat, now: Time)
    ensures var (t, found) := HeartbeatLease(s, lease, cred, seconds, now);
      && found == Resolve(s.runs, lease, cred, now)
      && (found.Refused? ==> t == s)
      && (found.Current? ==>
            && |t.runs| == |s.runs|
            && t == s.(runs := t.runs, history := s.history + [Accepted(found.run, lease, Heartbeat)])
            && (forall k :: 0 <= k < |s.runs| && k != found.run ==> t.runs[k] == s.runs[k])
            && t.runs[found.run].leaseExpiresAt == Some(now + seconds * SECOND)
            && t.runs[found.run].heartbeatAt == Some(now)
            && s.runs[found.run] == t.runs[found.run].(
                 leaseExpiresAt := s.runs[found.run].leaseExpiresAt, heartbeatAt := s.runs[found.run].heartbeatAt))
  {
    hide Resolve;
  }

  /** An accepted upload adds one stored object, of the run that the lease is held for: from then
      on it is measured among that run's bytes, and it changes no other run's. */
  lemma UploadMeans(
      s: State, lease: LeaseId, cred: Credential, stored: Option<(string, nat)>, now: Time)
    ensures var (t, found) := UploadArtifact(s, lease, cred, stored, now);
      && found == Resolve(s.runs, lease, cred, now)
      && (found.Refused? || stored.None? ==> t == s)
      && (found.Current? && stored.Some? ==>
            && t == s.(objects := t.objects, history := s.history + [Accepted(found.run, lease, Upload)])
            && |t.objects| == |s.objects| + 1 && s.objects <= t.objects
            && t.objects[|s.objects|].run == found.run
            && (t.objects[|s.objects|].uri, t.objects[|s.objects|].sizeBytes) == stored.value)
  {
    hide Resolve;
  }
}
