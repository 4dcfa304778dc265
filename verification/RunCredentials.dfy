/** What a worker has to show, said without the order in which services/cloud_runner.py checks it. */
module RunCredentials {
  import opened Entities
  import opened Text
  import opened CloudRunner

  /** The credential opens the run: it presents the secret of an unused token that has not
      expired, or the run has no token and none is insisted on. */
  predicate Proves(r: RunId, run: CloudRun, cred: Credential, now: Time) {
    match run.callback
    case None => !cred.required
    case Some(token) =>
      && token.usedAt.None? && now <= token.expiresAt
      && cred.secret.Some? && token.hash == TokenHash(r, cred.worker, cred.secret.value)
  }

  /** The worker is missing a secret that it needs. */
  predicate OwesSecret(run: CloudRun, cred: Credential) {
    cred.secret.None? && run.callback.Some?
  }

  lemma RefusalMeans(r: RunId, run: CloudRun, cred: Credential, now: Time)
    ensures TokenRefusal(r, run, cred, now).None? <==> Proves(r, run, cred, now)
    ensures TokenRefusal(r, run, cred, now).Some? ==>
      TokenRefusal(r, run, cred, now).value == if OwesSecret(run, cred) then TokenRequired else TokenInvalid
  {
  }

  /** The name of the worker that a protected run is bound to, by its providers. */
  predicate NamesWorker(req: EnqueueRequest, r: RunId, worker: string) {
    match req.runtimeProvider
    case Some(AliyunEci) => worker == "aliyun-eci-" + Decimal(r)
    case Some(OtherRuntime(name)) => worker == name + "-" + Decimal(r)
    case None => req.queueProvider.AliyunMns? && worker == "aliyun-mns-" + Decimal(r)
  }

  /** A run is protected when a remote runtime or a remote queue hands it out. */
  predicate IsProtected(req: EnqueueRequest) {
    req.runtimeProvider.Some? || req.queueProvider.AliyunMns?
  }

  /** The callback token of a run that was enqueued at an instant. */
  predicate TokenFor(req: EnqueueRequest, r: RunId, at: Time, callback: Option<CallbackToken>) {
    && (callback.Some? <==> IsProtected(req))
    && (callback.Some? ==>
          && callback.value.expiresAt == at + 3600 * SECOND
          && callback.value.hash.run == r && callback.value.hash.secret == req.secret
          && NamesWorker(req, r, callback.value.hash.worker))
  }

  lemma NewRunHasItsToken(req: EnqueueRequest, r: RunId, reservation: ReservationId, cents: int, at: Time)
    ensures var run := NewRun(req, r, reservation, cents, at);
      TokenFor(req, r, at, run.callback) && (run.callback.Some? ==> run.callback.value.usedAt.None?)
  {
  }

  /** A protected run opens to the worker and the secret it was created with, for one hour, until
      its token is used, and to no other; an unprotected run to any worker that does not insist
      on a token. */
  lemma TokenOpensItsRun(
      req: EnqueueRequest, r: RunId, reservation: ReservationId, at: Time, cred: Credential, now: Time)
    ensures var run := NewRun(req, r, reservation, 100, at);
      TokenRefusal(r, run, cred, now).None? <==>
        if IsProtected(req) then
          NamesWorker(req, r, cred.worker) && cred.secret == Some(req.secret) && now <= at + 3600 * SECOND
        else !cred.required
    ensures var run := NewRun(req, r, reservation, 100, at);
      run.callback.Some? ==> TokenRefusal(r, run.(callback := UseToken(run.callback, at)), cred, now).Some?
  {
    NewRunHasItsToken(req, r, reservation, 100, at);
  }
}
