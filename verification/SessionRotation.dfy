/** Rotation of the session secret by compare-and-swap (services/auth_context.py), among any
    number of requests that present secrets of one device session.

    A request resolves the secret it presents in one step; when a rotation is due it rotates in
    a second one, and once accepted it may renew the session's activity in another, so that
    other requests can come in between. Secrets are numbered in the
    order they are drawn: they are never drawn twice, and their hashes tell them apart.
 */
module SessionRotation {
  import opened Entities

  const ROTATION_INTERVAL: nat := 24 * 3600 * SECOND
  const GRACE: nat := 120 * SECOND
  const IDLE_LIFETIME: nat := 30 * 24 * 3600 * SECOND
  const SEEN_INTERVAL: nat := 3600 * SECOND

  datatype Status = Active | Revoked | Expired

  datatype DeviceSession = DeviceSession(
    status: Status,
    secret: nat,
    previous: Option<nat>,
    previousValidUntil: Option<Time>,
    rotatedAt: Time,
    lastSeenAt: Time,
    idleExpiresAt: Time)

  datatype Rejection = InvalidCredential | IdleTimeout | SuspectedReplay

  datatype Resolution = Resolved(usesCurrent: bool) | Rejected(reason: Rejection)

  /** resolve_user_session_credential, in the order of its checks. */
  function Resolve(s: DeviceSession, secret: nat, now: Time): (DeviceSession, Resolution) {
    var usesCurrent, usesPrevious := s.secret == secret, s.previous == Some(secret);
    if !s.status.Active? then (s, Rejected(InvalidCredential))
    else if s.idleExpiresAt <= now then (s.(status := Expired), Rejected(IdleTimeout))
    else if usesPrevious && (s.previousValidUntil.None? || s.previousValidUntil.value < now) then
      (s.(status := Revoked), Rejected(SuspectedReplay))
    else if !usesCurrent && !usesPrevious then (s, Rejected(InvalidCredential))
    else (s, Resolved(usesCurrent))
  }

  predicate RotationDue(s: DeviceSession, now: Time) {
    s.rotatedAt + ROTATION_INTERVAL <= now
  }

  /** The row after a rotation; the times of the request come from the row it had read. */
  function Rotated(s: DeviceSession, drawn: nat, lastSeenAt: Time, now: Time): DeviceSession {
    var row := s.(secret := drawn, previous := Some(s.secret), previousValidUntil := Some(now + GRACE),
                  rotatedAt := now);
    if lastSeenAt + SEEN_INTERVAL <= now then row.(lastSeenAt := now, idleExpiresAt := now + IDLE_LIFETIME) else row
  }

  /** A request between its two steps, with what it read of the row. */
  datatype Request = Request(secret: nat, now: Time, rotatedAt: Time, lastSeenAt: Time)

  datatype Outcome = Won | InGrace | Lost

  predicate InGraceFor(s: DeviceSession, secret: nat, now: Time) {
    s.status.Active? && s.previous == Some(secret) && s.previousValidUntil.Some? && s.previousValidUntil.value >= now
  }

  /** _rotate_user_session_credential */
  function Rotate(s: DeviceSession, r: Request, drawn: nat): (DeviceSession, Outcome) {
    if s.status.Active? && s.secret == r.secret && s.rotatedAt == r.rotatedAt then
      (Rotated(s, drawn, r.lastSeenAt, r.now), Won)
    else (s, if InGraceFor(s, r.secret, r.now) then InGrace else Lost)
  }

  // ---- any number of requests ----

  /** An accepted request: its secret, how many rotations there had been when it was accepted,
      whether it made the last of them, and the activity time it then read. */
  datatype Acceptance = Acceptance(secret: nat, now: Time, rotations: nat, won: bool, lastSeenAt: Time)

  /** Rotation number `i` replaced secret `i` by secret `i + 1`; `rotations` tells when. */
  datatype Device = Device(
    session: DeviceSession,
    createdAt: Time,
    rotations: seq<Time>,
    requests: seq<Request>,
    accepted: seq<Acceptance>)

  function Created(now: Time): Device {
    Device(DeviceSession(Active, 0, None, None, now, now, now + IDLE_LIFETIME), now, [], [], [])
  }

  datatype Step =
    | Present(secret: nat, now: Time)
    | RotateFor(request: nat)
    | RenewFor(acceptance: nat)
    | Reauthenticate(expected: nat, now: Time)
    | Revoke

  function Accept(d: Device, secret: nat, now: Time, won: bool): Device {
    d.(accepted := d.accepted + [Acceptance(secret, now, |d.rotations|, won, d.session.lastSeenAt)])
  }

  function PresentSecret(d: Device, secret: nat, now: Time): Device {
    var (row, resolution) := Resolve(d.session, secret, now);
    var after := d.(session := row);
    if resolution.Rejected? then after
    else if resolution.usesCurrent && RotationDue(row, now) then
      after.(requests := after.requests + [Request(secret, now, row.rotatedAt, row.lastSeenAt)])
    else Accept(after, secret, now, false)
  }

  function RotateRequest(d: Device, r: Request): Device {
    var (row, outcome) := Rotate(d.session, r, |d.rotations| + 1);
    match outcome
    case Won => Accept(d.(session := row, rotations := d.rotations + [r.now]), r.secret, r.now, true)
    case InGrace => Accept(d, r.secret, r.now, false)
    case Lost => d
  }

  /** The hourly checkpoint of an accepted request, conditional on the activity time it read. */
  function Renew(s: DeviceSession, lastSeenAt: Time, now: Time): (DeviceSession, bool) {
    if lastSeenAt + SEEN_INTERVAL <= now && s.status.Active? && s.lastSeenAt == lastSeenAt then
      (s.(lastSeenAt := now, idleExpiresAt := now + IDLE_LIFETIME), true)
    else (s, false)
  }

  function Next(d: Device, step: Step): Device {
    match step
    case Present(secret, now) => PresentSecret(d, secret, now)
    case RotateFor(k) => if k < |d.requests| then RotateRequest(d, d.requests[k]) else d
    case RenewFor(k) =>
      if k < |d.accepted| then
        d.(session := Renew(d.session, d.accepted[k].lastSeenAt, d.accepted[k].now).0)
      else d
    case Reauthenticate(expected, now) =>
      // The second way to rotate: a completed login with recent authentication.
      if d.session.status.Active? && d.session.secret == expected then
        d.(session := d.session.(secret := |d.rotations| + 1, previous := Some(expected),
                                 previousValidUntil := Some(now + GRACE), rotatedAt := now),
           rotations := d.rotations + [now])
      else d
    case Revoke => d.(session := d.session.(status := Revoked))
  }

  function Exec(createdAt: Time, steps: seq<Step>): Device {
    if steps == [] then Created(createdAt) else Next(Exec(createdAt, steps[..|steps| - 1]), steps[|steps| - 1])
  }

  // ---- invariants ----

  /** The row shows the last rotation. */
  ghost predicate ShowsLastRotation(d: Device) {
    var s, n := d.session, |d.rotations|;
    && s.secret == n
    && s.previous == (if n == 0 then None else Some(n - 1))
    && s.previousValidUntil == (if n == 0 then None else Some(d.rotations[n - 1] + GRACE))
    && s.rotatedAt == (if n == 0 then d.createdAt else d.rotations[n - 1])
  }

  /** When a secret became the current one. */
  function CurrentSince(d: Device, secret: nat): Time
    requires secret <= |d.rotations|
  {
    if secret == 0 then d.createdAt else d.rotations[secret - 1]
  }

  ghost predicate RequestsOk(d: Device) {
    forall r <- d.requests ::
      && r.secret <= |d.rotations| && (r.secret == |d.rotations| ==> r.rotatedAt == d.session.rotatedAt)
      && r.rotatedAt + ROTATION_INTERVAL <= r.now
  }

  ghost predicate AcceptedOk(d: Device, a: Acceptance) {
    && a.rotations <= |d.rotations|
    && (a.won ==>
          && a.rotations == a.secret + 1 && d.rotations[a.secret] == a.now
          && CurrentSince(d, a.secret) + ROTATION_INTERVAL <= a.now)
    && (!a.won ==>
          (|| a.secret == a.rotations
           || (a.secret + 1 == a.rotations && a.now <= d.rotations[a.secret] + GRACE)))
  }

  ghost predicate OneWinner(accepted: seq<Acceptance>) {
    forall i, j :: 0 <= i < j < |accepted| && accepted[i].won && accepted[j].won ==>
      accepted[i].secret < accepted[j].secret
  }

  /** The session idles out its whole lifetime after it was last seen. */
  predicate IdlesOut(d: Device) {
    d.session.idleExpiresAt == d.session.lastSeenAt + IDLE_LIFETIME
  }

  ghost predicate Inv(d: Device) {
    && ShowsLastRotation(d) && RequestsOk(d) && IdlesOut(d)
    && (forall a <- d.accepted :: AcceptedOk(d, a))
    && OneWinner(d.accepted)
  }

  lemma RotationKeepsAccepted(d: Device, e: Device)
    requires (forall a <- d.accepted :: AcceptedOk(d, a)) && d.rotations <= e.rotations && e.createdAt == d.createdAt
    ensures forall a <- d.accepted :: AcceptedOk(e, a)
  {
  }

  lemma PresentKeeps(d: Device, secret: nat, now: Time)
    requires Inv(d)
    ensures Inv(PresentSecret(d, secret, now))
  {
    RotationKeepsAccepted(d, PresentSecret(d, secret, now));
  }

  lemma AcceptKeeps(d: Device, secret: nat, now: Time, won: bool)
    requires (forall a <- d.accepted :: AcceptedOk(d, a)) && OneWinner(d.accepted)
    requires AcceptedOk(d, Acceptance(secret, now, |d.rotations|, won, d.session.lastSeenAt))
    requires forall a <- d.accepted :: won && a.won ==> a.secret < secret
    ensures var after := Accept(d, secret, now, won);
      (forall a <- after.accepted :: AcceptedOk(after, a)) && OneWinner(after.accepted)
  {
  }

  lemma RotateKeeps(d: Device, r: Request)
    requires Inv(d) && r in d.requests
    ensures Inv(RotateRequest(d, r))
  {
    hide OneWinner;
    var (row, outcome) := Rotate(d.session, r, |d.rotations| + 1);
    if outcome.Won? {
      var rotated := d.(session := row, rotations := d.rotations + [r.now]);
      RotationKeepsAccepted(d, rotated);
      assert forall a <- d.accepted :: a.won ==> a.secret < |d.rotations|;
      AcceptKeeps(rotated, r.secret, r.now, true);
    } else if outcome.InGrace? {
      AcceptKeeps(d, r.secret, r.now, false);
    }
  }

  lemma NextKeeps(d: Device, step: Step)
    requires Inv(d)
    ensures Inv(Next(d, step))
  {
    match step
    case Present(secret, now) => PresentKeeps(d, secret, now);
    case RotateFor(k) =>
      if k < |d.requests| {
        RotateKeeps(d, d.requests[k]);
      }
    case RenewFor(_) => RotationKeepsAccepted(d, Next(d, step));
    case Reauthenticate(_, _) => RotationKeepsAccepted(d, Next(d, step));
    case Revoke => RotationKeepsAccepted(d, Next(d, step));
  }

  lemma {:induction false} Reachable(createdAt: Time, steps: seq<Step>)
    ensures Inv(Exec(createdAt, steps))
    decreases |steps|
  {
    if steps != [] {
      Reachable(createdAt, steps[..|steps| - 1]);
      NextKeeps(Exec(createdAt, steps[..|steps| - 1]), steps[|steps| - 1]);
    }
  }

  // ---- theorems ----

  /** Of any number of requests that present one secret, at most one rotates it. */
  lemma OneRotationPerSecret(createdAt: Time, steps: seq<Step>, i: nat, j: nat)
    requires i < j < |Exec(createdAt, steps).accepted|
    requires Exec(createdAt, steps).accepted[i].won && Exec(createdAt, steps).accepted[j].won
    ensures Exec(createdAt, steps).accepted[i].secret != Exec(createdAt, steps).accepted[j].secret
  {
    hide Exec;
    Reachable(createdAt, steps);
  }

  /** A request rotates no secret that has been the current one for less than a day. */
  lemma SecretsLastADay(createdAt: Time, steps: seq<Step>, i: nat)
    requires i < |Exec(createdAt, steps).accepted| && Exec(createdAt, steps).accepted[i].won
    ensures var d, a := Exec(createdAt, steps), Exec(createdAt, steps).accepted[i];
      && a.secret < |d.rotations| && d.rotations[a.secret] == a.now
      && CurrentSince(d, a.secret) + ROTATION_INTERVAL <= a.now
  {
    hide Exec;
    Reachable(createdAt, steps);
    var d := Exec(createdAt, steps);
    assert d.accepted[i] in d.accepted;
  }

  /** And one does: a request that tries to rotate an active session's secret either rotates
      it, exactly when it is still the current one, or finds it already replaced; it is then
      accepted exactly within the grace time of the rotation that replaced it, and of no other. */
  lemma TheOthersNeedTheGraceTime(createdAt: Time, steps: seq<Step>, k: nat)
    requires k < |Exec(createdAt, steps).requests| && Exec(createdAt, steps).session.status.Active?
    ensures var d, r := Exec(createdAt, steps), Exec(createdAt, steps).requests[k];
      var outcome := Rotate(d.session, r, |d.rotations| + 1).1;
      && (outcome.Won? <==> r.secret == |d.rotations|)
      && (outcome.InGrace? <==> r.secret + 1 == |d.rotations| && r.now <= d.rotations[r.secret] + GRACE)
      && r.secret < |RotateRequest(d, r).rotations|
  {
    hide Exec;
    Reachable(createdAt, steps);
    var d := Exec(createdAt, steps);
    assert d.requests[k] in d.requests;
  }

  /** Every request ever accepted presented the current secret, or the one before it within
      the grace time of the rotation between them; older secrets are never accepted. */
  lemma AcceptedSecretsAreRecent(createdAt: Time, steps: seq<Step>, i: nat)
    requires i < |Exec(createdAt, steps).accepted|
    ensures var d, a := Exec(createdAt, steps), Exec(createdAt, steps).accepted[i];
      && a.rotations <= |d.rotations|
      && (a.secret == a.rotations
          || (a.secret + 1 == a.rotations && a.now <= d.rotations[a.secret] + GRACE))
  {
    hide Exec;
    Reachable(createdAt, steps);
    var d := Exec(createdAt, steps);
    assert d.accepted[i] in d.accepted;
  }

  /** Which secrets open an active session that is not idled out: the current one, and the one
      before it up to the end of its grace time; the request learns which. Presenting the one
      before it later revokes the session, and any other secret is refused without a trace. */
  lemma OpensExactly(createdAt: Time, steps: seq<Step>, secret: nat, now: Time)
    requires var s := Exec(createdAt, steps).session; s.status.Active? && now < s.lastSeenAt + 30 * 24 * 3600 * SECOND
    ensures var d := Exec(createdAt, steps);
      var n := |d.rotations|;
      var (row, answer) := Resolve(d.session, secret, now);
      && (answer == Resolved(true) <==> secret == n)
      && (answer == Resolved(false) <==> secret + 1 == n && now <= d.rotations[secret] + 120 * SECOND)
      && (answer == Rejected(SuspectedReplay) <==> secret + 1 == n && now > d.rotations[secret] + 120 * SECOND)
      && (answer == Rejected(InvalidCredential) <==> secret != n && secret + 1 != n)
      && row == (if answer == Rejected(SuspectedReplay) then d.session.(status := Revoked) else d.session)
  {
    hide Exec;
    Reachable(createdAt, steps);
  }

  /** A request that presents the current secret is accepted, unless the secret has been current
      for a day: then the request has a rotation to make, of the row as it read it. One that
      presents the secret before it, in its grace time, is accepted. */
  lemma PresentingMeans(createdAt: Time, steps: seq<Step>, secret: nat, now: Time)
    requires var s := Exec(createdAt, steps).session; s.status.Active? && now < s.lastSeenAt + 30 * 24 * 3600 * SECOND
    ensures var d, t := Exec(createdAt, steps), Exec(createdAt, steps + [Present(secret, now)]);
      var n := |d.rotations|;
      var entered := Acceptance(secret, now, n, false, d.session.lastSeenAt);
      && (secret == n && now < CurrentSince(d, n) + 24 * 3600 * SECOND ==> t == d.(accepted := d.accepted + [entered]))
      && (secret == n && now >= CurrentSince(d, n) + 24 * 3600 * SECOND ==>
            t == d.(requests := d.requests + [Request(n, now, CurrentSince(d, n), d.session.lastSeenAt)]))
      && (secret + 1 == n && now <= d.rotations[secret] + 120 * SECOND ==> t == d.(accepted := d.accepted + [entered]))
      && (secret != n && (secret + 1 != n || now > d.rotations[secret] + 120 * SECOND) ==>
            t.accepted == d.accepted && t.requests == d.requests)
  {
    hide Exec, Resolve;
    Reachable(createdAt, steps);
    OpensExactly(createdAt, steps, secret, now);
    ExecOneMore(createdAt, steps, Present(secret, now));
  }

  lemma ExecOneMore(createdAt: Time, steps: seq<Step>, step: Step)
    ensures Exec(createdAt, steps + [step]) == Next(Exec(createdAt, steps), step)
  {
    hide Next;
    assert (steps + [step])[..|steps + [step]| - 1] == steps;
  }

  /** A request whose rotation wins, and a login with recent authentication, replace the current
      secret by a new one at their own time, and are on record; one that comes too late
      replaces nothing. */
  lemma RotatingMeans(createdAt: Time, steps: seq<Step>, k: nat, expected: nat, now: Time)
    requires Exec(createdAt, steps).session.status.Active?
    ensures var d := Exec(createdAt, steps);
      var t := Exec(createdAt, steps + [Reauthenticate(expected, now)]);
      if expected != |d.rotations| then t == d
      else t.rotations == d.rotations + [now] && t.session.secret == |d.rotations| + 1 && t.accepted == d.accepted
    ensures var d := Exec(createdAt, steps);
      k < |d.requests| ==>
        var r, t := d.requests[k], Exec(createdAt, steps + [RotateFor(k)]);
        && t.rotations == d.rotations + (if r.secret == |d.rotations| then [r.now] else [])
        && t.session.lastSeenAt ==
             (if r.secret == |d.rotations| && r.lastSeenAt + 3600 * SECOND <= r.now then r.now
              else d.session.lastSeenAt)
        && (t.accepted != d.accepted <==>
              || r.secret == |d.rotations|
              || (r.secret + 1 == |d.rotations| && r.now <= d.rotations[r.secret] + 120 * SECOND))
  {
    hide Exec;
    Reachable(createdAt, steps);
    ExecOneMore(createdAt, steps, Reauthenticate(expected, now));
    var d := Exec(createdAt, steps);
    if k < |d.requests| {
      ExecOneMore(createdAt, steps, RotateFor(k));
      assert d.requests[k] in d.requests;
    }
  }

  /** Whoever has access to a session ends it: no secret opens it from then on. */
  lemma RevokingMeans(createdAt: Time, steps: seq<Step>, more: seq<Step>)
    ensures var d, t := Exec(createdAt, steps), Exec(createdAt, steps + [Revoke] + more);
      && !t.session.status.Active? && t.accepted == d.accepted && t.rotations == d.rotations
      && forall secret, now :: Resolve(t.session, secret, now).1 == Rejected(InvalidCredential)
  {
    hide Exec;
    ExecOneMore(createdAt, steps, Revoke);
    RevokedForever(createdAt, steps + [Revoke], more);
  }

  /** An accepted request renews the activity of its session at its own time, if that is an hour
      later than the time it had read and nobody has renewed it since. */
  lemma RenewingMeans(createdAt: Time, steps: seq<Step>, k: nat)
    requires k < |Exec(createdAt, steps).accepted| && Exec(createdAt, steps).session.status.Active?
    ensures var d, t := Exec(createdAt, steps), Exec(createdAt, steps + [RenewFor(k)]);
      var a := d.accepted[k];
      if a.lastSeenAt + 3600 * SECOND <= a.now && d.session.lastSeenAt == a.lastSeenAt then
        t == d.(session := d.session.(lastSeenAt := a.now, idleExpiresAt := a.now + 30 * 24 * 3600 * SECOND))
      else t == d
  {
    hide Exec;
    ExecOneMore(createdAt, steps, RenewFor(k));
  }

  /** An active session that is presented a secret idles out exactly when it was last seen a
      whole idle lifetime ago; and a request makes its own time the activity time exactly when
      it is an hour later than the one it read and has not been overtaken. */
  lemma SessionsIdleOut(createdAt: Time, steps: seq<Step>, secret: nat, read: Time, now: Time)
    requires Exec(createdAt, steps).session.status.Active?
    ensures var s := Exec(createdAt, steps).session;
      && (Resolve(s, secret, now).0.status.Expired? <==> s.lastSeenAt + 30 * 24 * 3600 * SECOND <= now)
      && (Resolve(s, secret, now).1 == Rejected(IdleTimeout) <==> s.lastSeenAt + 30 * 24 * 3600 * SECOND <= now)
      && var (row, renewed) := Renew(s, read, now);
         && (renewed <==> s.lastSeenAt == read && read + 3600 * SECOND <= now)
         && row == (if renewed then s.(lastSeenAt := now, idleExpiresAt := now + 30 * 24 * 3600 * SECOND) else s)
  {
    hide Exec;
    Reachable(createdAt, steps);
  }

  /** A replay is an alarm: presenting the previous secret after its grace time revokes the
      session, and a session that is not active accepts nothing ever again. */
  lemma ReplayRevokes(s: DeviceSession, secret: nat, now: Time)
    requires s.status.Active? && now < s.idleExpiresAt && s.secret != secret
    ensures Resolve(s, secret, now).0.status.Revoked? <==>
      s.previous == Some(secret) && (s.previousValidUntil.None? || s.previousValidUntil.value < now)
    ensures Resolve(s, secret, now).0.status.Revoked? ==> Resolve(s, secret, now).1 == Rejected(SuspectedReplay)
  {
  }

  lemma InactiveAcceptsNothing(d: Device, step: Step)
    requires !d.session.status.Active?
    ensures !Next(d, step).session.status.Active?
    ensures Next(d, step).accepted == d.accepted && Next(d, step).rotations == d.rotations
  {
  }

  lemma {:induction false} RevokedForever(createdAt: Time, steps: seq<Step>, more: seq<Step>)
    requires !Exec(createdAt, steps).session.status.Active?
    ensures Exec(createdAt, steps + more).accepted == Exec(createdAt, steps).accepted
    ensures Exec(createdAt, steps + more).rotations == Exec(createdAt, steps).rotations
    ensures !Exec(createdAt, steps + more).session.status.Active?
    decreases |more|
  {
    hide Next;
    if more == [] {
      assert steps + more == steps;
    } else {
      RevokedForever(createdAt, steps, more[..|more| - 1]);
      assert (steps + more)[..|steps + more| - 1] == steps + more[..|more| - 1];
      InactiveAcceptsNothing(Exec(createdAt, steps + more[..|more| - 1]), more[|more| - 1]);
    }
  }

  lemma NextExtends(d: Device, step: Step)
    ensures d.rotations <= Next(d, step).rotations
  {
  }

  lemma {:induction false} RotationsExtend(createdAt: Time, steps: seq<Step>, more: seq<Step>)
    ensures Exec(createdAt, steps).rotations <= Exec(createdAt, steps + more).rotations
    decreases |more|
  {
    hide Next;
    if more == [] {
      assert steps + more == steps;
    } else {
      RotationsExtend(createdAt, steps, more[..|more| - 1]);
      assert (steps + more)[..|steps + more| - 1] == steps + more[..|more| - 1];
      NextExtends(Exec(createdAt, steps + more[..|more| - 1]), more[|more| - 1]);
    }
  }

  // ---- the code as it runs ----

  /** The device session row. */
  class SessionRow {
    var status: Status
    var secret: nat
    var previous: Option<nat>
    var previousValidUntil: Option<Time>
    var rotatedAt: Time
    var lastSeenAt: Time
    var idleExpiresAt: Time

    ghost function View(): DeviceSession
      reads this
    {
      DeviceSession(status, secret, previous, previousValidUntil, rotatedAt, lastSeenAt, idleExpiresAt)
    }

    constructor (now: Time)
      ensures View() == Created(now).session
    {
      status, secret, previous, previousValidUntil := Active, 0, None, None;
      rotatedAt, lastSeenAt, idleExpiresAt := now, now, now + IDLE_LIFETIME;
    }

    method ResolveCredential(presented: nat, now: Time) returns (resolution: Resolution)
      modifies this`status
      ensures (View(), resolution) == Resolve(old(View()), presented, now)
    {
      var usesCurrent := secret == presented;
      var usesPrevious := previous.Some? && previous.value == presented;
      if status.Revoked? {
        return Rejected(InvalidCredential);
      }
      if !status.Active? {
        return Rejected(InvalidCredential);
      }
      if idleExpiresAt <= now {
        status := Expired;
        return Rejected(IdleTimeout);
      }
      if usesPrevious {
        if previousValidUntil.None? || previousValidUntil.value < now {
          status := Revoked;
          return Rejected(SuspectedReplay);
        }
      }
      if !usesCurrent && !usesPrevious {
        return Rejected(InvalidCredential);
      }
      return Resolved(usesCurrent);
    }

    /** The conditional update of a rotation. */
    method SwapSecret(expected: nat, expectedRotatedAt: Time, drawn: nat, now: Time) returns (swapped: bool)
      modifies this
      ensures swapped <==> old(status).Active? && old(secret) == expected && old(rotatedAt) == expectedRotatedAt
      ensures View() == if swapped then old(View()).(secret := drawn, previous := Some(expected),
        previousValidUntil := Some(now + GRACE), rotatedAt := now) else old(View())
    {
      swapped := status.Active? && secret == expected && rotatedAt == expectedRotatedAt;
      if swapped {
        secret, previous, previousValidUntil, rotatedAt := drawn, Some(expected), Some(now + GRACE), now;
      }
    }

    /** The conditional update of the hourly activity checkpoint. */
    method RenewActivity(readLastSeenAt: Time, now: Time) returns (renewed: bool)
      modifies this
      ensures (View(), renewed) == Renew(old(View()), readLastSeenAt, now)
    {
      renewed := readLastSeenAt + SEEN_INTERVAL <= now && status.Active? && lastSeenAt == readLastSeenAt;
      if renewed {
        lastSeenAt, idleExpiresAt := now, now + IDLE_LIFETIME;
      }
    }

    method RotateCredential(r: Request, drawn: nat) returns (outcome: Outcome)
      modifies this
      ensures (View(), outcome) == Rotate(old(View()), r, drawn)
    {
      var swapped := SwapSecret(r.secret, r.rotatedAt, drawn, r.now);
      if swapped {
        if r.lastSeenAt + SEEN_INTERVAL <= r.now {
          lastSeenAt, idleExpiresAt := r.now, r.now + IDLE_LIFETIME;
        }
        return Won;
      }
      if status.Active? && previous.Some? && previous.value == r.secret
         && previousValidUntil.Some? && previousValidUntil.value >= r.now {
        return InGrace;
      }
      return Lost;
    }
  }
}
