/** The daily audit retention cleanup (services/audit_operations.py): what one cleanup does to
    the audit tables, and the claim protocol that lets any number of workers schedule it.

    A claim, a cleanup with its conditional completion, and a failure are one step each: each
    is one transaction. Every step carries the clock of the worker that makes it, and nothing
    is assumed about those clocks.
 */
module Retention {
  import opened Entities
  import opened Calendar
  import opened Rows

  const DETAIL_RETENTION: nat := 90 * DAY
  const CORE_RETENTION: nat := 365 * DAY
  const CLEANUP_INTERVAL: nat := DAY
  const CLAIM_TIMEOUT: nat := 3600 * SECOND

  datatype IdentityEvent = IdentityEvent(
    createdAt: Time, eventType: string, outcome: string, ip: Option<string>, agent: Option<string>)

  datatype AuditRow = AuditRow(createdAt: Time, operation: string)

  datatype Tables = Tables(identity: seq<IdentityEvent>, workspace: seq<AuditRow>, secrets: seq<AuditRow>)

  datatype CleanupResult = CleanupResult(
    detailsRemoved: nat, identityDeleted: nat, workspaceDeleted: nat, secretsDeleted: nat)

  // ---- one cleanup ----

  predicate OlderThan(createdAt: Time, retention: nat, now: Time) {
    createdAt + retention < now
  }

  function IsKept(now: Time): IdentityEvent -> bool {
    (e: IdentityEvent) => !OlderThan(e.createdAt, CORE_RETENTION, now)
  }

  function RowIsKept(now: Time): AuditRow -> bool {
    (row: AuditRow) => !OlderThan(row.createdAt, CORE_RETENTION, now)
  }

  /** The rows that the update of old details touches. */
  function HasOldDetails(now: Time): IdentityEvent -> bool {
    (e: IdentityEvent) => OlderThan(e.createdAt, DETAIL_RETENTION, now) && (e.ip.Some? || e.agent.Some?)
  }

  function WithoutDetails(e: IdentityEvent, now: Time): IdentityEvent {
    if HasOldDetails(now)(e) then e.(ip := None, agent := None) else e
  }

  function Stripped(events: seq<IdentityEvent>, now: Time): (after: seq<IdentityEvent>)
    ensures |after| == |events|
  {
    seq(|events|, k requires 0 <= k < |events| => WithoutDetails(events[k], now))
  }

  function CleanupEvent(now: Time): IdentityEvent {
    IdentityEvent(now, "audit_retention_cleanup", "success", None, None)
  }

  function FailureEvent(now: Time): IdentityEvent {
    IdentityEvent(now, "audit_retention_cleanup", "failure", None, None)
  }

  function Cleaned(t: Tables, now: Time): Tables {
    Tables(Stripped(Filter(t.identity, IsKept(now)), now) + [CleanupEvent(now)],
           Filter(t.workspace, RowIsKept(now)),
           Filter(t.secrets, RowIsKept(now)))
  }

  function Counts(t: Tables, now: Time): CleanupResult {
    FilterIsShorter(t.identity, IsKept(now));
    FilterIsShorter(t.workspace, RowIsKept(now));
    FilterIsShorter(t.secrets, RowIsKept(now));
    var kept := Filter(t.identity, IsKept(now));
    CleanupResult(|Filter(kept, HasOldDetails(now))|, |t.identity| - |kept|,
                  |t.workspace| - |Filter(t.workspace, RowIsKept(now))|,
                  |t.secrets| - |Filter(t.secrets, RowIsKept(now))|)
  }

  /** What an event has become ninety days on. */
  function Aged(e: IdentityEvent, now: Time): IdentityEvent {
    if e.createdAt + 90 * DAY < now then e.(ip := None, agent := None) else e
  }

  /** A cleanup leaves exactly the rows younger than the core retention, in whatever state
      they were, except that no event older than the detail retention keeps an address or a
      user agent; and it leaves its own trace. */
  lemma CleanupMeans(t: Tables, now: Time)
    ensures var after := Cleaned(t, now);
      && (forall row ::
            row in after.workspace <==> row in t.workspace && !OlderThan(row.createdAt, CORE_RETENTION, now))
      && (forall row :: row in after.secrets <==> row in t.secrets && !OlderThan(row.createdAt, CORE_RETENTION, now))
      && CleanupEvent(now) in after.identity
      && (forall e <- t.identity ::
            !OlderThan(e.createdAt, CORE_RETENTION, now) ==> Aged(e, now) in after.identity)
      && (forall e <- after.identity ::
            && !OlderThan(e.createdAt, CORE_RETENTION, now)
            && (OlderThan(e.createdAt, DETAIL_RETENTION, now) ==> e.ip.None? && e.agent.None?)
            && (e == CleanupEvent(now) || exists o <- t.identity :: e == Aged(o, now)))
  {
    FilterKeeps(t.workspace, RowIsKept(now));
    FilterKeeps(t.secrets, RowIsKept(now));
    var kept := Filter(t.identity, IsKept(now));
    FilterKeeps(t.identity, IsKept(now));
    var stripped := Stripped(kept, now);
    forall e <- t.identity | !OlderThan(e.createdAt, CORE_RETENTION, now) ensures WithoutDetails(e, now) in stripped {
      assert e in kept;
      var k :| 0 <= k < |kept| && kept[k] == e;
      assert stripped[k] == WithoutDetails(e, now);
    }
    forall e <- stripped ensures exists o <- t.identity :: e == WithoutDetails(o, now) && IsKept(now)(o) {
      var k :| 0 <= k < |kept| && stripped[k] == e;
      assert kept[k] in kept;
    }
  }

  lemma {:induction false} KeptAndDropped<T>(rows: seq<T>, keep: T -> bool, drop: T -> bool)
    requires forall row <- rows :: keep(row) <==> !drop(row)
    ensures |Filter(rows, keep)| + |Filter(rows, drop)| == |rows|
    decreases |rows|
  {
    if rows != [] {
      KeptAndDropped(rows[..|rows| - 1], keep, drop);
    }
  }

  lemma {:induction false} FilterOfFilter<T>(rows: seq<T>, keep: T -> bool, also: T -> bool, both: T -> bool)
    requires forall row <- rows :: both(row) <==> keep(row) && also(row)
    ensures Filter(Filter(rows, keep), also) == Filter(rows, both)
    decreases |rows|
  {
    if rows != [] {
      var init, last := rows[..|rows| - 1], rows[|rows| - 1];
      FilterOfFilter(init, keep, also, both);
      FilterOneMore(Filter(init, keep), last, also);
    }
  }

  /** The event is more than a year old. */
  function TooOld(now: Time): IdentityEvent -> bool {
    (e: IdentityEvent) => e.createdAt + 365 * DAY < now
  }

  function RowIsTooOld(now: Time): AuditRow -> bool {
    (row: AuditRow) => row.createdAt + 365 * DAY < now
  }

  /** The event is between ninety days and a year old and still has an address or a user agent. */
  function LosesDetails(now: Time): IdentityEvent -> bool {
    (e: IdentityEvent) => e.createdAt + 90 * DAY < now <= e.createdAt + 365 * DAY && (e.ip.Some? || e.agent.Some?)
  }

  /** The four counts that a cleanup reports, each of the rows that were there before it: the
      events that lose their details, and the events, workspace rows and secret rows that go. */
  lemma CountsMean(t: Tables, now: Time)
    ensures Counts(t, now) == CleanupResult(
      |Filter(t.identity, LosesDetails(now))|, |Filter(t.identity, TooOld(now))|,
      |Filter(t.workspace, RowIsTooOld(now))|, |Filter(t.secrets, RowIsTooOld(now))|)
  {
    FilterOfFilter(t.identity, IsKept(now), HasOldDetails(now), LosesDetails(now));
    KeptAndDropped(t.identity, IsKept(now), TooOld(now));
    KeptAndDropped(t.workspace, RowIsKept(now), RowIsTooOld(now));
    KeptAndDropped(t.secrets, RowIsKept(now), RowIsTooOld(now));
  }

  lemma NothingOldRemains(events: seq<IdentityEvent>, now: Time)
    requires forall e <- events :: OlderThan(e.createdAt, DETAIL_RETENTION, now) ==> e.ip.None? && e.agent.None?
    ensures Stripped(events, now) == events
    ensures Filter(events, HasOldDetails(now)) == []
  {
    FilterNone(events, HasOldDetails(now));
  }

  /** Cleaning again at the same instant removes nothing: it only adds its own trace. */
  lemma CleanupIsIdempotent(t: Tables, now: Time)
    ensures var after := Cleaned(t, now);
      && Counts(after, now) == CleanupResult(0, 0, 0, 0)
      && Cleaned(after, now) == after.(identity := after.identity + [CleanupEvent(now)])
  {
    var after := Cleaned(t, now);
    CleanupMeans(t, now);
    FilterAll(after.identity, IsKept(now));
    FilterAll(after.workspace, RowIsKept(now));
    FilterAll(after.secrets, RowIsKept(now));
    NothingOldRemains(after.identity, now);
  }

  // ---- the schedule ----

  datatype Event = Claimed(token: nat, at: Time) | Committed(token: nat, at: Time)

  /** The one retention row, the audit tables, and the clock each claim was made with. The
      claim tokens are drawn fresh; `events` is the history of claims and commits. */
  datatype Schedule = Schedule(
    lastCompletedAt: Option<Time>,
    claimToken: Option<nat>,
    claimedAt: Option<Time>,
    tables: Tables,
    claims: seq<Time>,
    events: seq<Event>)

  const UNUSED: Schedule := Schedule(None, None, None, Tables([], [], []), [], [])

  predicate Due(s: Schedule, now: Time) {
    s.lastCompletedAt.None? || s.lastCompletedAt.value + CLEANUP_INTERVAL <= now
  }

  predicate Free(s: Schedule, now: Time) {
    s.claimToken.None? || (s.claimedAt.Some? && s.claimedAt.value + CLAIM_TIMEOUT <= now)
  }

  /** The conditional update that claims the cleanup. */
  function Claim(s: Schedule, now: Time): (Schedule, Option<nat>) {
    if !(Due(s, now) && Free(s, now)) then (s, None)
    else
      var token := |s.claims|;
      (s.(claimToken := Some(token), claimedAt := Some(now), claims := s.claims + [now],
          events := s.events + [Claimed(token, now)]),
       Some(token))
  }

  /** The cleanup of the worker that drew a token, and the conditional completion. When the
      token is no longer current the whole transaction is rolled back. */
  function Complete(s: Schedule, token: nat): (Schedule, bool)
    requires token < |s.claims|
  {
    var at := s.claims[token];
    if s.claimToken != Some(token) then (s, false)
    else
      (s.(lastCompletedAt := Some(at), claimToken := None, claimedAt := None, tables := Cleaned(s.tables, at),
          events := s.events + [Committed(token, at)]),
       true)
  }

  /** A worker whose cleanup raised: its transaction is gone, and its attempt to record the
      failure may succeed or not. */
  function Fail(s: Schedule, token: nat, recorded: bool): Schedule
    requires token < |s.claims|
  {
    if !recorded then s
    else s.(tables := s.tables.(identity := s.tables.identity + [FailureEvent(s.claims[token])]))
  }

  datatype Step =
    | ClaimStep(now: Time)
    | CompleteStep(token: nat)
    | FailStep(token: nat, recorded: bool)
    | OperatorStep(now: Time)
    | WriteStep(identity: seq<IdentityEvent>, workspace: seq<AuditRow>, secrets: seq<AuditRow>)

  function Next(s: Schedule, step: Step): Schedule {
    match step
    case ClaimStep(now) => Claim(s, now).0
    case CompleteStep(token) => if token < |s.claims| then Complete(s, token).0 else s
    case FailStep(token, recorded) => if token < |s.claims| then Fail(s, token, recorded) else s
    case OperatorStep(now) => s.(tables := Cleaned(s.tables, now))
    case WriteStep(identity, workspace, secrets) =>
      s.(tables := Tables(s.tables.identity + identity, s.tables.workspace + workspace, s.tables.secrets + secrets))
  }

  function Exec(steps: seq<Step>): Schedule {
    if steps == [] then UNUSED else Next(Exec(steps[..|steps| - 1]), steps[|steps| - 1])
  }

  // ---- invariants ----

  /** The row shows the last event: an open claim, or the last commit. */
  ghost predicate ShowsLastEvent(s: Schedule) {
    var h := s.events;
    if h == [] then s.claimToken.None? && s.claimedAt.None? && s.lastCompletedAt.None?
    else match h[|h| - 1]
      case Claimed(token, at) => s.claimToken == Some(token) && s.claimedAt == Some(at)
      case Committed(_, at) => s.claimToken.None? && s.claimedAt.None? && s.lastCompletedAt == Some(at)
  }

  ghost predicate LastIsLatest(s: Schedule) {
    && (s.lastCompletedAt.None? ==> forall k :: 0 <= k < |s.events| ==> s.events[k].Claimed?)
    && (s.lastCompletedAt.Some? ==> forall k :: 0 <= k < |s.events| && s.events[k].Committed? ==>
          s.events[k].at <= s.lastCompletedAt.value)
  }

  ghost predicate Spaced(h: seq<Event>) {
    forall i, k :: 0 <= i < k < |h| && h[i].Committed? ==> h[i].at + CLEANUP_INTERVAL <= h[k].at
  }

  ghost predicate CommitsFollowClaims(h: seq<Event>) {
    forall k :: 0 <= k < |h| && h[k].Committed? ==> k > 0 && h[k - 1] == Claimed(h[k].token, h[k].at)
  }

  ghost predicate ClaimsAreRecorded(s: Schedule) {
    && (forall k :: 0 <= k < |s.events| ==>
          s.events[k].token < |s.claims| && s.events[k].at == s.claims[s.events[k].token])
    && (forall i, k :: 0 <= i < k < |s.events| && s.events[i].Claimed? && s.events[k].Claimed? ==>
          s.events[i].token < s.events[k].token)
    && (s.claimToken.Some? ==> s.claimToken.value < |s.claims| && Due(s, s.claims[s.claimToken.value]))
  }

  ghost predicate Inv(s: Schedule) {
    && ShowsLastEvent(s) && LastIsLatest(s)
    && Spaced(s.events) && CommitsFollowClaims(s.events) && ClaimsAreRecorded(s)
  }

  lemma ClaimKeeps(s: Schedule, now: Time)
    requires Inv(s)
    ensures Inv(Claim(s, now).0)
  {
    var (t, token) := Claim(s, now);
    if token.Some? {
      assert forall k :: 0 <= k < |s.events| ==> t.events[k] == s.events[k];
    }
  }

  lemma CompleteKeeps(s: Schedule, token: nat)
    requires Inv(s) && token < |s.claims|
    ensures Inv(Complete(s, token).0)
  {
    var (t, done) := Complete(s, token);
    if done {
      assert s.events[|s.events| - 1] == Claimed(token, s.claims[token]);
    }
  }

  lemma {:induction false} Reachable(steps: seq<Step>)
    ensures Inv(Exec(steps))
    decreases |steps|
  {
    if steps != [] {
      var init, last := steps[..|steps| - 1], steps[|steps| - 1];
      Reachable(init);
      match last
      case ClaimStep(now) => ClaimKeeps(Exec(init), now);
      case CompleteStep(token) =>
        if token < |Exec(init).claims| {
          CompleteKeeps(Exec(init), token);
        }
      case _ =>
    }
  }

  // ---- theorems ----

  /** Successive completions are at least a day apart, whatever the workers' clocks say. */
  lemma CompletionsAreADayApart(steps: seq<Step>, i: nat, k: nat)
    requires i < k < |Exec(steps).events|
    requires Exec(steps).events[i].Committed? && Exec(steps).events[k].Committed?
    ensures Exec(steps).events[i].at + DAY <= Exec(steps).events[k].at
  {
    hide Exec;
    Reachable(steps);
  }

  /** Fencing: a commit directly follows the claim that drew its token. No other worker
      claimed or committed in between, and a token commits at most once. */
  lemma OnlyTheHolderCommits(steps: seq<Step>, k: nat)
    requires k < |Exec(steps).events| && Exec(steps).events[k].Committed?
    ensures var h := Exec(steps).events;
      && k > 0 && h[k - 1] == Claimed(h[k].token, h[k].at)
      && (forall j :: 0 <= j < |h| && j != k && h[j].Committed? ==> h[j].token != h[k].token)
  {
    hide Exec;
    Reachable(steps);
    var h := Exec(steps).events;
    forall j | 0 <= j < |h| && j != k && h[j].Committed? ensures h[j].token != h[k].token {
      assert h[j - 1] == Claimed(h[j].token, h[j].at);
    }
  }

  /** A superseded worker leaves no trace: once another worker has claimed after it, or has
      committed, its cleanup changes nothing at all, now or later. */
  lemma SupersededHasNoEffect(steps: seq<Step>, token: nat, j: nat, k: nat)
    requires j < k < |Exec(steps).events| && Exec(steps).events[j] == Claimed(token, Exec(steps).events[j].at)
    ensures token < |Exec(steps).claims|
    ensures Complete(Exec(steps), token) == (Exec(steps), false)
  {
    hide Exec, Complete;
    Reachable(steps);
    SupersededState(Exec(steps), token, j, k);
  }

  lemma SupersededState(s: Schedule, token: nat, j: nat, k: nat)
    requires Inv(s) && j < k < |s.events| && s.events[j] == Claimed(token, s.events[j].at)
    ensures token < |s.claims| && Complete(s, token) == (s, false)
  {
    var last := |s.events| - 1;
    assert s.claimToken != Some(token) by {
      if s.events[last].Claimed? {
        assert s.events[j].token < s.events[last].token;
      }
    }
  }

  /** No completion in the history is less than a day old. */
  ghost predicate DayHasPassed(h: seq<Event>, now: Time) {
    forall k :: 0 <= k < |h| && h[k].Committed? ==> h[k].at + DAY <= now
  }

  /** The last event is a claim that is less than an hour old. */
  predicate ClaimIsOpen(h: seq<Event>, now: Time) {
    h != [] && h[|h| - 1].Claimed? && now < h[|h| - 1].at + 3600 * SECOND
  }

  /** When a worker gets the cleanup: exactly when every completion is at least a day old and the
      last event is no claim of less than an hour. It then has a token that nobody had before. */
  lemma ClaimedExactly(steps: seq<Step>, now: Time)
    ensures var s := Exec(steps);
      var (t, token) := Claim(s, now);
      && (token.Some? <==> DayHasPassed(s.events, now) && !ClaimIsOpen(s.events, now))
      && (token.Some? ==>
            && t.events == s.events + [Claimed(token.value, now)] && t.tables == s.tables
            && t.claims == s.claims + [now] && token.value == |s.claims|
            && forall k :: 0 <= k < |s.events| ==> s.events[k].token != token.value)
      && (token.None? ==> t == s)
  {
    hide Exec;
    Reachable(steps);
    var s := Exec(steps);
    if s.lastCompletedAt.Some? {
      LastCompletionIsRecorded(steps);
    }
  }

  /** A failure that is recorded adds its trace, as of the time of the claim, and leaves the claim
      open; one that is not leaves nothing. A cleanup that an operator asks for cleans the
      tables and leaves the schedule alone. */
  lemma FailuresAndOperatorsMean(steps: seq<Step>, token: nat, recorded: bool, now: Time)
    requires token < |Exec(steps).claims|
    ensures var s := Exec(steps);
      && Exec(steps + [FailStep(token, recorded)]) ==
           (if !recorded then s
            else s.(tables := s.tables.(identity := s.tables.identity + [
              IdentityEvent(s.claims[token], "audit_retention_cleanup", "failure", None, None)])))
      && Exec(steps + [OperatorStep(now)]) == s.(tables := Cleaned(s.tables, now))
  {
    assert (steps + [FailStep(token, recorded)])[..|steps|] == steps;
    assert (steps + [OperatorStep(now)])[..|steps|] == steps;
  }

  /** A crashed worker blocks the schedule for one claim timeout and no longer: a cleanup
      that is due is refused exactly while an open claim is younger than the timeout. */
  lemma CrashBlocksForTheTimeout(steps: seq<Step>, now: Time)
    requires Due(Exec(steps), now)
    ensures Claim(Exec(steps), now).1.None? <==>
      (Exec(steps).claimToken.Some? && Exec(steps).claimedAt.Some? && now < Exec(steps).claimedAt.value + CLAIM_TIMEOUT)
  {
    hide Exec;
    Reachable(steps);
  }

  /** The completion time on the row is that of some commit. */
  lemma {:induction false} LastCompletionIsRecorded(steps: seq<Step>)
    ensures var s := Exec(steps);
      s.lastCompletedAt.Some? ==>
        exists k :: 0 <= k < |s.events| && s.events[k].Committed? && s.events[k].at == s.lastCompletedAt.value
    decreases |steps|
  {
    if steps != [] {
      var s, t := Exec(steps[..|steps| - 1]), Exec(steps);
      LastCompletionIsRecorded(steps[..|steps| - 1]);
      if t.lastCompletedAt.Some? {
        if t.lastCompletedAt == s.lastCompletedAt && |t.events| >= |s.events| {
          var k :| 0 <= k < |s.events| && s.events[k].Committed? && s.events[k].at == s.lastCompletedAt.value;
          assert t.events[k] == s.events[k];
        } else {
          assert t.events[|t.events| - 1].Committed?;
        }
      }
    }
  }

  /** When a worker's cleanup is committed: exactly when the last event is still its claim. Then
      the tables are cleaned as of the time of the claim, and the schedule is free again. */
  lemma CompletedExactly(steps: seq<Step>, token: nat)
    requires token < |Exec(steps).claims|
    ensures var s := Exec(steps);
      var (t, done) := Complete(s, token);
      && (done <==> s.events != [] && s.events[|s.events| - 1] == Claimed(token, s.claims[token]))
      && (done ==>
            && t.events == s.events + [Committed(token, s.claims[token])]
            && t.tables == Cleaned(s.tables, s.claims[token])
            && t.lastCompletedAt == Some(s.claims[token]) && t.claimToken.None?)
      && (!done ==> t == s)
  {
    hide Exec, Cleaned;
    Reachable(steps);
  }

  // ---- the code as it runs ----

  class RetentionStore {
    var lastCompletedAt: Option<Time>
    var claimToken: Option<nat>
    var claimedAt: Option<Time>
    var identity: seq<IdentityEvent>
    var workspace: seq<AuditRow>
    var secrets: seq<AuditRow>
    ghost var claims: seq<Time>
    ghost var events: seq<Event>
    ghost var steps: seq<Step>

    ghost function View(): Schedule
      reads this
    {
      Schedule(lastCompletedAt, claimToken, claimedAt, Tables(identity, workspace, secrets), claims, events)
    }

    ghost predicate Reached()
      reads this
    {
      View() == Exec(steps)
    }

    constructor ()
      ensures Reached() && steps == []
    {
      lastCompletedAt, claimToken, claimedAt := None, None, None;
      identity, workspace, secrets := [], [], [];
      claims, events, steps := [], [], [];
    }

    ghost method Made(step: Step)
      requires View() == Next(Exec(steps), step)
      modifies this`steps
      ensures Reached() && steps == old(steps) + [step]
    {
      assert (steps + [step])[..|steps|] == steps;
      steps := steps + [step];
    }

    /** The claim of run_scheduled_audit_retention_if_due; `token` is freshly drawn. */
    method ClaimCleanup(token: nat, now: Time) returns (claimed: bool)
      requires Reached() && token == |claims|
      modifies this
      ensures (View(), if claimed then Some(token) else None) == Claim(old(View()), now)
      ensures Reached() && steps == old(steps) + [ClaimStep(now)]
    {
      hide Exec;
      claimed := (lastCompletedAt.None? || lastCompletedAt.value + CLEANUP_INTERVAL <= now)
                 && (claimToken.None? || (claimedAt.Some? && claimedAt.value + CLAIM_TIMEOUT <= now));
      if claimed {
        claimToken, claimedAt := Some(token), Some(now);
        claims, events := claims + [now], events + [Claimed(token, now)];
      }
      Made(ClaimStep(now));
    }

    method RunAuditRetentionCleanup(now: Time) returns (result: CleanupResult)
      modifies this`identity, this`workspace, this`secrets
      ensures View() == old(View()).(tables := Cleaned(old(View()).tables, now))
      ensures result == Counts(old(View()).tables, now)
    {
      FilterIsShorter(identity, IsKept(now));
      FilterIsShorter(workspace, RowIsKept(now));
      FilterIsShorter(secrets, RowIsKept(now));
      var eventCount, rowCount, secretCount := |identity|, |workspace|, |secrets|;
      identity := Filter(identity, IsKept(now));
      workspace := Filter(workspace, RowIsKept(now));
      secrets := Filter(secrets, RowIsKept(now));
      var details := |Filter(identity, HasOldDetails(now))|;
      result := CleanupResult(details, eventCount - |identity|, rowCount - |workspace|, secretCount - |secrets|);
      identity := Stripped(identity, now);
      identity := identity + [CleanupEvent(now)];
    }

    /** The second transaction: cleanup, then the conditional completion, or a rollback. */
    method CompleteCleanup(token: nat, now: Time) returns (done: bool)
      requires Reached() && token < |claims| && claims[token] == now
      modifies this
      ensures (View(), done) == Complete(old(View()), token)
      ensures Reached() && steps == old(steps) + [CompleteStep(token)]
    {
      hide Exec, Cleaned;
      var savedIdentity, savedWorkspace, savedSecrets := identity, workspace, secrets;
      var result := RunAuditRetentionCleanup(now);
      done := claimToken == Some(token);
      if done {
        lastCompletedAt, claimToken, claimedAt := Some(now), None, None;
        events := events + [Committed(token, now)];
      } else {
        identity, workspace, secrets := savedIdentity, savedWorkspace, savedSecrets;
      }
      Made(CompleteStep(token));
    }

    /** _record_scheduled_cleanup_failure; `stored` tells whether its own commit succeeded. */
    method RecordScheduledCleanupFailure(token: nat, occurredAt: Time, stored: bool)
      requires Reached() && token < |claims| && claims[token] == occurredAt
      modifies this
      ensures View() == Fail(old(View()), token, stored)
      ensures Reached() && steps == old(steps) + [FailStep(token, stored)]
    {
      hide Exec;
      if stored {
        identity := identity + [FailureEvent(occurredAt)];
      }
      Made(FailStep(token, stored));
    }

    /** A cleanup that an operator asks for: it neither needs nor takes the claim. */
    method RunOperatorCleanup(now: Time) returns (result: CleanupResult)
      requires Reached()
      modifies this
      ensures View() == old(View()).(tables := Cleaned(old(View()).tables, now))
      ensures result == Counts(old(View()).tables, now)
      ensures Reached() && steps == old(steps) + [OperatorStep(now)]
    {
      hide Exec, Cleaned, Counts;
      result := RunAuditRetentionCleanup(now);
      Made(OperatorStep(now));
    }
  }
}
