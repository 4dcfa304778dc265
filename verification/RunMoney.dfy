/** The money of cloud runs over whole histories. Every step of the protocol is a few
    budgeting transactions, so the laws of the books hold of every run of the protocol.
 */
module RunMoney {
  import opened Entities
  import opened Calendar
  import opened Rows
  import opened Budgeting
  import opened BudgetLaws
  import opened CloudRunner
  import opened RunInvariants
  import opened RunSteps
  import opened RunTheorems

  function GrantedIn(ws: WorkspaceId): Step -> int {
    (step: Step) => if step.action.GrantAction? && step.action.ws == ws then step.action.cents else 0
  }

  /** Transactions that neither grant credit nor change a limit. */
  ghost predicate Neutral(ops: seq<TimedOp>, at: Time) {
    forall t <- ops :: t.at == at && !t.op.GrantCredit? && !t.op.ChangeLimit?
  }

  ghost predicate Reaches(a: Books, ops: seq<TimedOp>, b: Books, at: Time) {
    ExecFrom(a, ops) == b && Neutral(ops, at)
  }

  lemma SettleRunBooks(s: State, r: RunId, now: Time) returns (ops: seq<TimedOp>)
    requires r < |s.runs|
    ensures Reaches(s.books, ops, SettleRun(s, r, now).books, now)
  {
    hide Settle;
    ops := [TimedOp(SettleOf(r, s.runs[r], s.objects), now)];
    ExecOne(s.books, ops[0].op, now);
  }

  lemma ReleaseRunBooks(s: State, r: RunId, now: Time) returns (ops: seq<TimedOp>)
    requires r < |s.runs|
    ensures Reaches(s.books, ops, ReleaseRun(s, r, now).books, now)
  {
    hide Release;
    ops := [TimedOp(ReleaseOf(s.runs[r]), now)];
    ExecOne(s.books, ops[0].op, now);
  }

  lemma FinalizeBooks(s: State, r: RunId, result: ExecutionResult, taskAllows: bool, now: Time)
    returns (ops: seq<TimedOp>)
    requires r < |s.runs| == |s.locals|
    ensures Reaches(s.books, ops, Finalize(s, r, result, taskAllows, now).0.books, now)
    ensures Finished(s, r, result, now).books == s.books
  {
    hide SettleRun;
    ops := [];
    if s.runs[r].cancelRequested {
      ops := SettleRunBooks(Put(s, r, CancelledRow(s.runs[r], now), LocalRun(Cancelled, None, None)), r, now);
    } else if s.runs[r].status.Running? && s.runs[r].completedAt.None? && !(CreatesArtifact(result) && !taskAllows) {
      ops := SettleRunBooks(Finished(s, r, result, now), r, now);
    }
  }

  lemma FailRunBooks(s: State, r: RunId, reason: string, now: Time) returns (ops: seq<TimedOp>)
    requires r < |s.runs| == |s.locals|
    ensures Reaches(s.books, ops, FailRun(s, r, reason, now).books, now)
  {
    ops := SettleRunBooks(
      Put(s, r, FailedRow(s.runs[r], reason, now), FailedLocal(s.locals[r], reason)), r, now);
  }

  lemma FinishLocalBooks(s: State, r: RunId, outcome: LocalOutcome, now: Time) returns (ops: seq<TimedOp>)
    requires |s.runs| == |s.locals|
    ensures Reaches(s.books, ops, FinishLocal(s, r, outcome, now).books, now)
  {
    hide FailRun, Finalize, Finished;
    ops := [];
    if r in s.processing && r < |s.runs| {
      var left := s.(processing := s.processing - {r});
      match outcome
      case Preflight => ops := FailRunBooks(left, r, "cloud_run_preflight_failed", now);
      case Ran(result, taskAllows) =>
        ops := FinalizeBooks(left, r, result, taskAllows, now);
        var (closed, how) := Finalize(left, r, result, taskAllows, now);
        if how.TransitionRejected? {
          var more := FailRunBooks(closed, r, "cloud_run_preflight_failed", now);
          ExecInTwo(s.books, ops, more);
          ops := ops + more;
        }
    }
  }

  lemma CompleteBooks(s: State, lease: LeaseId, cred: Credential, result: ExecutionResult, taskAllows: bool, now: Time)
    returns (ops: seq<TimedOp>)
    requires |s.runs| == |s.locals|
    ensures Reaches(s.books, ops, CompleteLease(s, lease, cred, result, taskAllows, now).0.books, now)
  {
    hide Finalize, Resolve;
    ops := [];
    var found := Resolve(s.runs, lease, cred, now);
    if found.Current? {
      var r := found.run;
      var accepted := s.(runs := s.runs[r := s.runs[r].(callback := UseToken(s.runs[r].callback, now))]);
      var how := Finalize(accepted, r, result, taskAllows, now).1;
      if !how.TransitionRejected? {
        ops := FinalizeBooks(accepted, r, result, taskAllows, now);
      }
    }
  }

  lemma {:induction false} ExpireAllBooks(s: State, batch: seq<RunId>, now: Time) returns (ops: seq<TimedOp>)
    requires |s.runs| == |s.locals| && InTable(s.runs, batch)
    ensures Reaches(s.books, ops, ExpireAll(s, batch, now).books, now)
    decreases |batch|
  {
    hide FailRun;
    ops := [];
    if batch != [] {
      var init, r := batch[..|batch| - 1], batch[|batch| - 1];
      ops := ExpireAllBooks(s, init, now);
      var mid := ExpireAll(s, init, now);
      if mid.runs[r].attemptCount >= mid.runs[r].maxAttempts {
        var more := FailRunBooks(mid, r, "lease_attempts_exhausted", now);
        ExecInTwo(s.books, ops, more);
        ops := ops + more;
      }
    }
  }

  lemma NewRunBooks(s: State, req: EnqueueRequest, now: Time) returns (ops: seq<TimedOp>)
    requires Reserve(s.books, req.workspace, now).1.ReservedAs?
    ensures var (books, result) := Reserve(s.books, req.workspace, now);
      Reaches(s.books, ops, WithNewRun(s, req, result.id, books, now).books, now)
  {
    hide Reserve, Assign;
    var (books, result) := Reserve(s.books, req.workspace, now);
    var first, second := [TimedOp(ReserveFor(req.workspace), now)], [TimedOp(AssignTo(result.id, |s.runs|), now)];
    ExecOne(s.books, first[0].op, now);
    ExecOne(books, second[0].op, now);
    ExecInTwo(s.books, first, second);
    ops := first + second;
  }

  lemma EnqueueBooks(s: State, req: EnqueueRequest, now: Time) returns (ops: seq<TimedOp>)
    requires |s.runs| == |s.locals|
    ensures Reaches(s.books, ops, Enqueue(s, req, now).0.books, now)
  {
    hide Reserve, ReleaseRun, SettleRun;
    var (books, result) := Reserve(s.books, req.workspace, now);
    ops := [];
    if result.ReservedAs? {
      ReserveRefuses(s.books, req.workspace, now);
      var r := |s.runs|;
      ops := NewRunBooks(s, req, now);
      var queued := WithNewRun(s, req, result.id, books, now);
      var more := [];
      if SendsMessage(req) && req.queue.QueueError? {
        more := ReleaseRunBooks(
          Put(queued, r, FailedRow(queued.runs[r], "queue_enqueue_failed", now),
              FailedLocal(queued.locals[r], "queue_enqueue_failed")), r, now);
      } else if req.runtimeProvider.Some? && req.runtime.SubmissionError? {
        var sent := if SendsMessage(req) then WithMessage(queued, r, req.queue.message) else queued;
        more := FailRunBooks(sent, r, "runtime_submission_failed", now);
      }
      ExecInTwo(s.books, ops, more);
      ops := ops + more;
    } else {
      ReserveRefuses(s.books, req.workspace, now);
    }
  }

  lemma CancelBooks(s: State, r: RunId, now: Time) returns (ops: seq<TimedOp>)
    requires |s.runs| == |s.locals|
    ensures Reaches(s.books, ops, CancelRun(s, r, now).books, now)
  {
    hide ReleaseRun;
    ops := [];
    if r < |s.runs| && s.runs[r].status.Queued? {
      ops := ReleaseRunBooks(Put(s, r, QueuedCancelRow(s.runs[r], now), s.locals[r].(status := Cancelled)), r, now);
    }
  }

  lemma AppendBooks(s: State, usage: UsageRequest, now: Time) returns (ops: seq<TimedOp>)
    ensures Reaches(s.books, ops, AppendUsageEntry(s, usage).0.books, now)
  {
    hide AppendEntry, EntryFor;
    ops := [];
    var e := EntryFor(s.runs, usage);
    if AppendUsageEntry(s, usage).0.books == AppendEntry(s.books, e) {
      ops := [TimedOp(AppendOf(e), now)];
      ExecOne(s.books, ops[0].op, now);
    }
  }

  lemma {:induction false} NeutralGrantsNothing(ops: seq<TimedOp>, at: Time, ws: WorkspaceId)
    requires Neutral(ops, at)
    ensures SumOf(ops, GrantedBy(ws)) == 0
    decreases |ops|
  {
    if ops != [] {
      NeutralGrantsNothing(ops[..|ops| - 1], at, ws);
      assert ops[|ops| - 1] in ops;
    }
  }

  /** The transactions of a step that is neither a grant nor a change of limit. */
  lemma NeutralStepBooks(s: State, step: Step) returns (ops: seq<TimedOp>)
    requires |s.runs| == |s.locals| && !step.action.GrantAction? && !step.action.LimitAction?
    ensures Reaches(s.books, ops, Next(s, step).books, step.at)
  {
    hide Enqueue, CompleteLease, ExpireAll, ExpiredQuery, FinishLocal, CancelRun, AppendUsageEntry;
    ops := [];
    match step.action
    case EnqueueAction(req) => ops := EnqueueBooks(s, req, step.at);
    case CompleteAction(lease, cred, result, taskAllows) =>
      ops := CompleteBooks(s, lease, cred, result, taskAllows, step.at);
    case RequeueAction(provider, limit) =>
      ops := ExpireAllBooks(s, ExpiredQuery(s.runs, provider, limit, step.at), step.at);
    case FinishLocalAction(r, outcome) => ops := FinishLocalBooks(s, r, outcome, step.at);
    case CancelAction(r) => ops := CancelBooks(s, r, step.at);
    case AppendUsageAction(usage) => ops := AppendBooks(s, usage, step.at);
    case _ =>
  }

  /** How a stretch of history shows in the books. */
  ghost predicate Mirrors(ops: seq<TimedOp>, steps: seq<Step>) {
    && (forall ws :: SumOf(ops, GrantedBy(ws)) == SumOf(steps, GrantedIn(ws)))
    && (forall t <- ops :: exists step <- steps :: t.at == step.at)
    && (forall t <- ops :: t.op.ChangeLimit? ==>
          exists step <- steps :: step.action.LimitAction? && step.action.ws == t.op.ws)
  }

  lemma StepBooks(s: State, step: Step) returns (ops: seq<TimedOp>)
    requires |s.runs| == |s.locals|
    ensures ExecFrom(s.books, ops) == Next(s, step).books && Mirrors(ops, [step])
  {
    if step.action.GrantAction? || step.action.LimitAction? {
      var op := if step.action.GrantAction? then GrantCredit(step.action.ws, step.action.cents)
                else ChangeLimit(step.action.ws, step.action.monthly, step.action.perRun);
      ops := [TimedOp(op, step.at)];
      ExecOne(s.books, op, step.at);
      forall ws ensures SumOf(ops, GrantedBy(ws)) == SumOf([step], GrantedIn(ws)) {
        assert ops[..0] == [] && [step][..0] == [];
      }
    } else {
      ops := NeutralStepBooks(s, step);
      forall ws ensures SumOf(ops, GrantedBy(ws)) == SumOf([step], GrantedIn(ws)) {
        NeutralGrantsNothing(ops, step.at, ws);
        assert [step][..0] == [];
      }
    }
    assert step in [step];
  }

  lemma {:induction false} SumOfTwo<T>(a: seq<T>, b: seq<T>, f: T -> int)
    ensures SumOf(a + b, f) == SumOf(a, f) + SumOf(b, f)
    decreases |b|
  {
    if b == [] {
      assert a + b == a;
    } else {
      assert (a + b)[..|a + b| - 1] == a + b[..|b| - 1];
      SumOfTwo(a, b[..|b| - 1], f);
    }
  }

  lemma MirrorsTwo(xs: seq<TimedOp>, a: seq<Step>, ys: seq<TimedOp>, b: seq<Step>)
    requires Mirrors(xs, a) && Mirrors(ys, b)
    ensures Mirrors(xs + ys, a + b)
  {
    forall ws ensures SumOf(xs + ys, GrantedBy(ws)) == SumOf(a + b, GrantedIn(ws)) {
      SumOfTwo(xs, ys, GrantedBy(ws));
      SumOfTwo(a, b, GrantedIn(ws));
    }
    assert forall step :: step in a + b <==> step in a || step in b;
  }

  /** The protocol refines the books: whatever steps follow a history, some sequence of
      budgeting transactions, granted the same credits and made at the same times, takes the
      books of the one state to the books of the other. */
  lemma {:induction false} ProtocolRefinesBooks(steps: seq<Step>, more: seq<Step>)
    ensures exists ops :: ExecFrom(Exec(steps).books, ops) == Exec(steps + more).books && Mirrors(ops, more)
    decreases |more|
  {
    hide Next, ApplyOp, Mirrors;
    if more == [] {
      assert steps + more == steps;
      NothingMirrors();
      assert ExecFrom(Exec(steps).books, []) == Exec(steps + more).books;
    } else {
      var init, last := more[..|more| - 1], more[|more| - 1];
      ProtocolRefinesBooks(steps, init);
      var ops :| ExecFrom(Exec(steps).books, ops) == Exec(steps + init).books && Mirrors(ops, init);
      OneMore(steps, more);
      var one := StepBooks(Exec(steps + init), last);
      ExecInTwo(Exec(steps).books, ops, one);
      MirrorsTwo(ops, init, one, [last]);
      assert more == init + [last];
    }
  }

  lemma NothingMirrors()
    ensures Mirrors([], [])
  {
  }

  /** Conservation over every run of the protocol: a workspace's balance, the cents its
      reservations hold and the cents its settled reservations cost add up to its grants, and
      its balance is never negative. */
  lemma CreditsAreConserved(steps: seq<Step>, ws: WorkspaceId)
    ensures Balance(Exec(steps).books, ws) + SumOf(Exec(steps).books.reservations, ClaimBy(ws))
         == SumOf(steps, GrantedIn(ws))
    ensures Balance(Exec(steps).books, ws) >= 0
  {
    hide Next, ApplyOp;
    assert [] + steps == steps && Exec([]).books == EMPTY_BOOKS;
    ProtocolRefinesBooks([], steps);
    var ops :| ExecFrom(Exec([]).books, ops) == Exec([] + steps).books && Mirrors(ops, steps);
    Conservation(ops, ws);
  }

  /** The cents of a workspace that a run holds or has cost, read off its row. */
  function HeldOrCost(ws: WorkspaceId): CloudRun -> int {
    (run: CloudRun) =>
      if run.workspace != ws then 0 else if Terminal(run.status) then run.actualCost else RESERVATION_CENTS
  }

  lemma {:induction false} RunsShowTheMoney(runs: seq<CloudRun>, rows: seq<Reservation>, ws: WorkspaceId)
    requires |runs| == |rows|
    requires forall r :: 0 <= r < |runs| ==> HeldOrCost(ws)(runs[r]) == ClaimBy(ws)(rows[r])
    ensures SumOf(runs, HeldOrCost(ws)) == SumOf(rows, ClaimBy(ws))
    decreases |runs|
  {
    if runs != [] {
      RunsShowTheMoney(runs[..|runs| - 1], rows[..|rows| - 1], ws);
    }
  }

  lemma BooksStayOk(steps: seq<Step>)
    ensures BooksOk(Exec(steps).books)
  {
    hide Next, ApplyOp;
    assert [] + steps == steps && Exec([]).books == EMPTY_BOOKS;
    ProtocolRefinesBooks([], steps);
    var ops :| ExecFrom(Exec([]).books, ops) == Exec([] + steps).books && Mirrors(ops, steps);
    OpsKeepWorth(EMPTY_BOOKS, ops, "");
  }

  /** The same, read off the run rows: an open run holds its reservation, a closed run has
      cost what its row says, and nothing else ever takes a workspace's credits. */
  lemma RunsPayFromGrants(steps: seq<Step>, ws: WorkspaceId)
    ensures Balance(Exec(steps).books, ws) + SumOf(Exec(steps).runs, HeldOrCost(ws)) == SumOf(steps, GrantedIn(ws))
  {
    hide Exec;
    var s := Exec(steps);
    Reachable(steps);
    CreditsAreConserved(steps, ws);
    BooksStayOk(steps);
    forall r | 0 <= r < |s.runs| ensures HeldOrCost(ws)(s.runs[r]) == ClaimBy(ws)(s.books.reservations[r]) {
      assert RunOk(s, r) && RowOk(s.books.reservations[r]);
    }
    RunsShowTheMoney(s.runs, s.books.reservations, ws);
  }

  /** The monthly bound over every run of the protocol. */
  lemma MonthlyRunSpendIsBounded(earlier: seq<Step>, steps: seq<Step>, ws: WorkspaceId, month: nat)
    requires forall step <- earlier :: step.at < MonthStart(month)
    requires forall step <- steps :: MonthStart(month) <= step.at < MonthStart(month + 1)
    requires forall step <- steps :: step.action.LimitAction? ==> step.action.ws != ws
    requires ws in Exec(earlier).books.limits && Exec(earlier).books.limits[ws].active
    requires Exec(earlier).books.limits[ws].monthly > 0
    ensures var start, now := Exec(earlier).books, Exec(earlier + steps).books;
      && Counted(now.reservations, ws, month) <= start.limits[ws].monthly + Carried(start.reservations, ws, month)
      && SumOf(now.reservations, MadeInBy(ws, month)) <= start.limits[ws].monthly
  {
    hide Next, ApplyOp;
    assert [] + earlier == earlier && Exec([]).books == EMPTY_BOOKS;
    ProtocolRefinesBooks([], earlier);
    var past :| ExecFrom(Exec([]).books, past) == Exec([] + earlier).books && Mirrors(past, earlier);
    ProtocolRefinesBooks(earlier, steps);
    var ops :| ExecFrom(Exec(earlier).books, ops) == Exec(earlier + steps).books && Mirrors(ops, steps);
    MonthlySpendIsBounded(past, ops, ws, month);
  }
}
