/** Conservation of credits over every run of the books, and the monthly spend bound. */
module BudgetLaws {
  import opened Entities
  import opened Calendar
  import opened Rows
  import opened Budgeting
  import opened SettlementLaws

  /** One committed budgeting transaction. A run row is handed over as the caller has it:
      it may name any reservation, one already closed, or none. */
  datatype BooksOp =
    | GrantCredit(ws: WorkspaceId, cents: nat)
    | ChangeLimit(ws: WorkspaceId, monthly: nat, perRun: nat)
    | ReserveFor(ws: WorkspaceId)
    | AssignTo(reservation: ReservationId, run: RunId)
    | ReleaseOf(row: CloudRun)
    | SettleOf(id: RunId, row: CloudRun, objects: seq<StoredObject>)
    | AppendOf(entry: UsageEntry)

  datatype TimedOp = TimedOp(op: BooksOp, at: Time)

  const EMPTY_BOOKS := Books(map[], map[], [], [])

  ghost function ApplyOp(books: Books, op: BooksOp, at: Time): Books {
    match op
    case GrantCredit(ws, cents) => Credit(books, ws, cents)
    case ChangeLimit(ws, monthly, perRun) => SetLimit(books, ws, monthly, perRun)
    case ReserveFor(ws) => Reserve(books, ws, at).0
    case AssignTo(reservation, run) => Assign(books, reservation, run)
    case ReleaseOf(row) => Release(books, row, at).0
    case SettleOf(id, row, objects) => Settle(books, id, row, objects, at).0
    case AppendOf(entry) => AppendEntry(books, entry)
  }

  ghost function ExecFrom(books: Books, ops: seq<TimedOp>): Books {
    if ops == [] then books
    else ApplyOp(ExecFrom(books, ops[..|ops| - 1]), ops[|ops| - 1].op, ops[|ops| - 1].at)
  }

  lemma {:induction false} ExecInTwo(books: Books, xs: seq<TimedOp>, ys: seq<TimedOp>)
    ensures ExecFrom(books, xs + ys) == ExecFrom(ExecFrom(books, xs), ys)
    decreases |ys|
  {
    if ys == [] {
      assert xs + ys == xs;
    } else {
      assert (xs + ys)[..|xs + ys| - 1] == xs + ys[..|ys| - 1];
      ExecInTwo(books, xs, ys[..|ys| - 1]);
    }
  }

  lemma ExecOne(books: Books, op: BooksOp, at: Time)
    ensures ExecFrom(books, [TimedOp(op, at)]) == ApplyOp(books, op, at)
  {
    hide ApplyOp;
    assert [TimedOp(op, at)][..0] == [];
  }

  function GrantedBy(ws: WorkspaceId): TimedOp -> int {
    (t: TimedOp) => if t.op.GrantCredit? && t.op.ws == ws then t.op.cents else 0
  }

  /** What a reservation still owes its workspace's grants: the cents it holds, or cost. */
  function ClaimOf(row: Reservation): int {
    match row.status
    case Reserved => row.reserved
    case Settled => row.settled
    case Released => 0
  }

  function ClaimBy(ws: WorkspaceId): Reservation -> int {
    (row: Reservation) => if row.workspace == ws then ClaimOf(row) else 0
  }

  ghost predicate RowOk(row: Reservation) {
    && 0 <= row.settled <= row.reserved
    && (row.status.Released? ==> row.settled == 0)
    && (row.status.Settled? ==> row.settledAt.Some?)
  }

  ghost predicate BooksOk(books: Books) {
    && (forall row <- books.reservations :: RowOk(row))
    && (forall ws <- books.wallets :: books.wallets[ws] >= 0)
  }

  /** The cents of a workspace, wherever they are: in the wallet, held, or spent. */
  function Worth(books: Books, ws: WorkspaceId): int {
    Balance(books, ws) + SumOf(books.reservations, ClaimBy(ws))
  }

  lemma CreditKeepsBooks(books: Books, ws: WorkspaceId, cents: int)
    requires BooksOk(books) && Balance(books, ws) + cents >= 0
    ensures BooksOk(Credit(books, ws, cents))
  {
  }

  lemma RowKeepsWorth(books: Books, after: Books, k: nat, ws: WorkspaceId)
    requires BooksOk(books)
    requires k < |books.reservations| == |after.reservations|
    requires var row, row' := books.reservations[k], after.reservations[k];
      && after.reservations == books.reservations[k := row']
      && RowOk(row') && row'.workspace == row.workspace
      && ClaimOf(row') <= ClaimOf(row)
      && after.wallets == Credit(books, row.workspace, ClaimOf(row) - ClaimOf(row')).wallets
    ensures BooksOk(after) && Worth(after, ws) == Worth(books, ws)
  {
    SumOfUpdate(books.reservations, k, after.reservations[k], ClaimBy(ws));
    CreditKeepsBooks(books, books.reservations[k].workspace,
      ClaimOf(books.reservations[k]) - ClaimOf(after.reservations[k]));
  }

  lemma ReserveKeepsWorth(books: Books, w: WorkspaceId, at: Time, ws: WorkspaceId)
    requires BooksOk(books)
    ensures BooksOk(Reserve(books, w, at).0)
    ensures Worth(Reserve(books, w, at).0, ws) == Worth(books, ws)
  {
    var after := Reserve(books, w, at).0;
    if after != books {
      SumOfOneMore(books.reservations, after.reservations[|books.reservations|], ClaimBy(ws));
      CreditKeepsBooks(books, w, -(RESERVATION_CENTS as int));
    }
  }

  lemma ReserveRefuses(books: Books, ws: WorkspaceId, now: Time)
    ensures !Reserve(books, ws, now).1.ReservedAs? ==> Reserve(books, ws, now).0 == books
  {
  }

  lemma AssignKeepsWorth(books: Books, i: ReservationId, run: RunId, ws: WorkspaceId)
    requires BooksOk(books)
    ensures BooksOk(Assign(books, i, run)) && Worth(Assign(books, i, run), ws) == Worth(books, ws)
  {
    if i < |books.reservations| {
      SumOfUpdate(books.reservations, i, books.reservations[i].(run := Some(run)), ClaimBy(ws));
      assert RowOk(books.reservations[i]);
    }
  }

  lemma ReleaseKeepsWorth(books: Books, row: CloudRun, at: Time, ws: WorkspaceId)
    requires BooksOk(books)
    ensures BooksOk(Release(books, row, at).0) && Worth(Release(books, row, at).0, ws) == Worth(books, ws)
  {
    var i := ActiveReservation(books, row);
    if i.Some? {
      RowKeepsWorth(books, Release(books, row, at).0, i.value, ws);
    }
  }

  lemma SettleKeepsWorth(books: Books, id: RunId, row: CloudRun, objects: seq<StoredObject>, at: Time, ws: WorkspaceId)
    requires BooksOk(books)
    ensures BooksOk(Settle(books, id, row, objects, at).0)
    ensures Worth(Settle(books, id, row, objects, at).0, ws) == Worth(books, ws)
  {
    hide Measurements, AppendAllUsage;
    var i := ActiveReservation(books, row);
    if i.Some? {
      MeasuredIsPositive(id, row, objects);
      RowKeepsWorth(books, Settle(books, id, row, objects, at).0, i.value, ws);
    }
  }

  lemma OpKeepsWorth(books: Books, op: BooksOp, at: Time, ws: WorkspaceId)
    requires BooksOk(books)
    ensures BooksOk(ApplyOp(books, op, at))
    ensures Worth(ApplyOp(books, op, at), ws) == Worth(books, ws) + GrantedBy(ws)(TimedOp(op, at))
  {
    hide Settle, Release, Reserve, Assign;
    match op
    case GrantCredit(w, cents) => CreditKeepsBooks(books, w, cents);
    case ChangeLimit(_, _, _) =>
    case ReserveFor(w) => ReserveKeepsWorth(books, w, at, ws);
    case AssignTo(i, run) => AssignKeepsWorth(books, i, run, ws);
    case ReleaseOf(row) => ReleaseKeepsWorth(books, row, at, ws);
    case SettleOf(id, row, objects) => SettleKeepsWorth(books, id, row, objects, at, ws);
    case AppendOf(_) =>
  }

  lemma {:induction false} OpsKeepWorth(books: Books, ops: seq<TimedOp>, ws: WorkspaceId)
    requires BooksOk(books)
    ensures BooksOk(ExecFrom(books, ops))
    ensures Worth(ExecFrom(books, ops), ws) == Worth(books, ws) + SumOf(ops, GrantedBy(ws))
    decreases |ops|
  {
    if ops != [] {
      OpsKeepWorth(books, ops[..|ops| - 1], ws);
      OpKeepsWorth(ExecFrom(books, ops[..|ops| - 1]), ops[|ops| - 1].op, ops[|ops| - 1].at, ws);
    }
  }

  /** Credits are conserved: after any sequence of budgeting transactions a workspace's
      balance, its held reservations and its settled costs add up to what it was granted,
      and no balance is negative. */
  lemma Conservation(ops: seq<TimedOp>, ws: WorkspaceId)
    ensures Balance(ExecFrom(EMPTY_BOOKS, ops), ws)
            + SumOf(ExecFrom(EMPTY_BOOKS, ops).reservations, ClaimBy(ws))
         == SumOf(ops, GrantedBy(ws))
    ensures Balance(ExecFrom(EMPTY_BOOKS, ops), ws) >= 0
  {
    OpsKeepWorth(EMPTY_BOOKS, ops, ws);
  }

  // ---- the monthly bound ----

  /** What a reservation made before the month started still holds. */
  function CarriedBy(ws: WorkspaceId, month: nat): Reservation -> int {
    (row: Reservation) =>
      if row.workspace == ws && row.status.Reserved? && row.createdAt < MonthStart(month) then row.reserved else 0
  }

  function Carried(rows: seq<Reservation>, ws: WorkspaceId, month: nat): int {
    SumOf(rows, CarriedBy(ws, month))
  }

  /** What a reservation made in the month counts in it. */
  function MadeInBy(ws: WorkspaceId, month: nat): Reservation -> int {
    (row: Reservation) => if row.createdAt < MonthStart(month) then 0 else CountBy(ws, month)(row)
  }

  ghost predicate InMonth(ops: seq<TimedOp>, month: nat) {
    forall t <- ops :: MonthStart(month) <= t.at < MonthStart(month + 1)
  }

  ghost predicate Before(ops: seq<TimedOp>, end: Time) {
    forall t <- ops :: t.at < end
  }

  ghost predicate KeepsLimit(ops: seq<TimedOp>, ws: WorkspaceId) {
    forall t <- ops :: t.op.ChangeLimit? ==> t.op.ws != ws
  }

  ghost predicate RowsBefore(rows: seq<Reservation>, end: Time) {
    forall row <- rows :: row.createdAt < end && (row.settledAt.Some? ==> row.settledAt.value < end)
  }

  lemma OpStaysBefore(books: Books, op: BooksOp, at: Time, end: Time)
    requires RowsBefore(books.reservations, end) && at < end
    ensures RowsBefore(ApplyOp(books, op, at).reservations, end)
  {
    hide Measurements, AppendAllUsage, LimitAllows;
    var rows := books.reservations;
    assert forall k :: 0 <= k < |rows| ==> rows[k] in rows;
  }

  lemma {:induction false} HistoryIsBefore(ops: seq<TimedOp>, end: Time)
    requires Before(ops, end)
    ensures RowsBefore(ExecFrom(EMPTY_BOOKS, ops).reservations, end)
    decreases |ops|
  {
    hide ApplyOp;
    if ops != [] {
      HistoryIsBefore(ops[..|ops| - 1], end);
      OpStaysBefore(ExecFrom(EMPTY_BOOKS, ops[..|ops| - 1]), ops[|ops| - 1].op, ops[|ops| - 1].at, end);
    }
  }

  lemma {:induction false} NothingCountedYet(rows: seq<Reservation>, ws: WorkspaceId, month: nat)
    requires RowsBefore(rows, MonthStart(month))
    ensures Counted(rows, ws, month) == 0
    ensures SumOf(rows, MadeInBy(ws, month)) == 0
    decreases |rows|
  {
    if rows != [] {
      NothingCountedYet(rows[..|rows| - 1], ws, month);
      assert rows[|rows| - 1] in rows;
    }
  }

  /** What holds at every moment of a month with an active monthly limit. */
  ghost predicate WithinMonth(books: Books, ws: WorkspaceId, month: nat, limit: SpendLimit, carry: int) {
    && BooksOk(books)
    && (forall row <- books.reservations :: row.createdAt < MonthStart(month + 1))
    && ws in books.limits && books.limits[ws] == limit
    && Counted(books.reservations, ws, month) + Carried(books.reservations, ws, month) <= limit.monthly + carry
    && Carried(books.reservations, ws, month) <= carry
    && SumOf(books.reservations, MadeInBy(ws, month)) <= limit.monthly
  }

  lemma RowUpdateStaysWithin(rows: seq<Reservation>, k: nat, row: Reservation, ws: WorkspaceId, month: nat)
    requires k < |rows|
    requires row.workspace == rows[k].workspace && row.createdAt == rows[k].createdAt
    requires row.reserved == rows[k].reserved
    requires row.createdAt < MonthStart(month + 1)
    requires RowOk(rows[k]) && RowOk(row)
    requires rows[k].status.Reserved? || row == rows[k].(run := row.run)
    ensures Counted(rows[k := row], ws, month) + Carried(rows[k := row], ws, month)
         <= Counted(rows, ws, month) + Carried(rows, ws, month)
    ensures Carried(rows[k := row], ws, month) <= Carried(rows, ws, month)
    ensures SumOf(rows[k := row], MadeInBy(ws, month)) <= SumOf(rows, MadeInBy(ws, month))
  {
    SumOfUpdate(rows, k, row, CountBy(ws, month));
    SumOfUpdate(rows, k, row, CarriedBy(ws, month));
    SumOfUpdate(rows, k, row, MadeInBy(ws, month));
  }

  lemma MadeInIsCounted(rows: seq<Reservation>, ws: WorkspaceId, month: nat)
    requires forall row <- rows :: RowOk(row)
    ensures SumOf(rows, MadeInBy(ws, month)) <= Counted(rows, ws, month)
  {
    SumOfAtMost(rows, MadeInBy(ws, month), CountBy(ws, month));
  }

  lemma {:induction false} CarriedIsNonNegative(rows: seq<Reservation>, ws: WorkspaceId, month: nat)
    ensures Carried(rows, ws, month) >= 0
    decreases |rows|
  {
    if rows != [] {
      CarriedIsNonNegative(rows[..|rows| - 1], ws, month);
    }
  }

  lemma NewRowStaysWithin(rows: seq<Reservation>, row: Reservation, ws: WorkspaceId, month: nat)
    requires row.status.Reserved? && MonthStart(month) <= row.createdAt < MonthStart(month + 1)
    requires forall r <- rows :: RowOk(r)
    ensures var cents := if row.workspace == ws then row.reserved else 0;
      && Counted(rows + [row], ws, month) == Counted(rows, ws, month) + cents
      && Carried(rows + [row], ws, month) == Carried(rows, ws, month)
      && SumOf(rows + [row], MadeInBy(ws, month)) == SumOf(rows, MadeInBy(ws, month)) + cents
  {
    SumOfOneMore(rows, row, CountBy(ws, month));
    SumOfOneMore(rows, row, CarriedBy(ws, month));
    SumOfOneMore(rows, row, MadeInBy(ws, month));
  }

  lemma ReserveStaysWithin(
      books: Books, w: WorkspaceId, at: Time, ws: WorkspaceId, month: nat, limit: SpendLimit, carry: int)
    requires WithinMonth(books, ws, month, limit, carry)
    requires limit.active && limit.monthly > 0
    requires MonthStart(month) <= at < MonthStart(month + 1)
    ensures WithinMonth(Reserve(books, w, at).0, ws, month, limit, carry)
  {
    ReserveKeepsWorth(books, w, at, ws);
    var rows, after := books.reservations, Reserve(books, w, at).0;
    if after != books {
      MonthIsUnique(at, month);
      MadeInIsCounted(rows, ws, month);
      NewRowStaysWithin(rows, after.reservations[|rows|], ws, month);
    }
  }

  lemma CloseStaysWithin(
      books: Books, after: Books, k: nat, ws: WorkspaceId, month: nat, limit: SpendLimit, carry: int)
    requires WithinMonth(books, ws, month, limit, carry)
    requires k < |books.reservations| && BooksOk(after) && after.limits == books.limits
    requires |after.reservations| == |books.reservations|
    requires after.reservations == books.reservations[k := after.reservations[k]]
    requires var row, row' := books.reservations[k], after.reservations[k];
      && row'.workspace == row.workspace && row'.createdAt == row.createdAt && row'.reserved == row.reserved
      && (row.status.Reserved? || row' == row.(run := row'.run))
    ensures WithinMonth(after, ws, month, limit, carry)
  {
    assert RowOk(books.reservations[k]) && RowOk(after.reservations[k]);
    RowUpdateStaysWithin(books.reservations, k, after.reservations[k], ws, month);
  }

  lemma OpStaysWithin(books: Books, t: TimedOp, ws: WorkspaceId, month: nat, limit: SpendLimit, carry: int)
    requires WithinMonth(books, ws, month, limit, carry)
    requires limit.active && limit.monthly > 0
    requires MonthStart(month) <= t.at < MonthStart(month + 1)
    requires t.op.ChangeLimit? ==> t.op.ws != ws
    ensures WithinMonth(ApplyOp(books, t.op, t.at), ws, month, limit, carry)
  {
    OpKeepsWorth(books, t.op, t.at, ws);
    var after := ApplyOp(books, t.op, t.at);
    match t.op
    case GrantCredit(_, _) =>
    case ChangeLimit(_, _, _) =>
    case ReserveFor(w) =>
      ReserveStaysWithin(books, w, t.at, ws, month, limit, carry);
    case AssignTo(i, run) =>
      if i < |books.reservations| {
        CloseStaysWithin(books, after, i, ws, month, limit, carry);
      }
    case ReleaseOf(row) =>
      var i := ActiveReservation(books, row);
      if i.Some? {
        CloseStaysWithin(books, after, i.value, ws, month, limit, carry);
      }
    case SettleOf(_, row, _) =>
      var i := ActiveReservation(books, row);
      if i.Some? {
        CloseStaysWithin(books, after, i.value, ws, month, limit, carry);
      }
    case AppendOf(_) =>
  }

  lemma {:induction false} MonthStaysWithin(
      books: Books, ops: seq<TimedOp>, ws: WorkspaceId, month: nat, limit: SpendLimit, carry: int)
    requires WithinMonth(books, ws, month, limit, carry)
    requires limit.active && limit.monthly > 0
    requires InMonth(ops, month) && KeepsLimit(ops, ws)
    ensures WithinMonth(ExecFrom(books, ops), ws, month, limit, carry)
    decreases |ops|
  {
    if ops != [] {
      MonthStaysWithin(books, ops[..|ops| - 1], ws, month, limit, carry);
      assert ops[|ops| - 1] in ops;
      OpStaysWithin(ExecFrom(books, ops[..|ops| - 1]), ops[|ops| - 1], ws, month, limit, carry);
    }
  }

  /** Take any history that ends before a month starts and leaves a positive active monthly
      limit, and any transactions inside the month that leave that limit alone. The month's
      counted total never exceeds the limit plus what older reservations still held when the
      month started, and what is reserved or spent on the month's own reservations never
      exceeds the limit. */
  lemma MonthlySpendIsBounded(earlier: seq<TimedOp>, ops: seq<TimedOp>, ws: WorkspaceId, month: nat)
    requires Before(earlier, MonthStart(month))
    requires InMonth(ops, month) && KeepsLimit(ops, ws)
    requires ws in ExecFrom(EMPTY_BOOKS, earlier).limits
    requires ExecFrom(EMPTY_BOOKS, earlier).limits[ws].active
    requires ExecFrom(EMPTY_BOOKS, earlier).limits[ws].monthly > 0
    ensures var start, now := ExecFrom(EMPTY_BOOKS, earlier), ExecFrom(ExecFrom(EMPTY_BOOKS, earlier), ops);
      && Counted(now.reservations, ws, month) <= start.limits[ws].monthly + Carried(start.reservations, ws, month)
      && SumOf(now.reservations, MadeInBy(ws, month)) <= start.limits[ws].monthly
  {
    var start := ExecFrom(EMPTY_BOOKS, earlier);
    OpsKeepWorth(EMPTY_BOOKS, earlier, ws);
    HistoryIsBefore(earlier, MonthStart(month));
    NothingCountedYet(start.reservations, ws, month);
    MonthStartIsMonotone(month, month + 1);
    var carry := Carried(start.reservations, ws, month);
    MonthStaysWithin(start, ops, ws, month, start.limits[ws], carry);
    CarriedIsNonNegative(ExecFrom(start, ops).reservations, ws, month);
  }

  // ---- a month that exceeds its limit ----

  /** Credit, a limit of one reservation a month, and a reservation in the first month. */
  function FirstMonthOps(): seq<TimedOp> {
    [TimedOp(GrantCredit("w", 200), 0), TimedOp(ChangeLimit("w", 100, 0), 0), TimedOp(ReserveFor("w"), 0)]
  }

  /** The next month takes a reservation of its own, and settles the first one. */
  function NextMonthOps(first: CloudRun): seq<TimedOp> {
    var at := MonthStart(1);
    [TimedOp(ReserveFor("w"), at), TimedOp(SettleOf(0, first, []), at)]
  }

  function RowOf(at: Time): Reservation {
    Reservation("w", None, RESERVATION_CENTS, 0, ReservationStatus.Reserved, at, None)
  }

  lemma {:induction false} ExecThree(books: Books, a: TimedOp, b: TimedOp, c: TimedOp)
    ensures ExecFrom(books, [a, b, c]) == ApplyOp(ApplyOp(ApplyOp(books, a.op, a.at), b.op, b.at), c.op, c.at)
    ensures ExecFrom(books, [a, b]) == ApplyOp(ApplyOp(books, a.op, a.at), b.op, b.at)
  {
    hide ApplyOp;
    assert [a, b, c][..2] == [a, b] && [a, b][..1] == [a] && [a][..0] == [];
    ExecOne(books, a.op, a.at);
  }

  lemma AfterFirstMonth()
    ensures ExecFrom(EMPTY_BOOKS, FirstMonthOps())
         == Books(map["w" := 100], map["w" := SpendLimit(100, 0, true)], [RowOf(0)], [])
  {
    hide ExecFrom, MonthOf;
    var ops := FirstMonthOps();
    ExecThree(EMPTY_BOOKS, ops[0], ops[1], ops[2]);
    var granted := Credit(EMPTY_BOOKS, "w", 200);
    assert granted.wallets == map["w" := 200];
    var limited := SetLimit(granted, "w", 100, 0);
    assert limited.limits == map["w" := SpendLimit(100, 0, true)];
    assert Counted([], "w", MonthOf(0)) == 0;
    var after := Reserve(limited, "w", 0).0;
    assert after.wallets == map["w" := 100] && after.reservations == [RowOf(0)];
  }

  lemma CountedTwo(a: Reservation, b: Reservation, ws: WorkspaceId, month: nat)
    ensures Counted([a], ws, month) == CountBy(ws, month)(a)
    ensures Counted([a, b], ws, month) == CountBy(ws, month)(a) + CountBy(ws, month)(b)
  {
    SumOfOneMore([], a, CountBy(ws, month));
    SumOfOneMore([a], b, CountBy(ws, month));
    assert [] + [a] == [a] && [a] + [b] == [a, b];
  }

  lemma NextMonthHasRoom()
    ensures var at := MonthStart(1);
      && Counted([RowOf(0)], "w", 1) == 0 && MonthOf(at) == 1
      && Counted([RowOf(0), RowOf(at)], "w", 1) == 100
  {
    hide MonthOf, MonthStart, SumOf;
    FirstMonthIsOver();
    MonthIsUnique(MonthStart(1), 1);
    CountedTwo(RowOf(0), RowOf(MonthStart(1)), "w", 1);
  }

  lemma NextMonthSpends(start: Books, first: CloudRun)
    requires first.reservation == Some(0)
    requires start == Books(map["w" := 100], map["w" := SpendLimit(100, 0, true)], [RowOf(0)], [])
    ensures var at := MonthStart(1);
      Counted(Settle(Reserve(start, "w", at).0, 0, first, [], at).0.reservations, "w", 1) > 100
  {
    hide MonthOf, MonthStart, Measurements, AppendAllUsage;
    var at := MonthStart(1);
    NextMonthHasRoom();
    var reserved := Reserve(start, "w", at).0;
    assert reserved.reservations == [RowOf(0), RowOf(at)];
    MeasuredIsPositive(0, first, []);
    FirstMonthIsOver();
    var settled := Settle(reserved, 0, first, [], at).0;
    SumOfUpdate(reserved.reservations, 0, settled.reservations[0], CountBy("w", 1));
  }

  lemma FirstMonthIsOver()
    ensures 0 < MonthStart(1) < MonthStart(2)
  {
    NextMonthStart(0);
    NextMonthStart(1);
  }

  /** The carried-over part of the bound is needed: whatever run the first reservation is for,
      the next month counts more than its limit. */
  lemma MonthCanExceedItsLimit(first: CloudRun)
    requires first.reservation == Some(0)
    ensures var start, now := ExecFrom(EMPTY_BOOKS, FirstMonthOps()),
                              ExecFrom(ExecFrom(EMPTY_BOOKS, FirstMonthOps()), NextMonthOps(first));
      && Before(FirstMonthOps(), MonthStart(1)) && InMonth(NextMonthOps(first), 1)
      && "w" in start.limits && start.limits["w"] == SpendLimit(100, 0, true)
      && Counted(now.reservations, "w", 1) > start.limits["w"].monthly
  {
    hide MonthOf, MonthStart, ExecFrom, Settle, Reserve;
    var start, ops := ExecFrom(EMPTY_BOOKS, FirstMonthOps()), NextMonthOps(first);
    AfterFirstMonth();
    FirstMonthIsOver();
    NextMonthSpends(start, first);
    ExecThree(start, ops[0], ops[1], ops[1]);
  }
}
