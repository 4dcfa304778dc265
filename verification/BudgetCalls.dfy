/** When a reservation is granted, what closing one does, and what a usage summary lists. */
module BudgetCalls {
  import opened Entities
  import opened Calendar
  import opened Rows
  import opened Budgeting
  import opened BudgetLaws
  import opened SettlementLaws

  // ---- reserving ----

  /** What a reservation counts in the month of an instant: the cents it holds if it was made
      in that month, the cents it cost if it was settled in it. */
  lemma CountsInItsMonth(row: Reservation, ws: WorkspaceId, month: nat)
    ensures CountBy(ws, month)(row) ==
      if row.workspace != ws then 0
      else match row.status
        case Reserved => if MonthOf(row.createdAt) == month then row.reserved else 0
        case Settled => if row.settledAt.Some? && MonthOf(row.settledAt.value) == month then row.settled else 0
        case Released => 0
  {
    hide MonthOf, MonthStart;
    if MonthStart(month) <= row.createdAt < MonthStart(month + 1) {
      MonthIsUnique(row.createdAt, month);
    }
    if row.settledAt.Some? && MonthStart(month) <= row.settledAt.value < MonthStart(month + 1) {
      MonthIsUnique(row.settledAt.value, month);
    }
  }

  /** An active limit stands in the way: a run may not cost that much, or the month would
      exceed it. A limit of zero is none. */
  predicate OverLimit(books: Books, ws: WorkspaceId, month: nat) {
    && ws in books.limits && books.limits[ws].active
    && (|| 0 < books.limits[ws].perRun < 100
        || (0 < books.limits[ws].monthly < Counted(books.reservations, ws, month) + 100))
  }

  /** The answers to a reservation: over the limit; short of credit; or a new reservation of a
      hundred cents, which the wallet pays at once. Only the last changes anything. */
  lemma ReserveAnswers(books: Books, ws: WorkspaceId, now: Time, month: nat)
    requires MonthStart(month) <= now < MonthStart(month + 1)
    ensures var (after, result) := Reserve(books, ws, now);
      && (result == SpendLimitExceeded <==> OverLimit(books, ws, month))
      && (result == InsufficientCredits <==> !OverLimit(books, ws, month) && Balance(books, ws) < 100)
      && (result == ReservedAs(|books.reservations|) <==> !OverLimit(books, ws, month) && Balance(books, ws) >= 100)
      && (!result.ReservedAs? ==> after == books)
      && (result.ReservedAs? ==>
            && after.limits == books.limits && after.ledger == books.ledger
            && |after.reservations| == |books.reservations| + 1 && books.reservations <= after.reservations
            && after.reservations[|books.reservations|].workspace == ws
            && after.reservations[|books.reservations|].reserved == 100
            && after.reservations[|books.reservations|].status == ReservationStatus.Reserved
            && after.reservations[|books.reservations|].createdAt == now
            && forall w :: Balance(after, w) == Balance(books, w) - (if w == ws then 100 else 0))
  {
    hide MonthOf, MonthStart, Counted;
    MonthIsUnique(now, month);
  }

  /** A limit that is set decides the next reservations of its workspace, unless it was switched
      off, and of no other. */
  lemma LimitsTakeEffect(books: Books, ws: WorkspaceId, monthly: nat, perRun: nat, w: WorkspaceId, month: nat)
    ensures var after := SetLimit(books, ws, monthly, perRun);
      && after.wallets == books.wallets && after.reservations == books.reservations && after.ledger == books.ledger
      && (w != ws ==> (OverLimit(after, w, month) <==> OverLimit(books, w, month)))
      && (OverLimit(after, ws, month) <==>
            && (ws in books.limits ==> books.limits[ws].active)
            && (0 < perRun < 100 || (0 < monthly < Counted(books.reservations, ws, month) + 100)))
  {
    hide Counted;
  }

  // ---- releasing and settling ----

  /** A release gives the whole reservation back, once, and the run shows no cost. */
  lemma ReleaseReturnsAll(books: Books, run: CloudRun, now: Time, ws: WorkspaceId)
    ensures var (after, run') := Release(books, run, now);
      match ActiveReservation(books, run)
      case None => after == books && run' == run
      case Some(i) =>
        var row := books.reservations[i];
        && Balance(after, ws) == Balance(books, ws) + (if ws == row.workspace then row.reserved else 0)
        && after.limits == books.limits && after.ledger == books.ledger
        && |after.reservations| == |books.reservations|
        && (forall k :: 0 <= k < |books.reservations| && k != i ==> after.reservations[k] == books.reservations[k])
        && after.reservations[i].status == ReservationStatus.Released
        && after.reservations[i].settled == 0 && after.reservations[i].settledAt == Some(now)
        && run'.actualCost == run'.costSummary.measured == run'.costSummary.billable == 0
        && run'.costSummary.status == CostReleased
        && run == run'.(actualCost := run.actualCost, costSummary := run.costSummary)
  {
  }

  /** A settlement closes its reservation at the measured cost capped by what was reserved, gives
      the rest back, and shows both on the run. */
  lemma SettleChargesTheRun(
      books: Books, id: RunId, run: CloudRun, objects: seq<StoredObject>, now: Time, ws: WorkspaceId)
    ensures var (after, run') := Settle(books, id, run, objects, now);
      match ActiveReservation(books, run)
      case None => after == books && run' == run
      case Some(i) =>
        var row, cost := books.reservations[i], TotalAmount(Measurements(id, run, objects));
        && run'.costSummary.measured == cost
        && run'.actualCost == run'.costSummary.billable == (if cost <= row.reserved then cost else row.reserved)
        && run'.costSummary.status == CostSettled && run'.costSummary.reserved == row.reserved
        && run == run'.(actualCost := run.actualCost, costSummary := run.costSummary)
        && Balance(after, ws)
           == Balance(books, ws) + (if ws == row.workspace then row.reserved - run'.actualCost else 0)
        && after.limits == books.limits && |after.reservations| == |books.reservations|
        && (forall k :: 0 <= k < |books.reservations| && k != i ==> after.reservations[k] == books.reservations[k])
        && after.reservations[i].status == ReservationStatus.Settled
        && after.reservations[i].settled == run'.actualCost && after.reservations[i].settledAt == Some(now)
  {
    hide Measurements, TotalAmount, AppendAllUsage;
  }

  // ---- the workspace summary ----

  /** The row belongs to the workspace, and to the project and the task if they are named. */
  predicate Wanted(e: UsageEntry, ws: WorkspaceId, project: Option<string>, task: Option<string>) {
    e.workspace == ws && (project.None? || e.project == project) && (task.None? || e.task == task)
  }

  function QuantityOf(ws: WorkspaceId, project: Option<string>, task: Option<string>, t: UsageType)
    : UsageEntry -> int
  {
    e => if Wanted(e, ws, project, task) && e.usageType == t then e.quantity else 0
  }

  function AmountOf(ws: WorkspaceId, project: Option<string>, task: Option<string>, t: UsageType)
    : UsageEntry -> int
  {
    e => if Wanted(e, ws, project, task) && e.usageType == t then e.amount else 0
  }

  lemma {:induction false} SumOfTwiceFiltered(
      rows: seq<UsageEntry>, keep: UsageEntry -> bool, also: UsageEntry -> bool, f: UsageEntry -> int,
      g: UsageEntry -> int)
    requires forall e :: g(e) == if keep(e) && also(e) then f(e) else 0
    ensures SumOf(Filter(Filter(rows, keep), also), f) == SumOf(rows, g)
    decreases |rows|
  {
    if rows != [] {
      var init, last := rows[..|rows| - 1], rows[|rows| - 1];
      SumOfTwiceFiltered(init, keep, also, f, g);
      FilterOneMore(Filter(init, keep), last, also);
      SumOfOneMore(Filter(Filter(init, keep), also), last, f);
    }
  }

  lemma {:induction false} ItemsMean(entries: seq<UsageEntry>, types: seq<UsageType>, item: UsageItem)
    requires DistinctSeq(types)
    ensures item in SummaryItems(entries, types) <==>
      && item.usageType in types && (exists e <- entries :: e.usageType == item.usageType)
      && item.quantity == SumOf(Filter(entries, TypeIs(item.usageType)), QuantityUsed())
      && item.amount == SumOf(Filter(entries, TypeIs(item.usageType)), AmountBilled())
    decreases |types|
  {
    if types != [] {
      var init, t := types[..|types| - 1], types[|types| - 1];
      ItemsMean(entries, init, item);
      FilterKeeps(entries, TypeIs(t));
      assert item.usageType in types <==> item.usageType in init || item.usageType == t;
      var rows := Filter(entries, TypeIs(t));
      assert rows == [] <==> !exists e <- entries :: e.usageType == t by {
        if rows != [] {
          assert rows[0] in rows;
        }
      }
    }
  }

  /** A summary lists exactly the usage types that some wanted row of the ledger has, each with
      the quantities and the amounts of those rows added up over the whole ledger. */
  lemma SummaryMeans(
      ledger: seq<UsageEntry>, ws: WorkspaceId, project: Option<string>, task: Option<string>, item: UsageItem)
    ensures item in SummaryItems(Filter(ledger, SelectedBy(ws, project, task)), TYPES_BY_NAME) <==>
      && (exists e <- ledger :: Wanted(e, ws, project, task) && e.usageType == item.usageType)
      && item.quantity == SumOf(ledger, QuantityOf(ws, project, task, item.usageType))
      && item.amount == SumOf(ledger, AmountOf(ws, project, task, item.usageType))
  {
    var keep, t := SelectedBy(ws, project, task), item.usageType;
    var rows := Filter(ledger, keep);
    EveryTypeIsNamed(t);
    ItemsMean(rows, TYPES_BY_NAME, item);
    FilterKeeps(ledger, keep);
    SumOfTwiceFiltered(ledger, keep, TypeIs(t), QuantityUsed(), QuantityOf(ws, project, task, t));
    SumOfTwiceFiltered(ledger, keep, TypeIs(t), AmountBilled(), AmountOf(ws, project, task, t));
  }

  /** The type of one item comes before the type of the other in a list of types. */
  ghost predicate Precedes(types: seq<UsageType>, a: UsageType, b: UsageType) {
    exists p, q :: 0 <= p < q < |types| && types[p] == a && types[q] == b
  }

  lemma PrecedesInLonger(types: seq<UsageType>, t: UsageType, a: UsageType, b: UsageType)
    requires Precedes(types, a, b)
    ensures Precedes(types + [t], a, b)
  {
    var p, q :| 0 <= p < q < |types| && types[p] == a && types[q] == b;
    assert (types + [t])[p] == a && (types + [t])[q] == b;
  }

  lemma PrecedesTheLast(types: seq<UsageType>, t: UsageType, a: UsageType)
    requires a in types
    ensures Precedes(types + [t], a, t)
  {
    var p :| 0 <= p < |types| && types[p] == a;
    assert (types + [t])[p] == a && (types + [t])[|types|] == t;
  }

  ghost predicate InOrder(items: seq<UsageItem>, types: seq<UsageType>) {
    forall i, j :: 0 <= i < j < |items| ==> Precedes(types, items[i].usageType, items[j].usageType)
  }

  /** The items of a summary come in the order of their types, each type once. */
  lemma {:induction false} SummaryIsInOrder(entries: seq<UsageEntry>, types: seq<UsageType>)
    requires DistinctSeq(types)
    ensures InOrder(SummaryItems(entries, types), types)
    decreases |types|
  {
    if types != [] {
      var init, t := types[..|types| - 1], types[|types| - 1];
      SummaryIsInOrder(entries, init);
      var before, items := SummaryItems(entries, init), SummaryItems(entries, types);
      assert types == init + [t];
      assert InOrder(before, init);
      forall i, j | 0 <= i < j < |items| ensures Precedes(types, items[i].usageType, items[j].usageType) {
        assert items[i] == before[i] && before[i] in before;
        if j < |before| {
          assert items[j] == before[j];
          PrecedesInLonger(init, t, items[i].usageType, items[j].usageType);
        } else {
          ItemsMean(entries, init, before[i]);
          PrecedesTheLast(init, t, items[i].usageType);
        }
      }
    }
  }
}
