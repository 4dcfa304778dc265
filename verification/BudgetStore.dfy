/** services/budgeting.py as it runs: methods that update the wallet, reservation and ledger
    tables in place, each proved to do what module Budgeting says.
 */
module BudgetTables {
  import opened Entities
  import opened Calendar
  import opened Rows
  import opened Budgeting
  import opened SettlementLaws

  class BudgetStore {
    var wallets: map<WorkspaceId, int>
    var limits: map<WorkspaceId, SpendLimit>
    var reservations: seq<Reservation>
    var ledger: seq<UsageEntry>

    ghost function View(): Books
      reads this
    {
      Books(wallets, limits, reservations, ledger)
    }

    constructor ()
      ensures View() == Books(map[], map[], [], [])
    {
      wallets, limits, reservations, ledger := map[], map[], [], [];
    }

    method AddToWallet(ws: WorkspaceId, cents: int)
      modifies this`wallets
      ensures View() == Credit(old(View()), ws, cents)
    {
      if ws !in wallets {
        wallets := wallets[ws := 0];
      }
      wallets := wallets[ws := wallets[ws] + cents];
    }

    method GrantManualCredit(ws: WorkspaceId, cents: nat)
      modifies this`wallets
      ensures View() == Credit(old(View()), ws, cents)
    {
      AddToWallet(ws, cents);
    }

    method SetWorkspaceSpendLimit(ws: WorkspaceId, monthly: nat, perRun: nat)
      modifies this`limits
      ensures View() == SetLimit(old(View()), ws, monthly, perRun)
    {
      if ws !in limits {
        limits := limits[ws := SpendLimit(0, 0, true)];
      }
      limits := limits[ws := limits[ws].(monthly := monthly, perRun := perRun)];
    }

    /** The two sums over the active and the settled reservations of the month. */
    method CurrentMonthReservedAndSettled(ws: WorkspaceId, now: Time) returns (cents: int)
      ensures cents == Counted(reservations, ws, MonthOf(now))
    {
      var start, next := MonthStart(MonthOf(now)), MonthStart(MonthOf(now) + 1);
      var active, settled := 0, 0;
      for k := 0 to |reservations|
        invariant active + settled == Counted(reservations[..k], ws, MonthOf(now))
      {
        var row := reservations[k];
        if row.workspace == ws {
          if row.status.Reserved? && start <= row.createdAt < next {
            active := active + row.reserved;
          }
          if row.status.Settled? && row.settledAt.Some? && start <= row.settledAt.value < next {
            settled := settled + row.settled;
          }
        }
        TakeOneMore(reservations, k);
        SumOfOneMore(reservations[..k], row, CountBy(ws, MonthOf(now)));
      }
      TakeAll(reservations);
      return active + settled;
    }

    method ReserveCloudRunBudget(ws: WorkspaceId, now: Time) returns (result: ReserveResult)
      modifies this`wallets, this`reservations
      ensures (View(), result) == Reserve(old(View()), ws, now)
    {
      if ws in limits && limits[ws].active {
        var limit := limits[ws];
        if limit.perRun > 0 && RESERVATION_CENTS > limit.perRun {
          return SpendLimitExceeded;
        }
        if limit.monthly > 0 {
          var counted := CurrentMonthReservedAndSettled(ws, now);
          if counted + RESERVATION_CENTS > limit.monthly {
            return SpendLimitExceeded;
          }
        }
      }
      if ws !in wallets || wallets[ws] <= 0 {
        return InsufficientCredits;
      }
      if wallets[ws] < RESERVATION_CENTS {
        return InsufficientCredits;
      }
      wallets := wallets[ws := wallets[ws] - RESERVATION_CENTS];
      var row := Reservation(ws, None, RESERVATION_CENTS, 0, ReservationStatus.Reserved, now, None);
      reservations := reservations + [row];
      return ReservedAs(|reservations| - 1);
    }

    /** The conditional update: it moves a reservation that is still RESERVED, once. */
    method TransitionReservedReservation(
        id: ReservationId, status: ReservationStatus, settled: int, at: Time) returns (moved: bool)
      requires id < |reservations|
      modifies this`reservations
      ensures moved <==> old(reservations)[id].status.Reserved?
      ensures View() == if moved then CloseReservation(old(View()), id, status, settled, at) else old(View())
    {
      if !reservations[id].status.Reserved? {
        return false;
      }
      reservations := reservations[id :=
        reservations[id].(status := status, settled := settled, settledAt := Some(at))];
      return true;
    }

    method ReleaseCloudRunReservation(run: CloudRun, now: Time) returns (run': CloudRun)
      modifies this`wallets, this`reservations
      ensures (View(), run') == Release(old(View()), run, now)
    {
      run' := run;
      if run.reservation.None? || run.reservation.value >= |reservations| {
        return;
      }
      var id := run.reservation.value;
      var moved := TransitionReservedReservation(id, ReservationStatus.Released, 0, now);
      if !moved {
        return;
      }
      AddToWallet(reservations[id].workspace, reservations[id].reserved);
      run' := run.(actualCost := 0,
                   costSummary := CostSummary(id, reservations[id].reserved, 0, 0, None, CostReleased));
    }

    /** `sizes_by_ref`: a dictionary filled in a loop, then summed in insertion order. */
    static method ObjectStorageBytes(id: RunId, run: CloudRun, objects: seq<StoredObject>) returns (bytes: int)
      ensures bytes == StorageBytes(id, run, objects)
    {
      var refs := StorageRefs(id, run, objects);
      var sizes: map<string, int>, order: seq<string> := map[], [];
      for k := 0 to |refs|
        invariant sizes == SizesByRef(refs[..k])
        invariant forall ref :: ref in order <==> ref in sizes
        invariant forall i, j :: 0 <= i < j < |order| ==> order[i] != order[j]
      {
        TakeOfTake(refs, k);
        if Counts(refs[k]) {
          if refs[k].ref !in sizes {
            order := order + [refs[k].ref];
          }
          sizes := AddSize(sizes, refs[k]);
        }
      }
      TakeAll(refs);
      bytes := SumInOrder(sizes, order);
    }

    /** `sum(sizes_by_ref.values())` */
    static method SumInOrder(sizes: map<string, int>, order: seq<string>) returns (total: int)
      requires forall ref :: ref in order <==> ref in sizes
      requires forall i, j :: 0 <= i < j < |order| ==> order[i] != order[j]
      ensures total == SumValues(sizes)
    {
      total := 0;
      ghost var rest := sizes;
      for k := 0 to |order|
        invariant total + SumValues(rest) == SumValues(sizes)
        invariant forall ref :: ref in rest <==> ref in order[k..]
        invariant forall ref <- rest :: sizes[ref] == rest[ref]
      {
        assert order[k] in order[k..];
        SumWithout(rest, order[k]);
        rest := rest - {order[k]};
        total := total + sizes[order[k]];
      }
      assert rest == map[];
    }

    static method CloudRunUsageMeasurements(id: RunId, run: CloudRun, objects: seq<StoredObject>)
      returns (ms: seq<Measurement>)
      ensures ms == Measurements(id, run, objects)
    {
      ms := [Measurement(UsageType.WorkerSubmissions, 1, WORKER_SUBMISSION_CENTS)];
      var seconds := RuntimeSeconds(run);
      if seconds > 0 {
        ms := ms + [Measurement(UsageType.CloudRunRuntimeSeconds, seconds, seconds * RUNTIME_SECOND_CENTS)];
      }
      if run.queueMessage.Some? {
        ms := ms + [Measurement(UsageType.QueueMessages, 1, QUEUE_MESSAGE_CENTS)];
      }
      var bytes := ObjectStorageBytes(id, run, objects);
      if bytes > 0 {
        ms := ms + [Measurement(UsageType.ObjectStorageBytes, bytes, bytes * OBJECT_STORAGE_BYTE_CENTS)];
      }
      var calls := LogSyncCallCount(run);
      if calls > 0 {
        ms := ms + [Measurement(UsageType.LogSyncCalls, calls, calls * LOG_SYNC_CALL_CENTS)];
      }
    }

    static method MeasuredCents(ms: seq<Measurement>) returns (cents: int)
      ensures cents == TotalAmount(ms)
    {
      cents := 0;
      for k := 0 to |ms|
        invariant cents == TotalAmount(ms[..k])
      {
        TakeOneMore(ms, k);
        SumOfOneMore(ms[..k], ms[k], AmountMeasured());
        cents := cents + ms[k].amount;
      }
      TakeAll(ms);
    }

    method AppendCloudRunUsage(id: RunId, run: CloudRun, m: Measurement)
      modifies this`ledger
      ensures ledger == AppendUsage(old(ledger), id, run, m)
    {
      for k := 0 to |ledger|
        invariant forall i :: 0 <= i < k ==> !(ledger[i].run == Some(id) && ledger[i].usageType == m.usageType)
        invariant ledger == old(ledger)
      {
        if ledger[k].run == Some(id) && ledger[k].usageType == m.usageType {
          return;
        }
      }
      var price := if m.quantity > 0 then m.amount / m.quantity else 0;
      ledger := ledger + [UsageEntry(run.workspace, Some(run.project), Some(run.task), Some(id),
                                     m.usageType, m.quantity, price, m.amount)];
    }

    /** The insert of append_usage_ledger_entry, for a row whose run exists. */
    method AppendUsageLedgerEntry(e: UsageEntry) returns (appended: bool)
      modifies this`ledger
      ensures appended <==> Appendable(old(ledger), e)
      ensures View() == AppendEntry(old(View()), e)
    {
      if e.run.Some? {
        if SettlementOwned(e.usageType) {
          return false;
        }
        for k := 0 to |ledger|
          invariant forall i :: 0 <= i < k ==> !(ledger[i].run == e.run && ledger[i].usageType == e.usageType)
          invariant ledger == old(ledger)
        {
          if ledger[k].run == e.run && ledger[k].usageType == e.usageType {
            return false;
          }
        }
      }
      ledger := ledger + [e];
      return true;
    }

    method SettleCloudRunBudget(id: RunId, run: CloudRun, objects: seq<StoredObject>, now: Time)
      returns (run': CloudRun)
      modifies this`wallets, this`reservations, this`ledger
      ensures (View(), run') == Settle(old(View()), id, run, objects, now)
    {
      run' := run;
      if run.reservation.None? || run.reservation.value >= |reservations|
         || !reservations[run.reservation.value].status.Reserved? {
        return;
      }
      var i := run.reservation.value;
      var ms := CloudRunUsageMeasurements(id, run, objects);
      var measured := MeasuredCents(ms);
      var billable := Min(measured, reservations[i].reserved);
      var moved := TransitionReservedReservation(i, ReservationStatus.Settled, billable, now);
      for k := 0 to |ms|
        invariant ledger == AppendAllUsage(old(ledger), id, run, ms[..k])
        invariant wallets == old(wallets) && limits == old(limits)
        invariant reservations
               == CloseReservation(old(View()), i, ReservationStatus.Settled, billable, now).reservations
      {
        TakeOfTake(ms, k);
        AppendCloudRunUsage(id, run, ms[k]);
      }
      TakeAll(ms);
      AddToWallet(reservations[i].workspace, Max(reservations[i].reserved - billable, 0));
      run' := run.(actualCost := billable,
                   costSummary := CostSummary(i, reservations[i].reserved, measured, billable, None, CostSettled));
    }

    /** `totals`: a dictionary of running quantities and amounts, one entry per usage type. */
    static method GroupByType(rows: seq<UsageEntry>) returns (totals: map<UsageType, UsageTotal>)
      ensures Groups(totals, rows)
    {
      totals := map[];
      assert Groups(totals, rows[..0]);
      hide Groups, AddUsage;
      for k := 0 to |rows|
        invariant Groups(totals, rows[..k])
      {
        GroupsOneMore(totals, rows[..k], rows[k]);
        TakeOneMore(rows, k);
        totals := AddUsage(totals, rows[k]);
      }
      TakeAll(rows);
    }

    /** The grouped summary. The reported total is the total over every selected row. */
    method WorkspaceUsageSummary(ws: WorkspaceId, project: Option<string>, task: Option<string>)
      returns (items: seq<UsageItem>, total: int)
      ensures items == SummaryItems(Filter(ledger, SelectedBy(ws, project, task)), TYPES_BY_NAME)
      ensures total == SumOf(Filter(ledger, SelectedBy(ws, project, task)), AmountBilled())
    {
      var rows := Filter(ledger, SelectedBy(ws, project, task));
      var totals := GroupByType(rows);
      items, total := [], 0;
      for k := 0 to |TYPES_BY_NAME|
        invariant items == SummaryItems(rows, TYPES_BY_NAME[..k])
        invariant total == SumOf(items, AmountListed())
      {
        var t := TYPES_BY_NAME[k];
        TakeOfTake(TYPES_BY_NAME, k);
        if t in totals {
          var item := UsageItem(t, totals[t].quantity, totals[t].amount);
          SumOfOneMore(items, item, AmountListed());
          items, total := items + [item], total + item.amount;
        }
      }
      TakeAll(TYPES_BY_NAME);
      SummaryAddsUp(rows);
    }
  }

  ghost function TotalOf(rows: seq<UsageEntry>, t: UsageType): UsageTotal {
    UsageTotal(SumOf(Filter(rows, TypeIs(t)), QuantityUsed()), SumOf(Filter(rows, TypeIs(t)), AmountBilled()))
  }

  /** The dictionary has a key for each type that has a row, and the type's sums under it. */
  ghost predicate Groups(totals: map<UsageType, UsageTotal>, rows: seq<UsageEntry>) {
    forall t :: (t in totals <==> Filter(rows, TypeIs(t)) != []) && (t in totals ==> totals[t] == TotalOf(rows, t))
  }

  /** `current = totals.setdefault(usage_type, {…})`, then both sums go up. */
  function AddUsage(totals: map<UsageType, UsageTotal>, e: UsageEntry): map<UsageType, UsageTotal> {
    var was := if e.usageType in totals then totals[e.usageType] else UsageTotal(0, 0);
    totals[e.usageType := UsageTotal(was.quantity + e.quantity, was.amount + e.amount)]
  }

  lemma TotalOneMore(rows: seq<UsageEntry>, e: UsageEntry, t: UsageType)
    ensures Filter(rows + [e], TypeIs(t)) == Filter(rows, TypeIs(t)) + (if e.usageType == t then [e] else [])
    ensures TotalOf(rows + [e], t) == (if e.usageType == t
      then UsageTotal(TotalOf(rows, t).quantity + e.quantity, TotalOf(rows, t).amount + e.amount)
      else TotalOf(rows, t))
  {
    FilterOneMore(rows, e, TypeIs(t));
    if e.usageType == t {
      SumOfOneMore(Filter(rows, TypeIs(t)), e, QuantityUsed());
      SumOfOneMore(Filter(rows, TypeIs(t)), e, AmountBilled());
    } else {
      assert Filter(rows, TypeIs(t)) + [] == Filter(rows, TypeIs(t));
    }
  }

  lemma GroupsOneMore(totals: map<UsageType, UsageTotal>, rows: seq<UsageEntry>, e: UsageEntry)
    requires Groups(totals, rows)
    ensures Groups(AddUsage(totals, e), rows + [e])
  {
    var after := AddUsage(totals, e);
    forall t ensures (t in after <==> Filter(rows + [e], TypeIs(t)) != [])
                  && (t in after ==> after[t] == TotalOf(rows + [e], t))
    {
      TotalOneMore(rows, e, t);
    }
  }
}
