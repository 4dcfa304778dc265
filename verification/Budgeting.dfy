/** What each operation of services/budgeting.py does to the books: wallets, spend limits,
    reservations and the usage ledger. Every operation is one serialised transaction.
 */
module Budgeting {
  import opened Entities
  import opened Calendar
  import opened Rows

  const RESERVATION_CENTS: nat := 100
  const WORKER_SUBMISSION_CENTS: nat := 25
  const RUNTIME_SECOND_CENTS: nat := 1
  const QUEUE_MESSAGE_CENTS: nat := 1
  const OBJECT_STORAGE_BYTE_CENTS: nat := 0
  const LOG_SYNC_CALL_CENTS: nat := 1

  datatype Books = Books(
    wallets: map<WorkspaceId, int>,
    limits: map<WorkspaceId, SpendLimit>,
    reservations: seq<Reservation>,
    ledger: seq<UsageEntry>)

  datatype ReserveResult =
    | ReservedAs(id: ReservationId)
    | SpendLimitExceeded
    | InsufficientCredits

  function Min(a: int, b: int): int { if a <= b then a else b }

  function Max(a: int, b: int): int { if a <= b then b else a }

  // ---- wallets and limits ----

  function Balance(books: Books, ws: WorkspaceId): int {
    if ws in books.wallets then books.wallets[ws] else 0
  }

  function Credit(books: Books, ws: WorkspaceId, cents: int): Books {
    books.(wallets := books.wallets[ws := Balance(books, ws) + cents])
  }

  function SetLimit(books: Books, ws: WorkspaceId, monthly: nat, perRun: nat): Books {
    var active := if ws in books.limits then books.limits[ws].active else true;
    books.(limits := books.limits[ws := SpendLimit(monthly, perRun, active)])
  }

  /** Cents a reservation counts towards a month: what it holds if it was made in the
      month, what it cost if it was settled in the month. */
  function ActiveIn(row: Reservation, ws: WorkspaceId, month: nat): int {
    if row.workspace == ws && row.status.Reserved? && MonthStart(month) <= row.createdAt < MonthStart(month + 1)
    then row.reserved else 0
  }

  function SettledIn(row: Reservation, ws: WorkspaceId, month: nat): int {
    if row.workspace == ws && row.status.Settled? && row.settledAt.Some?
       && MonthStart(month) <= row.settledAt.value < MonthStart(month + 1)
    then row.settled else 0
  }

  function CountBy(ws: WorkspaceId, month: nat): Reservation -> int {
    row => ActiveIn(row, ws, month) + SettledIn(row, ws, month)
  }

  /** `_current_month_reserved_and_settled_cents` for the month the clock is in. */
  function Counted(rows: seq<Reservation>, ws: WorkspaceId, month: nat): int {
    SumOf(rows, CountBy(ws, month))
  }

  predicate LimitAllows(books: Books, ws: WorkspaceId, cents: nat, now: Time) {
    ws !in books.limits || !books.limits[ws].active ||
    var limit := books.limits[ws];
    && (limit.perRun > 0 ==> cents <= limit.perRun)
    && (limit.monthly > 0 ==> Counted(books.reservations, ws, MonthOf(now)) + cents <= limit.monthly)
  }

  function Reserve(books: Books, ws: WorkspaceId, now: Time): (Books, ReserveResult) {
    if !LimitAllows(books, ws, RESERVATION_CENTS, now) then (books, SpendLimitExceeded)
    else if Balance(books, ws) < RESERVATION_CENTS then (books, InsufficientCredits)
    else
      var row := Reservation(ws, None, RESERVATION_CENTS, 0, ReservationStatus.Reserved, now, None);
      (Credit(books, ws, -(RESERVATION_CENTS as int)).(reservations := books.reservations + [row]),
       ReservedAs(|books.reservations|))
  }

  /** The enqueue step fills in the run of the reservation it made. */
  function Assign(books: Books, reservation: ReservationId, run: RunId): Books {
    if reservation < |books.reservations|
    then books.(reservations := books.reservations[reservation := books.reservations[reservation].(run := Some(run))])
    else books
  }

  // ---- usage measurement ----

  datatype Measurement = Measurement(usageType: UsageType, quantity: int, amount: int)

  datatype SizedRef = SizedRef(ref: string, size: Option<int>)

  predicate Counts(entry: SizedRef) {
    entry.size.Some? && entry.size.value > 0
  }

  function AddSize(sizes: map<string, int>, entry: SizedRef): map<string, int> {
    if !Counts(entry) then sizes
    else sizes[entry.ref := Max(if entry.ref in sizes then sizes[entry.ref] else 0, entry.size.value)]
  }

  function SizesByRef(entries: seq<SizedRef>): map<string, int> {
    if entries == [] then map[]
    else AddSize(SizesByRef(entries[..|entries| - 1]), entries[|entries| - 1])
  }

  ghost function SumValues(sizes: map<string, int>): int
    decreases |sizes|
  {
    if sizes == map[] then 0
    else
      var ref :| ref in sizes;
      sizes[ref] + SumValues(sizes - {ref})
  }

  function ObjectRefs(objects: seq<StoredObject>, id: RunId): seq<SizedRef> {
    var own := Filter(objects, (o: StoredObject) => o.run == id);
    seq(|own|, i requires 0 <= i < |own| => SizedRef(own[i].uri, Some(own[i].sizeBytes)))
  }

  /** The refs a run's storage is measured from, in the order they are added. */
  function StorageRefs(id: RunId, run: CloudRun, objects: seq<StoredObject>): seq<SizedRef> {
    [ SizedRef(if run.manifestUri.Some? && run.manifestUri.value != "" then run.manifestUri.value
               else "cloud_run:artifact_manifest", run.manifestBytes),
      SizedRef(if run.logUri.Some? && run.logUri.value != "" then run.logUri.value
               else "cloud_run:log_stream", run.logBytes)
    ] + ObjectRefs(objects, id)
  }

  ghost function StorageBytes(id: RunId, run: CloudRun, objects: seq<StoredObject>): int {
    SumValues(SizesByRef(StorageRefs(id, run, objects)))
  }

  function RuntimeSeconds(run: CloudRun): int {
    if run.claimedAt.None? || run.completedAt.None? then 0
    else Max((run.completedAt.value - run.claimedAt.value) / SECOND, 1)
  }

  function LogSyncCallCount(run: CloudRun): int {
    if run.costSummary.logSyncCalls.Some? && run.costSummary.logSyncCalls.value > 0
    then run.costSummary.logSyncCalls.value
    else if run.runtimeProvider.Some? && run.logUri.Some? then 1
    else 0
  }

  function When(condition: bool, measurement: Measurement): seq<Measurement> {
    if condition then [measurement] else []
  }

  /** The measurements of a run whose stored bytes are already known. */
  function MeasurementsOf(run: CloudRun, bytes: int): seq<Measurement> {
    var seconds, calls := RuntimeSeconds(run), LogSyncCallCount(run);
    [Measurement(UsageType.WorkerSubmissions, 1, WORKER_SUBMISSION_CENTS)]
    + When(seconds > 0, Measurement(UsageType.CloudRunRuntimeSeconds, seconds, seconds * RUNTIME_SECOND_CENTS))
    + When(run.queueMessage.Some?, Measurement(UsageType.QueueMessages, 1, QUEUE_MESSAGE_CENTS))
    + When(bytes > 0, Measurement(UsageType.ObjectStorageBytes, bytes, bytes * OBJECT_STORAGE_BYTE_CENTS))
    + When(calls > 0, Measurement(UsageType.LogSyncCalls, calls, calls * LOG_SYNC_CALL_CENTS))
  }

  ghost function Measurements(id: RunId, run: CloudRun, objects: seq<StoredObject>): seq<Measurement> {
    MeasurementsOf(run, StorageBytes(id, run, objects))
  }

  function AmountMeasured(): Measurement -> int { (m: Measurement) => m.amount }

  function TotalAmount(measurements: seq<Measurement>): int {
    SumOf(measurements, AmountMeasured())
  }

  // ---- the ledger ----

  predicate HasEntry(ledger: seq<UsageEntry>, id: RunId, usageType: UsageType) {
    exists k :: 0 <= k < |ledger| && ledger[k].run == Some(id) && ledger[k].usageType == usageType
  }

  function EntryOf(id: RunId, run: CloudRun, m: Measurement): UsageEntry {
    UsageEntry(run.workspace, Some(run.project), Some(run.task), Some(id), m.usageType, m.quantity,
               if m.quantity > 0 then m.amount / m.quantity else 0, m.amount)
  }

  /** One row per run and usage type: a second row for the same pair is dropped. */
  function AppendUsage(ledger: seq<UsageEntry>, id: RunId, run: CloudRun, m: Measurement): seq<UsageEntry> {
    if HasEntry(ledger, id, m.usageType) then ledger else ledger + [EntryOf(id, run, m)]
  }

  function AppendAllUsage(ledger: seq<UsageEntry>, id: RunId, run: CloudRun, ms: seq<Measurement>)
    : seq<UsageEntry>
  {
    if ms == [] then ledger
    else AppendUsage(AppendAllUsage(ledger, id, run, ms[..|ms| - 1]), id, run, ms[|ms| - 1])
  }

  /** SETTLEMENT_OWNED_CLOUD_RUN_USAGE_TYPES: only a settlement writes them for a run. */
  predicate SettlementOwned(t: UsageType) {
    t.WorkerSubmissions? || t.QueueMessages? || t.CloudRunRuntimeSeconds? || t.ObjectStorageBytes? || t.LogSyncCalls?
  }

  /** What append_usage_ledger_entry of services/usage_ledger.py does with a row whose run
      exists: the settlement's own types are refused for a run, and the unique constraint
      refuses a second row of one run and type. */
  predicate Appendable(ledger: seq<UsageEntry>, e: UsageEntry) {
    e.run.Some? ==> !SettlementOwned(e.usageType) && !HasEntry(ledger, e.run.value, e.usageType)
  }

  function AppendEntry(books: Books, e: UsageEntry): Books {
    if Appendable(books.ledger, e) then books.(ledger := books.ledger + [e]) else books
  }

  // ---- release and settle ----

  /** The run's reservation while it can still move. */
  function ActiveReservation(books: Books, run: CloudRun): Option<ReservationId> {
    if run.reservation.Some? && run.reservation.value < |books.reservations|
       && books.reservations[run.reservation.value].status.Reserved?
    then run.reservation else None
  }

  function CloseReservation(books: Books, id: ReservationId, status: ReservationStatus, settled: int, now: Time)
    : Books
    requires id < |books.reservations|
  {
    books.(reservations := books.reservations[id :=
      books.reservations[id].(status := status, settled := settled, settledAt := Some(now))])
  }

  function Release(books: Books, run: CloudRun, now: Time): (Books, CloudRun) {
    match ActiveReservation(books, run)
    case None => (books, run)
    case Some(i) =>
      var row := books.reservations[i];
      (Credit(CloseReservation(books, i, ReservationStatus.Released, 0, now), row.workspace, row.reserved),
       run.(actualCost := 0, costSummary := CostSummary(i, row.reserved, 0, 0, None, CostReleased)))
  }

  ghost function Settle(books: Books, id: RunId, run: CloudRun, objects: seq<StoredObject>, now: Time)
    : (Books, CloudRun)
  {
    match ActiveReservation(books, run)
    case None => (books, run)
    case Some(i) =>
      var row := books.reservations[i];
      var ms := Measurements(id, run, objects);
      var measured := TotalAmount(ms);
      var billable := Min(measured, row.reserved);
      var closed := CloseReservation(books, i, ReservationStatus.Settled, billable, now);
      var charged := closed.(ledger := AppendAllUsage(closed.ledger, id, run, ms));
      (Credit(charged, row.workspace, Max(row.reserved - billable, 0)),
       run.(actualCost := billable,
            costSummary := CostSummary(i, row.reserved, measured, billable, None, CostSettled)))
  }

  // ---- the workspace summary ----

  datatype UsageTotal = UsageTotal(quantity: int, amount: int)

  predicate Selected(entry: UsageEntry, ws: WorkspaceId, project: Option<string>, task: Option<string>) {
    && entry.workspace == ws
    && (project.Some? ==> entry.project == project)
    && (task.Some? ==> entry.task == task)
  }

  function SelectedBy(ws: WorkspaceId, project: Option<string>, task: Option<string>): UsageEntry -> bool {
    entry => Selected(entry, ws, project, task)
  }

  function AmountBilled(): UsageEntry -> int { (entry: UsageEntry) => entry.amount }

  function QuantityUsed(): UsageEntry -> int { (entry: UsageEntry) => entry.quantity }

  function TypeIs(t: UsageType): UsageEntry -> bool { (entry: UsageEntry) => entry.usageType == t }

  /** `sorted(totals.items())`: the usage types in the order of their names. */
  const TYPES_BY_NAME: seq<UsageType> := [
    UsageType.CloudRunRuntimeSeconds, UsageType.LogSyncCalls, UsageType.ModelTokens,
    UsageType.ObjectStorageBytes, UsageType.ObjectStorageReads, UsageType.PrPublishAttempts,
    UsageType.QueueMessages, UsageType.WorkerSubmissions]

  datatype UsageItem = UsageItem(usageType: UsageType, quantity: int, amount: int)

  function AmountListed(): UsageItem -> int { (item: UsageItem) => item.amount }

  /** One item for each usage type that has a row, in the order of the type list. */
  function SummaryItems(entries: seq<UsageEntry>, types: seq<UsageType>): seq<UsageItem> {
    if types == [] then []
    else
      var t := types[|types| - 1];
      var rows := Filter(entries, TypeIs(t));
      SummaryItems(entries, types[..|types| - 1])
      + (if rows == [] then [] else [UsageItem(t, SumOf(rows, QuantityUsed()), SumOf(rows, AmountBilled()))])
  }
}
