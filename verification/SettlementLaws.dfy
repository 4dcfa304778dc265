/** What a settlement writes: measured bytes, ledger rows and the workspace summary. */
module SettlementLaws {
  import opened Entities
  import opened Rows
  import opened Budgeting

  // ---- storage bytes ----

  lemma {:induction false} SumWithout(sizes: map<string, int>, ref: string)
    requires ref in sizes
    ensures SumValues(sizes) == sizes[ref] + SumValues(sizes - {ref})
    decreases |sizes|
  {
    var first :| first in sizes && SumValues(sizes) == sizes[first] + SumValues(sizes - {first});
    if first != ref {
      SumWithout(sizes - {first}, ref);
      SumWithout(sizes - {ref}, first);
      assert sizes - {first} - {ref} == sizes - {ref} - {first};
    }
  }

  lemma {:induction false} SumIsNonNegative(sizes: map<string, int>)
    requires forall ref <- sizes :: sizes[ref] >= 0
    ensures SumValues(sizes) >= 0
    decreases |sizes|
  {
    if sizes != map[] {
      var ref :| ref in sizes;
      SumWithout(sizes, ref);
      SumIsNonNegative(sizes - {ref});
    }
  }

  /** A ref is measured exactly when a positive size was seen for it, and then at the
      largest size seen. */
  lemma {:induction false} SizesByRefMeans(entries: seq<SizedRef>, ref: string)
    ensures ref in SizesByRef(entries) <==> exists e <- entries :: Counts(e) && e.ref == ref
    ensures ref in SizesByRef(entries) ==>
      (exists e <- entries :: Counts(e) && e.ref == ref && e.size.value == SizesByRef(entries)[ref])
    ensures forall e <- entries :: Counts(e) && e.ref == ref ==>
      ref in SizesByRef(entries) && e.size.value <= SizesByRef(entries)[ref]
    decreases |entries|
  {
    if entries != [] {
      var init, last := entries[..|entries| - 1], entries[|entries| - 1];
      SizesByRefMeans(init, ref);
      assert forall e :: e in entries <==> e in init || e == last;
    }
  }

  /** Each URI counts once: neither the order of the rows nor a repeated row changes it. */
  lemma StorageBytesIgnoreOrder(a: seq<SizedRef>, b: seq<SizedRef>)
    requires forall e :: e in a <==> e in b
    ensures SizesByRef(a) == SizesByRef(b)
    ensures SumValues(SizesByRef(a)) == SumValues(SizesByRef(b))
  {
    forall ref
      ensures ref in SizesByRef(a) <==> ref in SizesByRef(b)
      ensures ref in SizesByRef(a) ==> SizesByRef(a)[ref] == SizesByRef(b)[ref]
    {
      SizesByRefMeans(a, ref);
      SizesByRefMeans(b, ref);
    }
  }

  lemma StorageBytesAreNonNegative(id: RunId, run: CloudRun, objects: seq<StoredObject>)
    ensures StorageBytes(id, run, objects) >= 0
  {
    var entries := StorageRefs(id, run, objects);
    forall ref <- SizesByRef(entries) ensures SizesByRef(entries)[ref] >= 0 {
      SizesByRefMeans(entries, ref);
    }
    SumIsNonNegative(SizesByRef(entries));
  }

  // ---- measurements ----

  ghost predicate DistinctTypes(ms: seq<Measurement>) {
    forall i, j :: 0 <= i < j < |ms| ==> ms[i].usageType != ms[j].usageType
  }

  lemma WhenKeepsDistinct(ms: seq<Measurement>, condition: bool, m: Measurement)
    requires DistinctTypes(ms) && forall other <- ms :: other.usageType != m.usageType
    ensures DistinctTypes(ms + When(condition, m))
  {
  }

  lemma MeasurementsAreDistinct(run: CloudRun, bytes: int)
    ensures DistinctTypes(MeasurementsOf(run, bytes))
  {
    hide DistinctTypes;
    var seconds, calls := RuntimeSeconds(run), LogSyncCallCount(run);
    var ms := [Measurement(UsageType.WorkerSubmissions, 1, WORKER_SUBMISSION_CENTS)];
    OneIsDistinct(ms[0]);
    var m := Measurement(UsageType.CloudRunRuntimeSeconds, seconds, seconds * RUNTIME_SECOND_CENTS);
    WhenKeepsDistinct(ms, seconds > 0, m);
    ms := ms + When(seconds > 0, m);
    m := Measurement(UsageType.QueueMessages, 1, QUEUE_MESSAGE_CENTS);
    WhenKeepsDistinct(ms, run.queueMessage.Some?, m);
    ms := ms + When(run.queueMessage.Some?, m);
    m := Measurement(UsageType.ObjectStorageBytes, bytes, bytes * OBJECT_STORAGE_BYTE_CENTS);
    WhenKeepsDistinct(ms, bytes > 0, m);
    ms := ms + When(bytes > 0, m);
    WhenKeepsDistinct(ms, calls > 0, Measurement(UsageType.LogSyncCalls, calls, calls * LOG_SYNC_CALL_CENTS));
  }

  lemma OneIsDistinct(m: Measurement)
    ensures DistinctTypes([m])
  {
  }

  lemma {:induction false} TotalIsAtLeast(ms: seq<Measurement>)
    requires ms != [] && ms[0].amount == WORKER_SUBMISSION_CENTS
    requires forall m <- ms :: m.amount >= 0
    ensures TotalAmount(ms) >= WORKER_SUBMISSION_CENTS
    decreases |ms|
  {
    if |ms| > 1 {
      TotalIsAtLeast(ms[..|ms| - 1]);
    } else {
      assert ms[..0] == [] && ms == [ms[0]] && TotalAmount(ms[..0]) == 0;
    }
  }

  lemma MeasuredIsPositive(id: RunId, run: CloudRun, objects: seq<StoredObject>)
    ensures TotalAmount(Measurements(id, run, objects)) >= WORKER_SUBMISSION_CENTS
  {
    StorageBytesAreNonNegative(id, run, objects);
    var ms := Measurements(id, run, objects);
    forall m <- ms ensures m.amount >= 0 {
    }
    TotalIsAtLeast(ms);
  }

  lemma MeasurementsAreOwned(run: CloudRun, bytes: int)
    ensures forall m <- MeasurementsOf(run, bytes) :: SettlementOwned(m.usageType)
  {
  }

  lemma WhenAdds(ms: seq<Measurement>, condition: bool, m: Measurement)
    ensures TotalAmount(ms + When(condition, m)) == TotalAmount(ms) + (if condition then m.amount else 0)
  {
    if condition {
      SumOfOneMore(ms, m, AmountMeasured());
    } else {
      assert ms + [] == ms;
    }
  }

  /** `n` are the whole seconds from the claim of a run to its completion, and one when fewer
      than two have passed; a run that was never claimed, or is not complete, has none. */
  predicate RanFor(run: CloudRun, n: int) {
    if run.claimedAt.None? || run.completedAt.None? then n == 0
    else
      var passed := run.completedAt.value - run.claimedAt.value;
      if passed < 2 * SECOND then n == 1 else n * SECOND <= passed < (n + 1) * SECOND
  }

  /** `n` are the log synchronisations that the run is known to have made: as many as its cost
      summary counted, and if that counted none, one for a run of a remote runtime that has a
      log stream. */
  predicate SyncedLogs(run: CloudRun, n: int) {
    var counted := run.costSummary.logSyncCalls;
    && (counted.Some? && counted.value > 0 ==> n == counted.value)
    && (counted.None? || counted.value <= 0 ==>
          (n == 1 || n == 0) && (n == 1 <==> run.runtimeProvider.Some? && run.logUri.Some?))
  }

  /** Runtime and log synchronisations are measured as that, and there is only one such number. */
  lemma RuntimeIsMeasured(run: CloudRun, n: int, calls: int)
    ensures RanFor(run, n) <==> n == RuntimeSeconds(run)
    ensures SyncedLogs(run, calls) <==> calls == LogSyncCallCount(run)
  {
  }

  /** What a run costs: 25 cents for its submission, a cent for every second that it ran, one for
      its queue message and one for every log synchronisation. Stored bytes are measured, but
      free. */
  lemma CostIsTheSum(run: CloudRun, bytes: int, seconds: int, calls: int)
    requires RanFor(run, seconds) && SyncedLogs(run, calls)
    ensures TotalAmount(MeasurementsOf(run, bytes))
         == 25 + seconds + (if run.queueMessage.Some? then 1 else 0) + calls
  {
    hide TotalAmount, When;
    RuntimeIsMeasured(run, seconds, calls);
    var ms := [Measurement(UsageType.WorkerSubmissions, 1, WORKER_SUBMISSION_CENTS)];
    OneAmount(ms[0]);
    var m := Measurement(UsageType.CloudRunRuntimeSeconds, seconds, seconds * RUNTIME_SECOND_CENTS);
    WhenAdds(ms, seconds > 0, m);
    ms := ms + When(seconds > 0, m);
    m := Measurement(UsageType.QueueMessages, 1, QUEUE_MESSAGE_CENTS);
    WhenAdds(ms, run.queueMessage.Some?, m);
    ms := ms + When(run.queueMessage.Some?, m);
    m := Measurement(UsageType.ObjectStorageBytes, bytes, bytes * OBJECT_STORAGE_BYTE_CENTS);
    WhenAdds(ms, bytes > 0, m);
    ms := ms + When(bytes > 0, m);
    WhenAdds(ms, calls > 0, Measurement(UsageType.LogSyncCalls, calls, calls * LOG_SYNC_CALL_CENTS));
  }

  /** What is measured, type by type, with its quantity and its cents: nothing that is zero is. */
  lemma MeasuredExactly(run: CloudRun, bytes: int, seconds: int, calls: int, m: Measurement)
    requires RanFor(run, seconds) && SyncedLogs(run, calls)
    ensures m in MeasurementsOf(run, bytes) <==>
      match m.usageType
      case WorkerSubmissions => m.quantity == 1 && m.amount == 25
      case CloudRunRuntimeSeconds => m.quantity == m.amount == seconds && seconds > 0
      case QueueMessages => m.quantity == m.amount == 1 && run.queueMessage.Some?
      case ObjectStorageBytes => m.quantity == bytes && m.amount == 0 && bytes > 0
      case LogSyncCalls => m.quantity == m.amount == calls && calls > 0
      case _ => false
  {
    RuntimeIsMeasured(run, seconds, calls);
  }

  /** The ledger row of a measurement is the run's, and its quantity at its unit price is its
      amount. */
  lemma RowShowsMeasurement(id: RunId, run: CloudRun, bytes: int, m: Measurement)
    requires m in MeasurementsOf(run, bytes)
    ensures var e := EntryOf(id, run, m);
      && e.run == Some(id) && e.workspace == run.workspace
      && e.project == Some(run.project) && e.task == Some(run.task)
      && e.usageType == m.usageType && e.quantity == m.quantity && e.amount == m.amount
      && e.quantity * e.unitPrice == e.amount
  {
    MeasuredExactly(run, bytes, RuntimeSeconds(run), LogSyncCallCount(run), m) by {
      RuntimeIsMeasured(run, RuntimeSeconds(run), LogSyncCallCount(run));
    }
    if m.quantity == m.amount {
      assert m.amount / m.quantity == 1;
    }
  }

  /** What a run's storage is measured from: its manifest, its log stream, and the stored objects
      that are its own. */
  lemma StorageCountsOwn(id: RunId, run: CloudRun, objects: seq<StoredObject>, ref: string, bytes: int)
    ensures SizedRef(ref, Some(bytes)) in StorageRefs(id, run, objects) <==>
      || (run.manifestBytes == Some(bytes)
          && ref == (if run.manifestUri.Some? && run.manifestUri.value != "" then run.manifestUri.value
                     else "cloud_run:artifact_manifest"))
      || (run.logBytes == Some(bytes)
          && ref == (if run.logUri.Some? && run.logUri.value != "" then run.logUri.value
                     else "cloud_run:log_stream"))
      || StoredObject(id, ref, bytes) in objects
  {
    var own := Filter(objects, (o: StoredObject) => o.run == id);
    FilterKeeps(objects, (o: StoredObject) => o.run == id);
    var refs := ObjectRefs(objects, id);
    assert SizedRef(ref, Some(bytes)) in refs <==> StoredObject(id, ref, bytes) in own by {
      if StoredObject(id, ref, bytes) in own {
        var k :| 0 <= k < |own| && own[k] == StoredObject(id, ref, bytes);
        assert refs[k] == SizedRef(ref, Some(bytes));
      }
      if SizedRef(ref, Some(bytes)) in refs {
        var k :| 0 <= k < |refs| && refs[k] == SizedRef(ref, Some(bytes));
        assert own[k] in own;
      }
    }
  }

  lemma OneAmount(m: Measurement)
    ensures TotalAmount([m]) == m.amount
  {
    SumOfOneMore([], m, AmountMeasured());
    assert [] + [m] == [m];
  }

  // ---- the ledger ----

  ghost predicate UniqueUsage(ledger: seq<UsageEntry>) {
    forall i, j :: 0 <= i < j < |ledger| && ledger[i].run.Some? && ledger[i].run == ledger[j].run
      ==> ledger[i].usageType != ledger[j].usageType
  }

  /** The run has no row that a settlement would have written; it may have rows of the other
      types, which callers append. */
  ghost predicate NoOwnedEntries(ledger: seq<UsageEntry>, id: RunId) {
    forall e <- ledger :: e.run == Some(id) ==> !SettlementOwned(e.usageType)
  }

  ghost predicate OwnedTypes(ms: seq<Measurement>) {
    forall m <- ms :: SettlementOwned(m.usageType)
  }

  function EntriesOf(id: RunId, run: CloudRun, ms: seq<Measurement>): (entries: seq<UsageEntry>)
    ensures |entries| == |ms|
  {
    seq(|ms|, k requires 0 <= k < |ms| => EntryOf(id, run, ms[k]))
  }

  /** Whatever the ledger held, a settlement only adds rows and keeps the pair of run and
      usage type unique, as the table's unique constraint demands. */
  lemma {:induction false} UsageStaysUnique(ledger: seq<UsageEntry>, id: RunId, run: CloudRun, ms: seq<Measurement>)
    requires UniqueUsage(ledger)
    ensures ledger <= AppendAllUsage(ledger, id, run, ms)
    ensures UniqueUsage(AppendAllUsage(ledger, id, run, ms))
    ensures forall m <- ms :: HasEntry(AppendAllUsage(ledger, id, run, ms), id, m.usageType)
    decreases |ms|
  {
    if ms != [] {
      var init, last := ms[..|ms| - 1], ms[|ms| - 1];
      UsageStaysUnique(ledger, id, run, init);
      var before, after := AppendAllUsage(ledger, id, run, init), AppendAllUsage(ledger, id, run, ms);
      assert after == before || after[|before|] == EntryOf(id, run, last);
      forall m <- ms ensures HasEntry(after, id, m.usageType) {
        if m in init {
          var k :| 0 <= k < |before| && before[k].run == Some(id) && before[k].usageType == m.usageType;
          assert after[k] == before[k];
        }
      }
    }
  }

  lemma OtherTypesHaveNoEntry(ledger: seq<UsageEntry>, id: RunId, run: CloudRun, ms: seq<Measurement>, t: UsageType)
    requires NoOwnedEntries(ledger, id) && SettlementOwned(t) && forall m <- ms :: m.usageType != t
    ensures !HasEntry(ledger + EntriesOf(id, run, ms), id, t)
  {
    var entries := ledger + EntriesOf(id, run, ms);
    assert forall k :: |ledger| <= k < |entries| ==> entries[k].usageType == ms[k - |ledger|].usageType;
    assert forall k :: 0 <= k < |ledger| ==> entries[k] == ledger[k] && ledger[k] in ledger;
  }

  lemma {:induction false} FreshUsageIsAppended(ledger: seq<UsageEntry>, id: RunId, run: CloudRun, ms: seq<Measurement>)
    requires NoOwnedEntries(ledger, id) && DistinctTypes(ms) && OwnedTypes(ms)
    ensures AppendAllUsage(ledger, id, run, ms) == ledger + EntriesOf(id, run, ms)
    ensures SumOf(EntriesOf(id, run, ms), AmountBilled()) == TotalAmount(ms)
    decreases |ms|
  {
    if ms == [] {
      assert EntriesOf(id, run, ms) == [];
    } else {
      var init, last := ms[..|ms| - 1], ms[|ms| - 1];
      FreshUsageIsAppended(ledger, id, run, init);
      var entries := EntriesOf(id, run, init);
      assert EntriesOf(id, run, ms) == entries + [EntryOf(id, run, last)];
      SumOfOneMore(entries, EntryOf(id, run, last), AmountBilled());
      OtherTypesHaveNoEntry(ledger, id, run, init, last.usageType);
    }
  }

  /** The first settlement of a run, whatever rows of other types callers have appended for it,
      writes one ledger row per measured usage type, in order: none is dropped. The rows add
      up to the measured cost; what is billed is the measured cost capped by the reservation;
      and the rest of the reservation goes back to the wallet. */
  lemma SettlementWritesOnce(books: Books, id: RunId, run: CloudRun, objects: seq<StoredObject>, now: Time)
    requires ActiveReservation(books, run).Some? && NoOwnedEntries(books.ledger, id)
    ensures var ms, i := Measurements(id, run, objects), run.reservation.value;
      var (after, run') := Settle(books, id, run, objects, now);
      && DistinctTypes(ms)
      && after.ledger == books.ledger + EntriesOf(id, run, ms)
      && SumOf(EntriesOf(id, run, ms), AmountBilled()) == run'.costSummary.measured
      && after.reservations[i].settled == run'.actualCost
         == Min(run'.costSummary.measured, books.reservations[i].reserved)
      && Balance(after, books.reservations[i].workspace)
         == Balance(books, books.reservations[i].workspace) + books.reservations[i].reserved - run'.actualCost
  {
    var ms := Measurements(id, run, objects);
    MeasurementsAreDistinct(run, StorageBytes(id, run, objects));
    MeasurementsAreOwned(run, StorageBytes(id, run, objects));
    FreshUsageIsAppended(books.ledger, id, run, ms);
  }

  /** Closing is final: once a reservation has been settled or released, no settlement or
      release of any row that names it changes the books again. */
  lemma ClosingTwiceAddsNothing(
      books: Books, id: RunId, run: CloudRun, objects: seq<StoredObject>, now: Time,
      again: CloudRun, id': RunId, objects': seq<StoredObject>, later: Time)
    requires ActiveReservation(books, run).Some? && again.reservation == run.reservation
    ensures Settle(Settle(books, id, run, objects, now).0, id', again, objects', later).0
         == Settle(books, id, run, objects, now).0
    ensures Release(Settle(books, id, run, objects, now).0, again, later).0 == Settle(books, id, run, objects, now).0
    ensures Settle(Release(books, run, now).0, id', again, objects', later).0 == Release(books, run, now).0
    ensures Release(Release(books, run, now).0, again, later).0 == Release(books, run, now).0
  {
  }

  // ---- the workspace summary ----

  function ByType(entries: seq<UsageEntry>, t: UsageType): int {
    SumOf(Filter(entries, TypeIs(t)), AmountBilled())
  }

  lemma ByTypeOneMore(entries: seq<UsageEntry>, e: UsageEntry, t: UsageType)
    ensures ByType(entries + [e], t) == ByType(entries, t) + (if e.usageType == t then e.amount else 0)
  {
    FilterOneMore(entries, e, TypeIs(t));
    if e.usageType == t {
      SumOfOneMore(Filter(entries, TypeIs(t)), e, AmountBilled());
    } else {
      assert Filter(entries, TypeIs(t)) + [] == Filter(entries, TypeIs(t));
    }
  }

  function AcrossTypes(entries: seq<UsageEntry>, types: seq<UsageType>): int {
    if types == [] then 0
    else AcrossTypes(entries, types[..|types| - 1]) + ByType(entries, types[|types| - 1])
  }

  ghost predicate DistinctSeq(types: seq<UsageType>) {
    forall i, j :: 0 <= i < j < |types| ==> types[i] != types[j]
  }

  lemma {:induction false} AcrossTypesOneMore(entries: seq<UsageEntry>, e: UsageEntry, types: seq<UsageType>)
    requires DistinctSeq(types)
    ensures AcrossTypes(entries + [e], types)
         == AcrossTypes(entries, types) + (if e.usageType in types then e.amount else 0)
    decreases |types|
  {
    if types != [] {
      AcrossTypesOneMore(entries, e, types[..|types| - 1]);
      ByTypeOneMore(entries, e, types[|types| - 1]);
    }
  }

  lemma {:induction false} ListedIsAcrossTypes(entries: seq<UsageEntry>, types: seq<UsageType>)
    ensures SumOf(SummaryItems(entries, types), AmountListed()) == AcrossTypes(entries, types)
    decreases |types|
  {
    if types != [] {
      var init, t := types[..|types| - 1], types[|types| - 1];
      ListedIsAcrossTypes(entries, init);
      var rows := Filter(entries, TypeIs(t));
      if rows != [] {
        SumOfOneMore(SummaryItems(entries, init),
          UsageItem(t, SumOf(rows, QuantityUsed()), SumOf(rows, AmountBilled())), AmountListed());
      } else {
        assert SummaryItems(entries, types) == SummaryItems(entries, init);
      }
    }
  }

  lemma EveryTypeIsNamed(t: UsageType)
    ensures DistinctSeq(TYPES_BY_NAME) && t in TYPES_BY_NAME
  {
    match t
    case CloudRunRuntimeSeconds => assert TYPES_BY_NAME[0] == t;
    case LogSyncCalls => assert TYPES_BY_NAME[1] == t;
    case ModelTokens => assert TYPES_BY_NAME[2] == t;
    case ObjectStorageBytes => assert TYPES_BY_NAME[3] == t;
    case ObjectStorageReads => assert TYPES_BY_NAME[4] == t;
    case PrPublishAttempts => assert TYPES_BY_NAME[5] == t;
    case QueueMessages => assert TYPES_BY_NAME[6] == t;
    case WorkerSubmissions => assert TYPES_BY_NAME[7] == t;
  }

  lemma {:induction false} NothingAcrossTypes(types: seq<UsageType>)
    ensures AcrossTypes([], types) == 0
    decreases |types|
  {
    if types != [] {
      NothingAcrossTypes(types[..|types| - 1]);
    }
  }

  /** Grouping loses no money: the items of a summary add up to all the selected rows. */
  lemma {:induction false} SummaryAddsUp(entries: seq<UsageEntry>)
    ensures SumOf(SummaryItems(entries, TYPES_BY_NAME), AmountListed()) == SumOf(entries, AmountBilled())
    decreases |entries|
  {
    ListedIsAcrossTypes(entries, TYPES_BY_NAME);
    if entries == [] {
      NothingAcrossTypes(TYPES_BY_NAME);
    } else {
      var init, last := entries[..|entries| - 1], entries[|entries| - 1];
      assert entries == init + [last];
      SummaryAddsUp(init);
      ListedIsAcrossTypes(init, TYPES_BY_NAME);
      EveryTypeIsNamed(last.usageType);
      AcrossTypesOneMore(init, last, TYPES_BY_NAME);
      SumOfOneMore(init, last, AmountBilled());
    }
  }
}
