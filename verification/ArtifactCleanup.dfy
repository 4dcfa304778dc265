/** The bounded cleanup of expired artifacts (services/artifact_plane.py). */
module ArtifactCleanup {
  import opened Entities
  import opened Keys
  import opened Rows

  /** A stored object, with what its URI says of its provider and of the object it names. */
  datatype StoredRow = StoredRow(
    id: string,
    workspace: string,
    run: string,
    knownKind: bool,
    provider: Option<string>,
    inlineId: Option<string>,
    expiresAt: Option<Time>)

  datatype Action = Deleted | LifecycleOnly

  datatype Item = Item(row: string, run: string, provider: Option<string>, action: Action, reason: string)

  const LOCAL_INLINE: Option<string> := Some("local_inline")

  // ---- the query ----

  function IsExpired(before: Time, workspace: Option<string>): StoredRow -> bool {
    (row: StoredRow) => row.expiresAt.Some? && row.expiresAt.value <= before
                        && (workspace.Some? ==> row.workspace == workspace.value)
  }

  predicate RowLess(a: StoredRow, b: StoredRow) {
    a.expiresAt.Some? && b.expiresAt.Some? && KeyLess(a.expiresAt.value, a.id, b.expiresAt.value, b.id)
  }

  function Insert(rows: seq<StoredRow>, row: StoredRow): (r: seq<StoredRow>)
    ensures |r| == |rows| + 1
  {
    if rows == [] || !RowLess(row, rows[|rows| - 1]) then rows + [row]
    else Insert(rows[..|rows| - 1], row) + [rows[|rows| - 1]]
  }

  /** `ORDER BY expires_at, id` */
  function Sorted(rows: seq<StoredRow>): (r: seq<StoredRow>)
    ensures |r| == |rows|
  {
    if rows == [] then [] else Insert(Sorted(rows[..|rows| - 1]), rows[|rows| - 1])
  }

  function Query(rows: seq<StoredRow>, before: Time, workspace: Option<string>): seq<StoredRow> {
    Sorted(Filter(rows, IsExpired(before, workspace)))
  }

  // ---- what one call does ----

  function Deletable(): StoredRow -> bool {
    (row: StoredRow) => row.knownKind && row.provider == LOCAL_INLINE && row.inlineId == Some(row.id)
  }

  function Reportable(): StoredRow -> bool {
    (row: StoredRow) => row.knownKind && !(row.provider == LOCAL_INLINE && row.inlineId == Some(row.id))
  }

  function First<T>(rows: seq<T>, limit: nat): (r: seq<T>)
    ensures |r| <= limit
  {
    if |rows| <= limit then rows else rows[..limit]
  }

  /** The deletable expired rows, in order. */
  function Due(rows: seq<StoredRow>, before: Time, workspace: Option<string>): seq<StoredRow> {
    Filter(Query(rows, before, workspace), Deletable())
  }

  function DeletedItem(): StoredRow -> Item {
    (row: StoredRow) => Item(row.id, row.run, row.provider, Deleted, "local_inline_expired")
  }

  function ReportedItem(): StoredRow -> Item {
    (row: StoredRow) => Item(row.id, row.run, row.provider, LifecycleOnly,
      if row.provider == LOCAL_INLINE then "local_inline_reference_mismatch"
      else "external_provider_cleanup_not_supported_by_api")
  }

  function Map<A, B>(rows: seq<A>, f: A -> B): (r: seq<B>)
    ensures |r| == |rows|
  {
    seq(|rows|, k requires 0 <= k < |rows| => f(rows[k]))
  }

  function Ids(rows: seq<StoredRow>): set<string> {
    set k | 0 <= k < |rows| :: rows[k].id
  }

  function NotIn(ids: set<string>): StoredRow -> bool {
    (row: StoredRow) => row.id !in ids
  }

  function Report(rows: seq<StoredRow>, before: Time, workspace: Option<string>, limit: nat): seq<Item> {
    Map(First(Due(rows, before, workspace), limit), DeletedItem())
    + Map(First(Filter(Query(rows, before, workspace), Reportable()), limit), ReportedItem())
  }

  function Remaining(rows: seq<StoredRow>, before: Time, workspace: Option<string>, limit: nat): seq<StoredRow> {
    Filter(rows, NotIn(Ids(First(Due(rows, before, workspace), limit))))
  }

  // ---- the two passes ----

  lemma MapOneMore<A, B>(rows: seq<A>, row: A, f: A -> B)
    ensures Map(rows + [row], f) == Map(rows, f) + [f(row)]
  {
  }

  lemma IdsOneMore(rows: seq<StoredRow>, row: StoredRow)
    ensures Ids(rows + [row]) == Ids(rows) + {row.id}
  {
    var more := rows + [row];
    assert more[|rows|] == row;
    assert forall k :: 0 <= k < |rows| ==> more[k] == rows[k];
    forall id <- Ids(rows) ensures id in Ids(more) {
      var k :| 0 <= k < |rows| && rows[k].id == id;
      assert more[k].id == id;
    }
  }

  lemma {:induction false} FilterTwice<T>(rows: seq<T>, p: T -> bool, q: T -> bool)
    ensures Filter(Filter(rows, p), q) == Filter(Filter(rows, q), p)
    ensures Filter(Filter(rows, p), q) == Filter(rows, (x: T) => p(x) && q(x))
    decreases |rows|
  {
    if rows != [] {
      var init, last := rows[..|rows| - 1], rows[|rows| - 1];
      FilterTwice(init, p, q);
      FilterOneMore(Filter(init, p), last, q);
      FilterOneMore(Filter(init, q), last, p);
    }
  }

  lemma DropAnother(rows: seq<StoredRow>, kept: seq<StoredRow>, ids: set<string>, id: string)
    requires kept == Filter(rows, NotIn(ids))
    ensures Filter(kept, NotIn({id})) == Filter(rows, NotIn(ids + {id}))
  {
    FilterTwice(rows, NotIn(ids), NotIn({id}));
    SameFilter(rows, (x: StoredRow) => NotIn(ids)(x) && NotIn({id})(x), NotIn(ids + {id}));
  }

  lemma {:induction false} SameFilter<T>(rows: seq<T>, p: T -> bool, q: T -> bool)
    requires forall row <- rows :: p(row) == q(row)
    ensures Filter(rows, p) == Filter(rows, q)
    decreases |rows|
  {
    if rows != [] {
      SameFilter(rows[..|rows| - 1], p, q);
    }
  }

  lemma FilterPrefix<T>(rows: seq<T>, keep: T -> bool, n: nat)
    requires n <= |rows|
    ensures Filter(rows[..n], keep) <= Filter(rows, keep)
  {
    FilterConcat(rows[..n], rows[n..], keep);
    SplitAt(rows, n);
  }

  class ArtifactTable {
    var rows: seq<StoredRow>

    constructor (stored: seq<StoredRow>)
      ensures rows == stored
    {
      rows := stored;
    }

    method Delete(id: string)
      modifies this
      ensures rows == Filter(old(rows), NotIn({id}))
    {
      rows := Filter(rows, NotIn({id}));
    }

    /** The first pass: delete deletable rows until the limit is reached. */
    method DeletePass(expired: seq<StoredRow>, limit: nat) returns (items: seq<Item>, ids: set<string>)
      modifies this
      ensures items == Map(First(Filter(expired, Deletable()), limit), DeletedItem())
      ensures ids == Ids(First(Filter(expired, Deletable()), limit))
      ensures rows == Filter(old(rows), NotIn(ids))
    {
      items, ids := [], {};
      FilterAll(rows, NotIn({}));
      ghost var deleted: seq<StoredRow> := [];
      for k := 0 to |expired|
        invariant deleted == Filter(expired[..k], Deletable()) && |deleted| <= limit
        invariant items == Map(deleted, DeletedItem()) && ids == Ids(deleted)
        invariant rows == Filter(old(rows), NotIn(ids))
      {
        FilterPrefix(expired, Deletable(), k);
        if |items| >= limit {
          assert deleted == First(Filter(expired, Deletable()), limit);
          return;
        }
        var row := expired[k];
        TakeOneMore(expired, k);
        FilterOneMore(expired[..k], row, Deletable());
        if row.knownKind && row.provider == LOCAL_INLINE && row.inlineId == Some(row.id) {
          MapOneMore(deleted, row, DeletedItem());
          IdsOneMore(deleted, row);
          DropAnother(old(rows), rows, ids, row.id);
          items := items + [DeletedItem()(row)];
          ids := ids + {row.id};
          Delete(row.id);
          deleted := deleted + [row];
        }
      }
      TakeAll(expired);
    }

    /** The second pass: report the rows that only a lifecycle rule will remove. */
    static method ReportPass(expired: seq<StoredRow>, ids: set<string>, limit: nat) returns (items: seq<Item>)
      requires forall row <- expired :: row.id in ids ==> Deletable()(row)
      ensures items == Map(First(Filter(expired, Reportable()), limit), ReportedItem())
    {
      items := [];
      ghost var reported: seq<StoredRow> := [];
      for k := 0 to |expired|
        invariant reported == Filter(expired[..k], Reportable()) && |reported| <= limit
        invariant items == Map(reported, ReportedItem())
      {
        FilterPrefix(expired, Reportable(), k);
        if |items| >= limit {
          assert reported == First(Filter(expired, Reportable()), limit);
          return;
        }
        var row := expired[k];
        TakeOneMore(expired, k);
        FilterOneMore(expired[..k], row, Reportable());
        if row.id !in ids {
          if row.knownKind && !(row.provider == LOCAL_INLINE && row.inlineId == Some(row.id)) {
            MapOneMore(reported, row, ReportedItem());
            items := items + [ReportedItem()(row)];
            reported := reported + [row];
          }
        }
      }
      TakeAll(expired);
    }

    method CleanupExpiredArtifacts(before: Time, workspace: Option<string>, limit: nat) returns (items: seq<Item>)
      requires UniqueIds(rows)
      modifies this
      ensures items == Report(old(rows), before, workspace, limit)
      ensures rows == Remaining(old(rows), before, workspace, limit)
    {
      hide Sorted, Filter, Map;
      var expired := Query(rows, before, workspace);
      QueryIsUnique(rows, before, workspace);
      var deleted, ids := DeletePass(expired, limit);
      forall row <- expired | row.id in ids ensures Deletable()(row) {
        DeletedRowsAreDue(expired, limit, row);
      }
      var reported := ReportPass(expired, ids, limit);
      items := deleted + reported;
    }
  }

  // ---- ids stay unique ----

  ghost predicate UniqueIds(rows: seq<StoredRow>) {
    forall i, j :: 0 <= i < j < |rows| ==> rows[i].id != rows[j].id
  }

  lemma {:induction false} FilterIsUnique(rows: seq<StoredRow>, keep: StoredRow -> bool)
    requires UniqueIds(rows)
    ensures UniqueIds(Filter(rows, keep))
    decreases |rows|
  {
    if rows != [] {
      var init, last := rows[..|rows| - 1], rows[|rows| - 1];
      FilterIsUnique(init, keep);
      FilterKeeps(init, keep);
      var kept := Filter(init, keep);
      forall i | 0 <= i < |kept| ensures kept[i].id != last.id {
        assert kept[i] in init;
      }
    }
  }

  lemma {:induction false} InsertMeans(rows: seq<StoredRow>, row: StoredRow)
    ensures forall x :: x in Insert(rows, row) <==> x in rows || x == row
    ensures UniqueIds(rows) && (forall x <- rows :: x.id != row.id) ==> UniqueIds(Insert(rows, row))
    decreases |rows|
  {
    if !(rows == [] || !RowLess(row, rows[|rows| - 1])) {
      var init, last := rows[..|rows| - 1], rows[|rows| - 1];
      InsertMeans(init, row);
      assert rows == init + [last];
      var more := Insert(init, row);
      if UniqueIds(rows) && forall x <- rows :: x.id != row.id {
        forall i | 0 <= i < |more| ensures more[i].id != last.id {
          assert more[i] in more;
        }
      }
    }
  }

  lemma {:induction false} SortedMeans(rows: seq<StoredRow>)
    ensures forall x :: x in Sorted(rows) <==> x in rows
    ensures UniqueIds(rows) ==> UniqueIds(Sorted(rows))
    decreases |rows|
  {
    if rows != [] {
      var init, last := rows[..|rows| - 1], rows[|rows| - 1];
      SortedMeans(init);
      InsertMeans(Sorted(init), last);
      assert rows == init + [last];
    }
  }

  lemma QueryIsUnique(rows: seq<StoredRow>, before: Time, workspace: Option<string>)
    requires UniqueIds(rows)
    ensures UniqueIds(Query(rows, before, workspace))
  {
    FilterIsUnique(rows, IsExpired(before, workspace));
    SortedMeans(Filter(rows, IsExpired(before, workspace)));
  }

  lemma DeletedRowsAreDue(expired: seq<StoredRow>, limit: nat, row: StoredRow)
    requires UniqueIds(expired) && row in expired
    requires row.id in Ids(First(Filter(expired, Deletable()), limit))
    ensures Deletable()(row)
  {
    var due := Filter(expired, Deletable());
    FilterKeeps(expired, Deletable());
    var k :| 0 <= k < |First(due, limit)| && First(due, limit)[k].id == row.id;
    assert due[k] in due && due[k] in expired;
  }

  // ---- the query of the table that is left ----

  ghost predicate AllExpire(rows: seq<StoredRow>) {
    forall row <- rows :: row.expiresAt.Some?
  }

  ghost predicate InOrder(rows: seq<StoredRow>) {
    forall i, j :: 0 <= i < j < |rows| ==> !RowLess(rows[j], rows[i])
  }

  lemma NotLessThrough(a: StoredRow, b: StoredRow, c: StoredRow)
    requires a.expiresAt.Some? && b.expiresAt.Some? && c.expiresAt.Some?
    requires !RowLess(b, a) && !RowLess(c, b)
    ensures !RowLess(c, a)
  {
    if a.expiresAt == b.expiresAt == c.expiresAt {
      NotLessIsTransitive(a.id, b.id, c.id);
    }
  }

  lemma LessThenNotLess(a: StoredRow, b: StoredRow)
    requires RowLess(a, b)
    ensures !RowLess(b, a)
  {
    IdLessIsAsymmetric(a.id, b.id);
  }

  lemma {:induction false} InsertKeepsOrder(rows: seq<StoredRow>, row: StoredRow)
    requires InOrder(rows) && AllExpire(rows) && row.expiresAt.Some?
    ensures InOrder(Insert(rows, row)) && AllExpire(Insert(rows, row))
    decreases |rows|
  {
    InsertMeans(rows, row);
    if rows == [] {
    } else if !RowLess(row, rows[|rows| - 1]) {
      forall i | 0 <= i < |rows| ensures !RowLess(row, rows[i]) {
        if i < |rows| - 1 {
          NotLessThrough(rows[i], rows[|rows| - 1], row);
        }
      }
    } else {
      var init, last := rows[..|rows| - 1], rows[|rows| - 1];
      InsertKeepsOrder(init, row);
      InsertMeans(init, row);
      var more := Insert(init, row);
      LessThenNotLess(row, last);
      forall i | 0 <= i < |more| ensures !RowLess(last, more[i]) {
        assert more[i] in more;
      }
    }
  }

  /** The query answers in the order of expiry time and id. */
  lemma {:induction false} SortedIsInOrder(rows: seq<StoredRow>)
    requires AllExpire(rows)
    ensures InOrder(Sorted(rows)) && AllExpire(Sorted(rows))
    decreases |rows|
  {
    if rows != [] {
      SortedIsInOrder(rows[..|rows| - 1]);
      InsertKeepsOrder(Sorted(rows[..|rows| - 1]), rows[|rows| - 1]);
    }
  }

  lemma {:induction false} InsertAtEnd(rows: seq<StoredRow>, row: StoredRow)
    requires forall x <- rows :: !RowLess(row, x)
    ensures Insert(rows, row) == rows + [row]
  {
  }

  lemma {:induction false} FilterOfInsert(rows: seq<StoredRow>, row: StoredRow, keep: StoredRow -> bool)
    requires InOrder(rows) && AllExpire(rows) && row.expiresAt.Some?
    ensures Filter(Insert(rows, row), keep)
         == if keep(row) then Insert(Filter(rows, keep), row) else Filter(rows, keep)
    decreases |rows|
  {
    if rows == [] {
      FilterOneMore([], row, keep);
    } else if !RowLess(row, rows[|rows| - 1]) {
      FilterOneMore(rows, row, keep);
      FilterKeeps(rows, keep);
      forall i | 0 <= i < |rows| ensures !RowLess(row, rows[i]) {
        if i < |rows| - 1 {
          NotLessThrough(rows[i], rows[|rows| - 1], row);
        }
      }
      InsertAtEnd(Filter(rows, keep), row);
    } else {
      var init, last := rows[..|rows| - 1], rows[|rows| - 1];
      FilterOfInsert(init, row, keep);
      FilterOneMore(Insert(init, row), last, keep);
      var kept := Filter(init, keep);
      if keep(last) {
        assert (kept + [last])[..|kept|] == kept;
      }
    }
  }

  lemma {:induction false} FilterOfSorted(rows: seq<StoredRow>, keep: StoredRow -> bool)
    requires AllExpire(rows)
    ensures Filter(Sorted(rows), keep) == Sorted(Filter(rows, keep))
    decreases |rows|
  {
    if rows != [] {
      var init, last := rows[..|rows| - 1], rows[|rows| - 1];
      FilterOfSorted(init, keep);
      SortedIsInOrder(init);
      FilterOfInsert(Sorted(init), last, keep);
      if keep(last) {
        assert (Filter(init, keep) + [last])[..|Filter(init, keep)|] == Filter(init, keep);
      }
    }
  }

  /** Deleting rows deletes them from the query, and moves nothing in it. */
  lemma QueryOfRemaining(rows: seq<StoredRow>, keep: StoredRow -> bool, before: Time, workspace: Option<string>)
    ensures Query(Filter(rows, keep), before, workspace) == Filter(Query(rows, before, workspace), keep)
  {
    var expired := IsExpired(before, workspace);
    FilterTwice(rows, keep, expired);
    FilterKeeps(rows, expired);
    FilterOfSorted(Filter(rows, expired), keep);
  }

  lemma DropsItsPrefix(due: seq<StoredRow>, limit: nat)
    requires UniqueIds(due)
    ensures Filter(due, NotIn(Ids(First(due, limit)))) == due[|First(due, limit)|..]
  {
    var n := |First(due, limit)|;
    var ids := Ids(First(due, limit));
    forall i | 0 <= i < n ensures due[i].id in ids {
      assert First(due, limit)[i] == due[i];
    }
    FilterConcat(due[..n], due[n..], NotIn(ids));
    SplitAt(due, n);
    FilterNone(due[..n], NotIn(ids));
    FilterAll(due[n..], NotIn(ids));
    assert [] + due[n..] == due[n..];
  }

  lemma UnaffectedByIds(rows: seq<StoredRow>, due: seq<StoredRow>, limit: nat)
    requires forall row <- rows, d <- due :: row.id != d.id
    ensures Filter(rows, NotIn(Ids(First(due, limit)))) == rows
  {
    forall k | 0 <= k < |First(due, limit)| ensures First(due, limit)[k] in due {
      assert First(due, limit)[k] == due[k];
    }
    FilterAll(rows, NotIn(Ids(First(due, limit))));
  }

  /** Exactly the first deletable expired rows go, however many rows that cannot be deleted
      come before them; the others stay due, in order; and what can only be reported is
      reported again by the next call. */
  lemma CleanupAdvances(rows: seq<StoredRow>, before: Time, workspace: Option<string>, limit: nat)
    requires UniqueIds(rows)
    ensures var after := Remaining(rows, before, workspace, limit);
      var due := Due(rows, before, workspace);
      && UniqueIds(after)
      && Due(after, before, workspace) == due[|First(due, limit)|..]
      && Filter(Query(after, before, workspace), Reportable())
         == Filter(Query(rows, before, workspace), Reportable())
  {
    hide Insert, Sorted, Filter, Query, Ids, First;
    var query := Query(rows, before, workspace);
    var due := Due(rows, before, workspace);
    var keep := NotIn(Ids(First(due, limit)));
    FilterIsUnique(rows, keep);
    QueryIsUnique(rows, before, workspace);
    QueryOfRemaining(rows, keep, before, workspace);
    FilterTwice(query, keep, Deletable());
    FilterIsUnique(query, Deletable());
    DropsItsPrefix(due, limit);
    FilterTwice(query, keep, Reportable());
    ReportedIsNotDue(query);
    UnaffectedByIds(Filter(query, Reportable()), due, limit);
  }

  /** No row is both deletable and reported, so the two lists of a report share no row. */
  lemma ReportedIsNotDue(query: seq<StoredRow>)
    requires UniqueIds(query)
    ensures forall r <- Filter(query, Reportable()), d <- Filter(query, Deletable()) :: r.id != d.id
  {
    FilterKeeps(query, Reportable());
    FilterKeeps(query, Deletable());
    forall r <- Filter(query, Reportable()), d <- Filter(query, Deletable()) ensures r.id != d.id {
      var i :| 0 <= i < |query| && query[i] == r;
      var j :| 0 <= j < |query| && query[j] == d;
      assert i != j;
      assert query[i].id != query[j].id;
    }
  }

  /** What is left is what was there, without the deleted rows: rows that are not expired, that
      belong to another workspace, or that cannot be deleted all stay. */
  lemma OnlyDueRowsGo(rows: seq<StoredRow>, before: Time, workspace: Option<string>, limit: nat, row: StoredRow)
    requires UniqueIds(rows) && row in rows
    ensures row !in Remaining(rows, before, workspace, limit) ==>
      IsExpired(before, workspace)(row) && Deletable()(row)
    ensures forall r <- Remaining(rows, before, workspace, limit) :: r in rows
  {
    var due := Due(rows, before, workspace);
    var query := Query(rows, before, workspace);
    var ids := Ids(First(due, limit));
    FilterKeeps(rows, NotIn(ids));
    FilterKeeps(query, Deletable());
    FilterKeeps(rows, IsExpired(before, workspace));
    SortedMeans(Filter(rows, IsExpired(before, workspace)));
    if row.id in ids {
      var k :| 0 <= k < |First(due, limit)| && First(due, limit)[k].id == row.id;
      assert due[k] in due;
      var i :| 0 <= i < |rows| && rows[i] == due[k];
      var j :| 0 <= j < |rows| && rows[j] == row;
      assert i == j;
    }
  }

  /** The row has expired and belongs to the workspace, if one is named. */
  predicate Expires(row: StoredRow, before: Time, workspace: Option<string>) {
    row.expiresAt.Some? && row.expiresAt.value <= before && (workspace.None? || row.workspace == workspace.value)
  }

  /** The row is kept inline, under its own id, and is of a known kind. */
  predicate IsInline(row: StoredRow) {
    row.knownKind && row.provider == Some("local_inline") && row.inlineId == Some(row.id)
  }

  ghost predicate ByExpiry(rows: seq<StoredRow>) {
    && (forall row <- rows :: row.expiresAt.Some?)
    && (forall i, j :: 0 <= i < j < |rows| ==>
          !KeyLess(rows[j].expiresAt.value, rows[j].id, rows[i].expiresAt.value, rows[i].id))
  }

  lemma SelectionOfQuery(rows: seq<StoredRow>, before: Time, workspace: Option<string>, keep: StoredRow -> bool)
    ensures var selected := Filter(Query(rows, before, workspace), keep);
      && (forall row :: row in selected <==> row in rows && Expires(row, before, workspace) && keep(row))
      && ByExpiry(selected) && (UniqueIds(rows) ==> UniqueIds(selected))
  {
    var expired := Filter(rows, IsExpired(before, workspace));
    FilterKeeps(rows, IsExpired(before, workspace));
    SortedMeans(expired);
    FilterKeeps(Sorted(expired), keep);
    FilterOfSorted(expired, keep);
    FilterKeeps(expired, keep);
    SortedIsInOrder(Filter(expired, keep));
    if UniqueIds(rows) {
      QueryIsUnique(rows, before, workspace);
      FilterIsUnique(Query(rows, before, workspace), keep);
    }
  }

  /** The rows that a cleanup is about: it deletes the expired rows of the workspace that are kept
      inline, and only reports those of a known kind that are kept elsewhere; both in the order
      of expiry and id. */
  lemma DueExactly(rows: seq<StoredRow>, before: Time, workspace: Option<string>)
    requires UniqueIds(rows)
    ensures var due := Due(rows, before, workspace);
      && (forall row :: row in due <==> row in rows && Expires(row, before, workspace) && IsInline(row))
      && ByExpiry(due) && UniqueIds(due)
    ensures var others := Filter(Query(rows, before, workspace), Reportable());
      && (forall row :: row in others <==>
            row in rows && Expires(row, before, workspace) && row.knownKind && !IsInline(row))
      && ByExpiry(others) && UniqueIds(others)
  {
    SelectionOfQuery(rows, before, workspace, Deletable());
    SelectionOfQuery(rows, before, workspace, Reportable());
  }

  /** The report lists the deleted rows and then the others, each list up to the limit, with the
      action that was taken and the reason for it. */
  lemma ReportMeans(rows: seq<StoredRow>, before: Time, workspace: Option<string>, limit: nat, k: nat)
    ensures var due, others, report := Due(rows, before, workspace),
        Filter(Query(rows, before, workspace), Reportable()), Report(rows, before, workspace, limit);
      var deleted := if |due| <= limit then |due| else limit;
      && |report| == deleted + (if |others| <= limit then |others| else limit)
      && (k < deleted ==>
            && (report[k].row, report[k].run, report[k].provider) == (due[k].id, due[k].run, due[k].provider)
            && report[k].action == Deleted && report[k].reason == "local_inline_expired")
      && (deleted <= k < |report| ==>
            var row := others[k - deleted];
            && (report[k].row, report[k].run, report[k].provider) == (row.id, row.run, row.provider)
            && report[k].action == LifecycleOnly
            && report[k].reason == (if row.provider == Some("local_inline") then "local_inline_reference_mismatch"
                                    else "external_provider_cleanup_not_supported_by_api"))
  {
    hide Query, Filter, Due;
  }

  /** The table after a number of calls. */
  function AfterCalls(rows: seq<StoredRow>, before: Time, workspace: Option<string>, limit: nat, calls: nat)
    : seq<StoredRow>
  {
    if calls == 0 then rows
    else Remaining(AfterCalls(rows, before, workspace, limit, calls - 1), before, workspace, limit)
  }

  /** Cleanup never starves: each call deletes `limit` of the due rows while so many are left,
      so the calls that are needed to delete all are their number over the limit, rounded up. */
  lemma {:induction false} EveryDueRowGoes(
      rows: seq<StoredRow>, before: Time, workspace: Option<string>, limit: nat, calls: nat)
    requires UniqueIds(rows)
    ensures var due, after := Due(rows, before, workspace), AfterCalls(rows, before, workspace, limit, calls);
      && UniqueIds(after)
      && Due(after, before, workspace) == due[|First(due, calls * limit)|..]
      && (Due(after, before, workspace) == [] <==> |due| <= calls * limit)
    decreases calls
  {
    hide Remaining, Due;
    var due := Due(rows, before, workspace);
    if calls > 0 {
      EveryDueRowGoes(rows, before, workspace, limit, calls - 1);
      var last := AfterCalls(rows, before, workspace, limit, calls - 1);
      CleanupAdvances(last, before, workspace, limit);
      assert calls * limit == (calls - 1) * limit + limit;
      DropTwice(due, |First(due, (calls - 1) * limit)|, |First(Due(last, before, workspace), limit)|);
    }
  }

  lemma DropTwice<T>(rows: seq<T>, m: nat, n: nat)
    requires m + n <= |rows|
    ensures rows[m..][n..] == rows[m + n..]
  {
  }
}
