/** Windowed reads of the merged log of a cloud run (services/cloud_run_logs.py): the
    control-plane rows, then the lines of the log stream.
 */
module LogPaging {
  import opened Entities
  import opened Keys
  import opened Rows
  import opened IsoTime
  import opened LogCursor

  datatype LogRow = LogRow(createdAt: Time, id: string, event: string)

  /** The rows of one run in the order of the query, and the lines of its stream when the
      stream can be read. */
  datatype Log = Log(rows: seq<LogRow>, stream: Option<seq<string>>)

  datatype Entry =
    | ControlEntry(row: LogRow, sequence: nat)
    | StreamEntry(line: nat, text: string)

  datatype Window = Window(entries: seq<Entry>, nextCursor: Option<string>, hasMore: bool)

  datatype Reply = Page(window: Window) | InvalidCursor

  // ---- the order of the rows ----

  /** `ORDER BY created_at, id`; ids are unique, so the order is strict. */
  ghost predicate Ordered(rows: seq<LogRow>) {
    forall i, j :: 0 <= i < j < |rows| ==> KeyLess(rows[i].createdAt, rows[i].id, rows[j].createdAt, rows[j].id)
  }

  ghost predicate GoodLog(log: Log) {
    Ordered(log.rows) && forall row <- log.rows :: InRange(row.createdAt)
  }

  // ---- what a cursor leaves to read ----

  function Past(cursor: Option<Cursor>): LogRow -> bool {
    (row: LogRow) => match cursor
      case None => true
      case Some(ControlPlane(t, id)) => KeyLess(t, id, row.createdAt, row.id)
      case Some(LogStream(_)) => false
  }

  /** `enumerate`: the sequence number of a control-plane entry is its place on the page. */
  function Numbered(rows: seq<LogRow>): (entries: seq<Entry>)
    ensures |entries| == |rows|
  {
    seq(|rows|, k requires 0 <= k < |rows| => ControlEntry(rows[k], k))
  }

  function StartLine(cursor: Option<Cursor>): nat {
    if cursor.Some? && cursor.value.LogStream? && cursor.value.line.Some? then cursor.value.line.value else 0
  }

  function Lines(log: Log, includeStream: bool): seq<string> {
    if includeStream && log.stream.Some? then log.stream.value else []
  }

  function StreamEntries(lines: seq<string>, from: nat): seq<Entry> {
    if from >= |lines| then [] else seq(|lines| - from, k requires 0 <= k < |lines| - from =>
                                                          StreamEntry(from + k, lines[from + k]))
  }

  /** Everything that comes after a cursor: the reference that pages are compared with. */
  function Rest(log: Log, cursor: Option<Cursor>, includeStream: bool): seq<Entry> {
    Numbered(Filter(log.rows, Past(cursor))) + StreamEntries(Lines(log, includeStream), StartLine(cursor))
  }

  /** An entry without the number that depends on the page it is on. */
  datatype Item = Row(row: LogRow) | Line(number: nat, text: string)

  function ItemOf(e: Entry): Item {
    match e
    case ControlEntry(row, _) => Row(row)
    case StreamEntry(line, text) => Line(line, text)
  }

  function Items(entries: seq<Entry>): (items: seq<Item>)
    ensures |items| == |entries|
  {
    seq(|entries|, k requires 0 <= k < |entries| => ItemOf(entries[k]))
  }

  /** `_entry_cursor`: past a row, or before the line after a line. */
  function EntryPosition(e: Entry): Cursor {
    match e
    case ControlEntry(row, _) => ControlPlane(row.createdAt, row.id)
    case StreamEntry(line, _) => LogStream(Some(line + 1))
  }

  function Cut(entries: seq<Entry>, limit: nat): Window
    requires limit >= 1
  {
    if |entries| > limit then Window(entries[..limit], Some(EncodeCursor(EntryPosition(entries[limit - 1]))), true)
    else Window(entries, None, false)
  }

  function CursorFor(after: Option<string>): Option<Cursor>
    requires after.Some? ==> DecodeCursor(after.value).Some?
  {
    if after.Some? then DecodeCursor(after.value) else None
  }

  predicate Readable(after: Option<string>) {
    after.Some? ==> DecodeCursor(after.value).Some?
  }

  function PageOf(log: Log, after: Option<string>, limit: nat, includeStream: bool): Reply
    requires limit >= 1
  {
    if !Readable(after) then InvalidCursor
    else Page(Cut(Rest(log, CursorFor(after), includeStream), limit))
  }

  // ---- the window as it is read ----

  /** The control-plane query: at most `limit` of the rows past the cursor. */
  function ControlPlaneEntries(log: Log, cursor: Option<Cursor>, limit: nat): (entries: seq<Entry>)
    ensures |entries| <= limit
  {
    var rows := Filter(log.rows, Past(cursor));
    Numbered(Taken(rows, limit))
  }

  /** `entries[:n]` */
  function Taken<T>(s: seq<T>, n: nat): (t: seq<T>)
    ensures t <= s && |t| <= n
  {
    if |s| > n then s[..n] else s
  }

  lemma TakenOneMore<T>(s: seq<T>, n: nat)
    requires n < |s|
    ensures Taken(s, n + 1) == Taken(s, n) + [s[n]]
  {
  }

  lemma TakenAll<T>(s: seq<T>, n: nat)
    requires n >= |s|
    ensures Taken(s, n) == s
  {
  }

  lemma TakenNone<T>(s: seq<T>)
    ensures Taken(s, 0) == []
  {
  }

  method LogStreamEntries(log: Log, cursor: Option<Cursor>, limit: int) returns (entries: seq<Entry>)
    ensures entries ==
      if limit <= 0 then [] else Taken(StreamEntries(Lines(log, true), StartLine(cursor)), limit)
  {
    hide StreamEntries, StartLine, Taken;
    if limit <= 0 {
      return [];
    }
    var start := StartLine(cursor);
    if log.stream.None? {
      NoStreamEntries(start);
      TakenAll<Entry>([], limit);
      return [];
    }
    var lines := log.stream.value;
    ghost var all := StreamEntries(lines, start);
    StreamEntryAt(lines, start);
    TakenNone(all);
    entries := [];
    for number := 0 to |lines|
      invariant |entries| == (if number <= start then 0 else number - start) < limit
      invariant entries == Taken(all, |entries|)
    {
      if number >= start {
        TakenOneMore(all, number - start);
        entries := entries + [StreamEntry(number, lines[number])];
        if |entries| >= limit {
          return;
        }
      }
    }
    TakenAll(all, |entries|);
    TakenAll(all, limit);
  }

  lemma StreamEntryAt(lines: seq<string>, from: nat)
    ensures |StreamEntries(lines, from)| == if from >= |lines| then 0 else |lines| - from
    ensures forall k :: 0 <= k < |lines| - from ==>
      StreamEntries(lines, from)[k] == StreamEntry(from + k, lines[from + k])
  {
  }

  /** Reading one entry more than the page holds is enough to cut the page. */
  lemma CutOfTaken(entries: seq<Entry>, limit: nat)
    requires limit >= 1
    ensures Cut(Taken(entries, limit + 1), limit) == Cut(entries, limit)
  {
    hide EncodeCursor, EntryPosition;
    if |entries| > limit {
      TakeOfTake(entries, limit);
    }
  }

  lemma FirstEntries(log: Log, cursor: Option<Cursor>, includeStream: bool, n: nat)
    ensures var head := ControlPlaneEntries(log, cursor, n);
      Taken(Rest(log, cursor, includeStream), n) ==
        if includeStream && |head| < n then head + Taken(StreamEntries(Lines(log, true), StartLine(cursor)), n - |head|)
        else head
  {
    hide StreamEntries, Filter, Past;
    NoStreamEntries(StartLine(cursor));
  }

  /** The log after the optional synchronisation, which replaces the stream when the provider
      has new lines. A cursor that cannot be read is refused before. */
  function Synced(log: Log, after: Option<string>, sync: bool, fetched: Option<seq<string>>): Log {
    if Readable(after) && sync && fetched.Some? then log.(stream := fetched) else log
  }

  method ListCloudRunLogWindow(
      log: Log, after: Option<string>, limit: nat, includeStream: bool, syncStream: bool,
      fetched: Option<seq<string>>)
    returns (reply: Reply, current: Log)
    requires limit >= 1
    ensures current == Synced(log, after, includeStream && syncStream, fetched)
    ensures reply == PageOf(current, after, limit, includeStream)
  {
    hide DecodeCursor, EncodeCursor, EntryPosition, StreamEntries, ControlPlaneEntries, Rest, Lines, StartLine, Taken;
    current := log;
    var cursor: Option<Cursor> := None;
    if after.Some? {
      cursor := DecodeCursor(after.value);
      if cursor.None? {
        return InvalidCursor, current;
      }
    }
    if includeStream && syncStream {
      if fetched.Some? {
        current := current.(stream := fetched);
      }
    }
    var entries := ControlPlaneEntries(current, cursor, limit + 1);
    FirstEntries(current, cursor, includeStream, limit + 1);
    if includeStream && |entries| <= limit {
      var more := LogStreamEntries(current, cursor, limit + 1 - |entries|);
      entries := entries + more;
    }
    CutOfTaken(Rest(current, cursor, includeStream), limit);
    if |entries| > limit {
      return Page(Window(entries[..limit], Some(EncodeCursor(EntryPosition(entries[limit - 1]))), true)), current;
    }
    return Page(Window(entries, None, false)), current;
  }

  lemma NoStreamEntries(from: nat)
    ensures StreamEntries([], from) == []
  {
  }

  // ---- the cursor of an entry leaves exactly what follows it ----

  lemma FilterSplit(a: seq<LogRow>, b: seq<LogRow>, keep: LogRow -> bool)
    requires (forall row <- a :: !keep(row)) && (forall row <- b :: keep(row))
    ensures Filter(a + b, keep) == b
  {
    FilterNone(a, keep);
    FilterAll(b, keep);
    FilterConcat(a, b, keep);
    assert [] + b == b;
  }

  /** Keeping the rows past the key of row `k` keeps the rows after row `k`. */
  lemma PastRow(rows: seq<LogRow>, k: nat)
    requires Ordered(rows) && k < |rows|
    ensures Filter(rows, Past(Some(ControlPlane(rows[k].createdAt, rows[k].id)))) == rows[k + 1..]
  {
    KeysSplit(rows, k);
    FilterSplit(rows[..k + 1], rows[k + 1..], Past(Some(ControlPlane(rows[k].createdAt, rows[k].id))));
    SplitAt(rows, k + 1);
  }

  lemma KeysSplit(rows: seq<LogRow>, k: nat)
    requires Ordered(rows) && k < |rows|
    ensures var keep := Past(Some(ControlPlane(rows[k].createdAt, rows[k].id)));
      (forall row <- rows[..k + 1] :: !keep(row)) && (forall row <- rows[k + 1..] :: keep(row))
  {
    hide IdLess;
    forall j | 0 <= j <= k ensures !KeyLess(rows[k].createdAt, rows[k].id, rows[j].createdAt, rows[j].id) {
      IdLessIsAsymmetric(rows[k].id, rows[j].id);
    }
  }

  /** A cursor leaves a tail of the rows, in order. */
  ghost predicate Tail(rows: seq<LogRow>, from: nat, kept: seq<LogRow>) {
    from <= |rows| && kept == rows[from..]
  }

  lemma LaterIsPast(cursor: Option<Cursor>, a: LogRow, b: LogRow)
    requires Past(cursor)(a) && KeyLess(a.createdAt, a.id, b.createdAt, b.id)
    ensures Past(cursor)(b)
  {
    if cursor.Some? && cursor.value.createdAt == a.createdAt == b.createdAt {
      IdLessIsTransitive(cursor.value.id, a.id, b.id);
    }
  }

  lemma KeptStayKept(rows: seq<LogRow>, cursor: Option<Cursor>, from: nat)
    requires Ordered(rows) && from < |rows| - 1
    requires Filter(rows[..|rows| - 1], Past(cursor)) == rows[..|rows| - 1][from..]
    ensures Past(cursor)(rows[|rows| - 1])
  {
    hide Past, KeyLess, Filter;
    var init := rows[..|rows| - 1];
    FilterKeeps(init, Past(cursor));
    assert init[from] == init[from..][0];
    assert init[from] == rows[from];
    LaterIsPast(cursor, rows[from], rows[|rows| - 1]);
  }

  lemma {:induction false} PastIsTail(rows: seq<LogRow>, cursor: Option<Cursor>) returns (from: nat)
    requires Ordered(rows)
    ensures Tail(rows, from, Filter(rows, Past(cursor)))
    decreases |rows|
  {
    hide Past, KeyLess;
    if rows == [] {
      from := 0;
    } else {
      from := PastIsTail(rows[..|rows| - 1], cursor);
      if from < |rows| - 1 {
        KeptStayKept(rows, cursor, from);
      }
      if Past(cursor)(rows[|rows| - 1]) {
        DropOneMore(rows, from);
      } else {
        from := |rows|;
      }
    }
  }

  lemma CursorOfRow(log: Log, cursor: Option<Cursor>, includeStream: bool, k: nat)
    requires GoodLog(log) && k < |Filter(log.rows, Past(cursor))|
    ensures var rest := Rest(log, cursor, includeStream);
      && Printable(EntryPosition(rest[k]))
      && Items(Rest(log, Some(EntryPosition(rest[k])), includeStream)) == Items(rest)[k + 1..]
  {
    hide KeyLess, StreamEntries, Items, InRange, Filter, Ordered;
    var from := PastIsTail(log.rows, cursor);
    var kept := log.rows[from..];
    FilterKeeps(log.rows, Past(cursor));
    assert kept[k] in kept;
    assert kept[k] == log.rows[from + k] && kept[k] in log.rows;
    PastRow(log.rows, from + k);
    assert log.rows[from + k + 1..] == kept[k + 1..];
    var rest := Rest(log, cursor, includeStream);
    assert rest[k] == ControlEntry(kept[k], k);
    ItemsOfTail(kept, k + 1, StreamEntries(Lines(log, includeStream), 0));
  }

  lemma ItemsOfTail(kept: seq<LogRow>, k: nat, stream: seq<Entry>)
    requires k <= |kept|
    ensures Items(Numbered(kept[k..]) + stream) == Items(Numbered(kept) + stream)[k..]
  {
  }

  lemma CursorOfLine(log: Log, cursor: Option<Cursor>, includeStream: bool, k: nat)
    requires |Filter(log.rows, Past(cursor))| <= k < |Rest(log, cursor, includeStream)|
    ensures var rest := Rest(log, cursor, includeStream);
      && Printable(EntryPosition(rest[k]))
      && Items(Rest(log, Some(EntryPosition(rest[k])), includeStream)) == Items(rest)[k + 1..]
  {
    hide Items, Filter;
    var rest := Rest(log, cursor, includeStream);
    var head, lines, start := Numbered(Filter(log.rows, Past(cursor))), Lines(log, includeStream), StartLine(cursor);
    var number := start + k - |head|;
    assert rest[k] == StreamEntry(number, lines[number]);
    var here := Some(EntryPosition(rest[k]));
    FilterNone(log.rows, Past(here));
    assert Rest(log, here, includeStream) == StreamEntries(lines, number + 1);
    StreamTail(lines, start, k - |head| + 1);
    DropPast(head, StreamEntries(lines, start), k + 1);
    ItemsTail(rest, k + 1);
  }

  lemma StreamTail(lines: seq<string>, start: nat, k: nat)
    requires k <= |StreamEntries(lines, start)|
    ensures StreamEntries(lines, start)[k..] == StreamEntries(lines, start + k)
  {
    var all, tail := StreamEntries(lines, start), StreamEntries(lines, start + k);
    assert |all[k..]| == |tail|;
    forall j | 0 <= j < |tail| ensures all[k..][j] == tail[j] {
      assert all[k..][j] == all[k + j];
    }
  }

  lemma DropPast(a: seq<Entry>, b: seq<Entry>, k: nat)
    requires |a| <= k <= |a + b|
    ensures (a + b)[k..] == b[k - |a|..]
  {
  }

  lemma ItemsTail(entries: seq<Entry>, k: nat)
    requires k <= |entries|
    ensures Items(entries[k..]) == Items(entries)[k..]
    ensures Items(entries[..k]) == Items(entries)[..k]
  {
  }

  lemma ItemsConcat(a: seq<Entry>, b: seq<Entry>)
    ensures Items(a + b) == Items(a) + Items(b)
  {
  }

  /** The position of an entry of the rest leaves exactly the entries after it. */
  lemma CursorOfEntry(log: Log, cursor: Option<Cursor>, includeStream: bool, k: nat)
    requires GoodLog(log) && k < |Rest(log, cursor, includeStream)|
    ensures var rest := Rest(log, cursor, includeStream);
      && Printable(EntryPosition(rest[k]))
      && Items(Rest(log, Some(EntryPosition(rest[k])), includeStream)) == Items(rest)[k + 1..]
  {
    hide Rest, GoodLog, EntryPosition;
    if k < |Filter(log.rows, Past(cursor))| {
      CursorOfRow(log, cursor, includeStream, k);
    } else {
      CursorOfLine(log, cursor, includeStream, k);
    }
  }

  // ---- following the cursors ----

  /** What a client collects that follows `next_cursor` from page to page. */
  function Collect(log: Log, after: Option<string>, limit: nat, includeStream: bool): seq<Entry>
    requires GoodLog(log) && limit >= 1 && Readable(after)
    decreases |Rest(log, CursorFor(after), includeStream)|
  {
    var window := PageOf(log, after, limit, includeStream).window;
    if !window.hasMore then window.entries
    else
      NextPage(log, after, limit, includeStream);
      window.entries + Collect(log, window.nextCursor, limit, includeStream)
  }

  lemma NextPage(log: Log, after: Option<string>, limit: nat, includeStream: bool)
    requires GoodLog(log) && limit >= 1 && Readable(after)
    requires PageOf(log, after, limit, includeStream).window.hasMore
    ensures var next := PageOf(log, after, limit, includeStream).window.nextCursor;
      var rest := Rest(log, CursorFor(after), includeStream);
      && next.Some? && Readable(next) && |rest| > limit
      && Items(Rest(log, CursorFor(next), includeStream)) == Items(rest)[limit..]
      && |Rest(log, CursorFor(next), includeStream)| == |rest| - limit
  {
    hide Rest, DecodeCursor, EncodeCursor, Items;
    var rest := Rest(log, CursorFor(after), includeStream);
    CursorOfEntry(log, CursorFor(after), includeStream, limit - 1);
    CursorReadsBack(EntryPosition(rest[limit - 1]));
  }

  /** Paging refines the full listing. Over an unchanged log, a client that follows the
      cursors from any position collects every entry after it, in order, once: from the start
      that is every control-plane row and then every line of the stream. */
  lemma {:induction false} PagingIsFullListing(log: Log, after: Option<string>, limit: nat, includeStream: bool)
    requires GoodLog(log) && limit >= 1 && Readable(after)
    ensures Items(Collect(log, after, limit, includeStream)) == Items(Rest(log, CursorFor(after), includeStream))
    decreases |Rest(log, CursorFor(after), includeStream)|
  {
    hide Rest, DecodeCursor, EncodeCursor, Items;
    var rest := Rest(log, CursorFor(after), includeStream);
    var window := PageOf(log, after, limit, includeStream).window;
    if window.hasMore {
      NextPage(log, after, limit, includeStream);
      PagingIsFullListing(log, window.nextCursor, limit, includeStream);
      ItemsConcat(window.entries, Collect(log, window.nextCursor, limit, includeStream));
      ItemsTail(rest, limit);
      SplitAt(Items(rest), limit);
    }
  }

  /** The full listing from the start, spelled out. */
  lemma FromTheStart(log: Log, includeStream: bool)
    ensures var rest := Rest(log, None, includeStream);
      var lines := if includeStream && log.stream.Some? then log.stream.value else [];
      && |rest| == |log.rows| + |lines|
      && (forall k :: 0 <= k < |log.rows| ==> Items(rest)[k] == Row(log.rows[k]))
      && (forall k :: 0 <= k < |lines| ==> Items(rest)[|log.rows| + k] == Line(k, lines[k]))
  {
    FilterAll(log.rows, Past(None));
    assert Lines(log, includeStream) == if includeStream && log.stream.Some? then log.stream.value else [];
  }

  /** has_more is true exactly when entries remain after the page, and then the page is full
      and its cursor can be read; otherwise there is no cursor. */
  lemma HasMoreIsExact(log: Log, after: Option<string>, limit: nat, includeStream: bool)
    requires GoodLog(log) && limit >= 1 && Readable(after)
    ensures var window := PageOf(log, after, limit, includeStream).window;
      && (window.hasMore <==> |window.entries| < |Rest(log, CursorFor(after), includeStream)|)
      && (window.hasMore ==> |window.entries| == limit && window.nextCursor.Some? && Readable(window.nextCursor))
      && (!window.hasMore ==> window.nextCursor.None?)
  {
    hide Rest, DecodeCursor, EncodeCursor;
    if PageOf(log, after, limit, includeStream).window.hasMore {
      NextPage(log, after, limit, includeStream);
    }
  }

  /** How many pages a client reads. */
  function PageCount(log: Log, after: Option<string>, limit: nat, includeStream: bool): (n: nat)
    requires GoodLog(log) && limit >= 1 && Readable(after)
    decreases |Rest(log, CursorFor(after), includeStream)|
  {
    var window := PageOf(log, after, limit, includeStream).window;
    if !window.hasMore then 1
    else
      NextPage(log, after, limit, includeStream);
      1 + PageCount(log, window.nextCursor, limit, includeStream)
  }

  /** Paging ends after as many pages as the entries need, and never on an empty extra page. */
  lemma {:induction false} PagesAreFull(log: Log, after: Option<string>, limit: nat, includeStream: bool)
    requires GoodLog(log) && limit >= 1 && Readable(after)
    ensures var n, pages := |Rest(log, CursorFor(after), includeStream)|, PageCount(log, after, limit, includeStream);
      && n <= pages * limit
      && (n > 0 ==> (pages - 1) * limit < n) && (n == 0 ==> pages == 1)
    decreases |Rest(log, CursorFor(after), includeStream)|
  {
    hide Rest, DecodeCursor, EncodeCursor, Items;
    var window := PageOf(log, after, limit, includeStream).window;
    if window.hasMore {
      NextPage(log, after, limit, includeStream);
      PagesAreFull(log, window.nextCursor, limit, includeStream);
      var pages := PageCount(log, window.nextCursor, limit, includeStream);
      assert (1 + pages) * limit == limit + pages * limit && pages * limit == (pages - 1) * limit + limit;
    }
  }

  // ---- a log that grows between two pages ----

  ghost predicate Grows(log: Log, more: Log) {
    log.rows <= more.rows && Lines(log, true) <= Lines(more, true)
  }

  lemma KeptGrow(rows: seq<LogRow>, more: seq<LogRow>, keep: LogRow -> bool)
    requires rows <= more
    ensures Filter(rows, keep) <= Filter(more, keep)
  {
    assert more == rows + more[|rows|..];
    FilterConcat(rows, more[|rows|..], keep);
  }

  /** Until a row is added past the cursor, or else as long as the page ends before it, an entry
      of the page keeps its place in the grown listing. */
  lemma PlacesStay(log: Log, more: Log, cursor: Option<Cursor>, includeStream: bool, k: nat)
    requires Grows(log, more) && k < |Rest(log, cursor, includeStream)|
    requires k < |Filter(log.rows, Past(cursor))| || SameRows(log, more, cursor)
    ensures var rest, grown := Rest(log, cursor, includeStream), Rest(more, cursor, includeStream);
      k < |grown| && rest[k] == grown[k]
  {
    KeptGrow(log.rows, more.rows, Past(cursor));
  }

  /** No row was added past the cursor. */
  predicate SameRows(log: Log, more: Log, cursor: Option<Cursor>) {
    Filter(log.rows, Past(cursor)) == Filter(more.rows, Past(cursor))
  }

  lemma PageStays(log: Log, more: Log, cursor: Option<Cursor>, limit: nat, includeStream: bool)
    requires Grows(log, more) && limit < |Rest(log, cursor, includeStream)|
    requires limit <= |Filter(log.rows, Past(cursor))| || SameRows(log, more, cursor)
    ensures var rest, grown := Rest(log, cursor, includeStream), Rest(more, cursor, includeStream);
      limit <= |grown| && rest[..limit] == grown[..limit]
  {
    hide Rest, SameRows;
    var rest, grown := Rest(log, cursor, includeStream), Rest(more, cursor, includeStream);
    forall k | 0 <= k < limit ensures k < |grown| && rest[k] == grown[k] {
      PlacesStay(log, more, cursor, includeStream, k);
    }
    if limit > 0 {
      PlacesStay(log, more, cursor, includeStream, limit - 1);
    }
  }

  /** The page of the log, followed by what its cursor leaves of the grown log. */
  function Followed(log: Log, more: Log, cursor: Option<Cursor>, limit: nat, includeStream: bool): seq<Item>
    requires 1 <= limit < |Rest(log, cursor, includeStream)|
  {
    var rest := Rest(log, cursor, includeStream);
    Items(rest[..limit]) + Items(Rest(more, Some(EntryPosition(rest[limit - 1])), includeStream))
  }

  lemma NothingIsMissed(log: Log, more: Log, cursor: Option<Cursor>, limit: nat, includeStream: bool)
    requires GoodLog(more) && Grows(log, more) && 1 <= limit < |Rest(log, cursor, includeStream)|
    requires limit <= |Filter(log.rows, Past(cursor))| || SameRows(log, more, cursor)
    ensures Followed(log, more, cursor, limit, includeStream) == Items(Rest(more, cursor, includeStream))
  {
    hide Rest, SameRows, Items, GoodLog;
    var grown := Rest(more, cursor, includeStream);
    PageStays(log, more, cursor, limit, includeStream);
    assert Rest(log, cursor, includeStream)[limit - 1] == grown[..limit][limit - 1];
    CursorOfEntry(more, cursor, includeStream, limit - 1);
    ItemsTail(grown, limit);
    SplitAt(Items(grown), limit);
  }

  /** A page that ends in the stream leaves a cursor that passes over every row. */
  lemma AddedRowsAreMissed(log: Log, more: Log, cursor: Option<Cursor>, limit: nat, includeStream: bool)
    requires Grows(log, more) && 1 <= limit < |Rest(log, cursor, includeStream)|
    requires limit > |Filter(log.rows, Past(cursor))| && !SameRows(log, more, cursor)
    ensures |Followed(log, more, cursor, limit, includeStream)| < |Rest(more, cursor, includeStream)|
  {
    KeptGrow(log.rows, more.rows, Past(cursor));
    var rest := Rest(log, cursor, includeStream);
    FilterNone(more.rows, Past(Some(EntryPosition(rest[limit - 1]))));
  }

  /** Following a log that grows. Rows and lines may be appended between two pages, as a
      synchronisation of the stream and a run at work do. The page, and then what its cursor
      leaves, is the whole of the grown listing exactly when the page ends among the rows or no
      row was added: a row that is written once the client reads the stream is never shown. */
  lemma GrowingLogIsFollowed(log: Log, more: Log, after: Option<string>, limit: nat, includeStream: bool)
    requires GoodLog(log) && GoodLog(more) && Grows(log, more) && limit >= 1 && Readable(after)
    requires PageOf(log, after, limit, includeStream).window.hasMore
    ensures var window, cursor := PageOf(log, after, limit, includeStream).window, CursorFor(after);
      && window.nextCursor.Some? && Readable(window.nextCursor) && |window.entries| == limit
      && (Items(window.entries) + Items(Rest(more, CursorFor(window.nextCursor), includeStream))
            == Items(Rest(more, cursor, includeStream))
          <==> window.entries[limit - 1].ControlEntry? || SameRows(log, more, cursor))
  {
    hide DecodeCursor, Items, SameRows, Grows, GoodLog, PageOf, Rest;
    var cursor := CursorFor(after);
    PageShows(log, after, limit, includeStream);
    if limit <= |Filter(log.rows, Past(cursor))| || SameRows(log, more, cursor) {
      NothingIsMissed(log, more, cursor, limit, includeStream);
    } else {
      AddedRowsAreMissed(log, more, cursor, limit, includeStream);
    }
  }

  /** A page with a cursor shows the first entries, and its cursor is read back as the position of
      the last of them. */
  lemma PageShows(log: Log, after: Option<string>, limit: nat, includeStream: bool)
    requires GoodLog(log) && limit >= 1 && Readable(after)
    requires PageOf(log, after, limit, includeStream).window.hasMore
    ensures var window := PageOf(log, after, limit, includeStream).window;
      var rest := Rest(log, CursorFor(after), includeStream);
      && |rest| > limit && window.entries == rest[..limit]
      && window.nextCursor.Some? && Readable(window.nextCursor)
      && CursorFor(window.nextCursor) == Some(EntryPosition(rest[limit - 1]))
      && (window.entries[limit - 1].ControlEntry? <==> limit <= |Filter(log.rows, Past(CursorFor(after)))|)
  {
    hide DecodeCursor, EncodeCursor, Items, GoodLog;
    var rest := Rest(log, CursorFor(after), includeStream);
    CursorOfEntry(log, CursorFor(after), includeStream, limit - 1);
    CursorReadsBack(EntryPosition(rest[limit - 1]));
  }

  /** A synchronised read shows the fresh lines: from the start, the listing is every row and then
      every line that was fetched, and nothing of the stream before. A read that does not ask
      for it, and one whose cursor cannot be read, leaves the stream alone. */
  lemma FreshLinesAreShown(log: Log, after: Option<string>, lines: seq<string>)
    ensures var current := Synced(log, None, true, Some(lines));
      var rest := Rest(current, None, true);
      && current.rows == log.rows && |rest| == |log.rows| + |lines|
      && (forall k :: 0 <= k < |log.rows| ==> Items(rest)[k] == Row(log.rows[k]))
      && (forall k :: 0 <= k < |lines| ==> Items(rest)[|log.rows| + k] == Line(k, lines[k]))
    ensures Synced(log, after, false, Some(lines)) == log
    ensures !Readable(after) ==> Synced(log, after, true, Some(lines)) == log
  {
    FromTheStart(Synced(log, None, true, Some(lines)), true);
  }
}
