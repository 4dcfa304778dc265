/** The opaque cursor of services/cloud_run_logs.py: a position in the merged log, printed as
    a sorted-key JSON object in unpadded URL-safe base64.
 */
module LogCursor {
  import opened Entities
  import opened Base64
  import opened Json
  import opened IsoTime

  datatype Cursor =
    | ControlPlane(createdAt: Time, id: string)
    | LogStream(line: Option<nat>)

  /** The dictionary handed to `_encode_cursor`, its keys in sorted order. */
  function Payload(cursor: Cursor): seq<Field> {
    match cursor
    case ControlPlane(createdAt, id) =>
      [Field("created_at", Str(PrintTime(createdAt))), Field("id", Str(id)),
       Field("source", Str("control_plane")), Field("stream_line", Null)]
    case LogStream(line) =>
      [Field("created_at", Null), Field("id", Null), Field("source", Str("log_stream")),
       Field("stream_line", if line.Some? then Num(line.value) else Null)]
  }

  function CharByte(text: string, k: nat): (b: Byte)
    requires Ascii(text) && k < |text|
  {
    assert text[k] in text;
    text[k] as nat
  }

  function ToBytes(text: string): (bytes: seq<Byte>)
    requires Ascii(text)
    ensures |bytes| == |text|
  {
    seq(|text|, k requires 0 <= k < |text| => CharByte(text, k))
  }

  /** A payload with bytes beyond ASCII is not read by this model. */
  function FromBytes(bytes: seq<Byte>): Option<string> {
    if exists k :: 0 <= k < |bytes| && bytes[k] >= 128 then None
    else Some(seq(|bytes|, k requires 0 <= k < |bytes| => bytes[k] as char))
  }

  function EncodeCursor(cursor: Cursor): string {
    ObjectIsAscii(Payload(cursor));
    Strip(Encode(ToBytes(PrintObject(Payload(cursor)))))
  }

  /** `_cursor_from_payload`. A JSON `true` is an int of the source, equal to one. */
  function CursorOf(fields: seq<Field>): Option<Cursor> {
    var source, createdAt := Get(fields, "source"), Get(fields, "created_at");
    var id, line := Get(fields, "id"), Get(fields, "stream_line");
    if source == Str("control_plane") then
      if !createdAt.Str? || !id.Str? || ReadTime(createdAt.text).None? then None
      else Some(ControlPlane(ReadTime(createdAt.text).value, id.text))
    else if source == Str("log_stream") then
      match line
      case Null => Some(LogStream(None))
      case Num(value) => if value < 0 then None else Some(LogStream(Some(value)))
      case Bool(truth) => Some(LogStream(Some(if truth then 1 else 0)))
      case Str(_) => None
    else None
  }

  /** `_decode_cursor`: every failure is the same 400. */
  function DecodeCursor(after: string): Option<Cursor> {
    if after == [] || exists c <- after :: !InAlphabet(c) then None
    else
      match Decode(Pad(after))
      case None => None
      case Some(bytes) =>
        match FromBytes(bytes)
        case None => None
        case Some(text) =>
          match ReadObject(text)
          case None => None
          case Some(fields) => CursorOf(fields)
  }

  /** Which objects are cursors of the stream: those whose line is missing, is not negative, or is
      a truth value, which counts as one or zero. */
  lemma StreamCursors(fields: seq<Field>)
    requires Get(fields, "source") == Str("log_stream")
    ensures var line := Get(fields, "stream_line");
      && (CursorOf(fields).None? <==> line.Str? || (line.Num? && line.value < 0))
      && (line.Null? ==> CursorOf(fields) == Some(LogStream(None)))
      && (line.Num? && line.value >= 0 ==> CursorOf(fields) == Some(LogStream(Some(line.value))))
      && (line.Bool? ==> CursorOf(fields) == Some(LogStream(Some(if line.truth then 1 else 0))))
  {
  }

  predicate Printable(cursor: Cursor) {
    cursor.ControlPlane? ==> InRange(cursor.createdAt)
  }

  lemma AsciiReadsBack(text: string)
    requires Ascii(text)
    ensures FromBytes(ToBytes(text)) == Some(text)
  {
    var bytes := ToBytes(text);
    forall k | 0 <= k < |bytes| ensures bytes[k] < 128 && bytes[k] as char == text[k] {
      assert text[k] in text;
    }
    var read := FromBytes(bytes);
    assert read.Some? && read.value == text;
  }

  lemma GetOfFour(a: Field, b: Field, c: Field, d: Field)
    requires a.key == "created_at" && b.key == "id" && c.key == "source" && d.key == "stream_line"
    ensures Get([a, b, c, d], "created_at") == a.value && Get([a, b, c, d], "id") == b.value
    ensures Get([a, b, c, d], "source") == c.value && Get([a, b, c, d], "stream_line") == d.value
  {
    assert |"created_at"| == 10 && |"id"| == 2 && |"source"| == 6 && |"stream_line"| == 11;
    assert [a, b, c, d][..3] == [a, b, c] && [a, b, c][..2] == [a, b] && [a, b][..1] == [a];
    assert Get([a], "created_at") == a.value;
    assert Get([a, b], "created_at") == a.value && Get([a, b], "id") == b.value;
    assert Get([a, b, c], "created_at") == a.value && Get([a, b, c], "id") == b.value;
  }

  lemma PayloadReadsBack(cursor: Cursor)
    requires Printable(cursor)
    ensures CursorOf(Payload(cursor)) == Some(cursor)
  {
    hide PrintTime, ReadTime, Get;
    var fields := Payload(cursor);
    GetOfFour(fields[0], fields[1], fields[2], fields[3]);
    assert Str("control_plane") != Str("log_stream") by {
      assert "control_plane"[0] != "log_stream"[0];
    }
    if cursor.ControlPlane? {
      TimeReadsBack(cursor.createdAt);
    }
  }

  /** Round trip: decoding the cursor printed for a position gives back that position, for
      payloads of every length, the stripped padding restored from the length. */
  lemma CursorReadsBack(cursor: Cursor)
    requires Printable(cursor)
    ensures DecodeCursor(EncodeCursor(cursor)) == Some(cursor)
  {
    hide Payload, CursorOf, PrintObject, ReadObject, Encode, Decode, Strip, Pad, ToBytes, FromBytes;
    var fields := Payload(cursor);
    var text := PrintObject(fields);
    ObjectIsAscii(fields);
    PayloadHasFields(cursor);
    var bytes := ToBytes(text);
    TextIsNotEmpty(fields);
    PadInvertsStrip(bytes);
    DecodeInvertsEncode(bytes);
    AsciiReadsBack(text);
    ObjectReadsBack(fields);
    PayloadReadsBack(cursor);
  }

  lemma PayloadHasFields(cursor: Cursor)
    ensures Payload(cursor) != []
  {
  }

  lemma TextIsNotEmpty(fields: seq<Field>)
    ensures PrintObject(fields) != []
  {
  }

  /** Distinct positions have distinct cursors. */
  lemma CursorsAreDistinct(a: Cursor, b: Cursor)
    requires Printable(a) && Printable(b) && EncodeCursor(a) == EncodeCursor(b)
    ensures a == b
  {
    hide EncodeCursor, DecodeCursor;
    CursorReadsBack(a);
    CursorReadsBack(b);
  }
}
