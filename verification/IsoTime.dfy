/** Datetimes as `isoformat` prints them and `fromisoformat` reads that form back. */
module IsoTime {
  import opened Entities
  import opened Calendar
  import opened Text

  const MINUTE: nat := 60 * SECOND
  const HOUR: nat := 60 * MINUTE

  // ---- zero-padded numbers ----

  function Pow10(n: nat): nat {
    if n == 0 then 1 else 10 * Pow10(n - 1)
  }

  function Fixed(n: nat, width: nat): (s: string)
    ensures |s| == width && AllDigits(s)
  {
    if width == 0 then []
    else
      assert DIGITS[n % 10] in DIGITS;
      Fixed(n / 10, width - 1) + [DIGITS[n % 10]]
  }

  lemma {:induction false} FixedReadsBack(n: nat, width: nat)
    requires n < Pow10(width)
    ensures DecimalValue(Fixed(n, width)) == n
    decreases width
  {
    if width > 0 {
      var s := Fixed(n, width);
      assert s[..|s| - 1] == Fixed(n / 10, width - 1);
      FixedReadsBack(n / 10, width - 1);
    }
  }

  /** The number printed in `width` digits at a position of a text. */
  function NumberAt(s: string, from: nat, width: nat): Option<nat> {
    if from + width <= |s| && AllDigits(s[from..from + width]) then Some(DecimalValue(s[from..from + width])) else None
  }

  lemma NumberReadsBack(before: string, n: nat, width: nat, after: string)
    requires n < Pow10(width)
    ensures NumberAt(before + Fixed(n, width) + after, |before|, width) == Some(n)
  {
    var s := before + Fixed(n, width) + after;
    assert s[|before|..|before| + width] == Fixed(n, width);
    FixedReadsBack(n, width);
  }

  // ---- the parts of an instant ----

  datatype Parts = Parts(year: nat, month: nat, day: nat, hour: nat, minute: nat, second: nat, micro: nat)

  predicate Proper(p: Parts) {
    && 1 <= p.year <= 9999 && 1 <= p.month <= 12
    && 1 <= p.day <= DaysIn(12 * p.year + p.month - 1)
    && p.hour < 24 && p.minute < 60 && p.second < 60 && p.micro < SECOND
  }

  function ClockOf(p: Parts): nat {
    p.hour * HOUR + p.minute * MINUTE + p.second * SECOND + p.micro
  }

  function TimeOf(p: Parts): Time
    requires Proper(p)
  {
    var days: nat := p.day - 1;
    MonthStart(12 * p.year + p.month - 1) + days * DAY + ClockOf(p)
  }

  /** The years a datetime of the source can have. */
  predicate InRange(t: Time) {
    1 <= MonthOf(t) / 12 <= 9999
  }

  function Hour(clock: nat): nat { clock / HOUR }

  function Minute(clock: nat): nat { clock % HOUR / MINUTE }

  function Second(clock: nat): nat { clock % HOUR % MINUTE / SECOND }

  function Micro(clock: nat): nat { clock % HOUR % MINUTE % SECOND }

  function PartsOf(t: Time): Parts {
    var month := MonthOf(t);
    var left := t - MonthStart(month);
    var clock := left % DAY;
    Parts(month / 12, month % 12 + 1, left / DAY + 1, Hour(clock), Minute(clock), Second(clock), Micro(clock))
  }

  lemma Divides(x: nat, d: nat)
    requires d > 0
    ensures x == x / d * d + x % d && x % d < d
  {
  }

  lemma ClockSplits(clock: nat)
    requires clock < DAY
    ensures Hour(clock) < 24 && Minute(clock) < 60 && Second(clock) < 60 && Micro(clock) < SECOND
    ensures Hour(clock) * HOUR + Minute(clock) * MINUTE + Second(clock) * SECOND + Micro(clock) == clock
  {
    Divides(clock, HOUR);
    Divides(clock % HOUR, MINUTE);
    Divides(clock % HOUR % MINUTE, SECOND);
  }

  lemma DayIsInMonth(left: nat, days: nat)
    requires left < days * DAY
    ensures left / DAY < days
  {
  }

  lemma PartsReadBack(t: Time)
    requires InRange(t)
    ensures Proper(PartsOf(t)) && TimeOf(PartsOf(t)) == t
  {
    hide MonthOf, MonthStart, DaysIn, Hour, Minute, Second, Micro;
    var month := MonthOf(t);
    var left := t - MonthStart(month);
    NextMonthStart(month);
    DayIsInMonth(left, DaysIn(month));
    Divides(left, DAY);
    ClockSplits(left % DAY);
    assert 12 * (month / 12) + (month % 12 + 1) - 1 == month;
  }

  // ---- printing and reading ----

  function PrintDate(p: Parts): string {
    Fixed(p.year, 4) + "-" + Fixed(p.month, 2) + "-" + Fixed(p.day, 2)
  }

  function PrintClock(p: Parts): string {
    Fixed(p.hour, 2) + ":" + Fixed(p.minute, 2) + ":" + Fixed(p.second, 2)
    + if p.micro == 0 then "" else "." + Fixed(p.micro, 6)
  }

  function PrintTime(t: Time): string {
    PrintDate(PartsOf(t)) + "T" + PrintClock(PartsOf(t))
  }

  function ReadDate(s: string): Option<(nat, nat, nat)> {
    var y, m, d := NumberAt(s, 0, 4), NumberAt(s, 5, 2), NumberAt(s, 8, 2);
    if |s| == 10 && y.Some? && s[4] == '-' && m.Some? && s[7] == '-' && d.Some?
    then Some((y.value, m.value, d.value)) else None
  }

  function ReadClock(s: string): Option<(nat, nat, nat, nat)> {
    var h, m, c, u := NumberAt(s, 0, 2), NumberAt(s, 3, 2), NumberAt(s, 6, 2), NumberAt(s, 9, 6);
    if |s| < 8 || h.None? || s[2] != ':' || m.None? || s[5] != ':' || c.None? then None
    else if |s| == 8 then Some((h.value, m.value, c.value, 0))
    else if |s| == 15 && s[8] == '.' && u.Some? then Some((h.value, m.value, c.value, u.value))
    else None
  }

  function ReadTime(s: string): Option<Time> {
    if |s| < 11 || s[10] != 'T' then None
    else
      var date, clock := ReadDate(s[..10]), ReadClock(s[11..]);
      if date.None? || clock.None? then None
      else
        var p := Parts(date.value.0, date.value.1, date.value.2,
                       clock.value.0, clock.value.1, clock.value.2, clock.value.3);
        if Proper(p) then Some(TimeOf(p)) else None
  }

  lemma DateReadsBack(p: Parts)
    requires Proper(p)
    ensures |PrintDate(p)| == 10 && ReadDate(PrintDate(p)) == Some((p.year, p.month, p.day))
  {
    hide NumberAt, Fixed;
    var y, m, d := Fixed(p.year, 4), Fixed(p.month, 2), Fixed(p.day, 2);
    var s := PrintDate(p);
    Powers();
    NumberReadsBack("", p.year, 4, "-" + m + "-" + d);
    assert s == "" + y + ("-" + m + "-" + d);
    NumberReadsBack(y + "-", p.month, 2, "-" + d);
    assert s == y + "-" + m + ("-" + d);
    NumberReadsBack(y + "-" + m + "-", p.day, 2, "");
    assert s == y + "-" + m + "-" + d + "";
    assert s[4] == ("-" + m + "-" + d)[0] && s[7] == ("-" + d)[0];
  }

  lemma Powers()
    ensures Pow10(2) == 100 && Pow10(4) == 10_000 && Pow10(6) == 1_000_000
  {
    assert Pow10(3) == 1000 && Pow10(5) == 100_000;
  }

  lemma ClockReadsBack(p: Parts)
    requires Proper(p)
    ensures ReadClock(PrintClock(p)) == Some((p.hour, p.minute, p.second, p.micro))
  {
    hide NumberAt, Fixed;
    var h, m, c := Fixed(p.hour, 2), Fixed(p.minute, 2), Fixed(p.second, 2);
    var u := if p.micro == 0 then "" else "." + Fixed(p.micro, 6);
    var s := PrintClock(p);
    Powers();
    NumberReadsBack("", p.hour, 2, ":" + m + ":" + c + u);
    assert s == "" + h + (":" + m + ":" + c + u);
    NumberReadsBack(h + ":", p.minute, 2, ":" + c + u);
    assert s == h + ":" + m + (":" + c + u);
    NumberReadsBack(h + ":" + m + ":", p.second, 2, u);
    assert s == h + ":" + m + ":" + c + u;
    assert s[2] == (":" + m + ":" + c + u)[0] && s[5] == (":" + c + u)[0];
    if p.micro > 0 {
      NumberReadsBack(h + ":" + m + ":" + c + ".", p.micro, 6, "");
      assert s == h + ":" + m + ":" + c + "." + Fixed(p.micro, 6) + "";
      assert s[8] == u[0];
    }
  }

  /** Every datetime is read back from its printed form, with or without microseconds. */
  lemma TimeReadsBack(t: Time)
    requires InRange(t)
    ensures ReadTime(PrintTime(t)) == Some(t)
  {
    hide ReadDate, ReadClock, PrintDate, PrintClock, Proper, TimeOf, PartsOf;
    var p := PartsOf(t);
    PartsReadBack(t);
    DateReadsBack(p);
    ClockReadsBack(p);
    assert PrintTime(t)[..10] == PrintDate(p) && PrintTime(t)[11..] == PrintClock(p);
  }
}
