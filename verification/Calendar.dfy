/** Calendar months, as `_current_month_reserved_and_settled_cents` cuts them
    (services/budgeting.py): a month is numbered 12 * year + (month - 1), so the step from
    December to January of the next year is the step from one number to the next.
 */
module Calendar {
  import opened Entities

  const DAY: nat := 86_400 * SECOND

  predicate LeapYear(year: nat) {
    year % 4 == 0 && (year % 100 != 0 || year % 400 == 0)
  }

  function DaysIn(month: nat): (days: nat)
    ensures 28 <= days <= 31
  {
    match month % 12
    case 1 => if LeapYear(month / 12) then 29 else 28
    case 3 => 30
    case 5 => 30
    case 8 => 30
    case 10 => 30
    case _ => 31
  }

  function DaysBefore(month: nat): nat {
    if month == 0 then 0 else DaysBefore(month - 1) + DaysIn(month - 1)
  }

  /** The first instant of a month. */
  function MonthStart(month: nat): Time { DaysBefore(month) * DAY }

  lemma NextMonthStart(month: nat)
    ensures MonthStart(month + 1) == MonthStart(month) + DaysIn(month) * DAY
  {
  }

  /** The month an instant falls in, searched upwards from a month that has begun. */
  function MonthFrom(now: Time, month: nat): (found: nat)
    requires MonthStart(month) <= now
    ensures month <= found
    ensures MonthStart(found) <= now < MonthStart(found + 1)
    decreases now - MonthStart(month)
  {
    if now < MonthStart(month + 1) then month else MonthFrom(now, month + 1)
  }

  function MonthOf(now: Time): (month: nat)
    ensures MonthStart(month) <= now < MonthStart(month + 1)
  {
    MonthFrom(now, 0)
  }

  lemma {:induction false} MonthStartIsMonotone(a: nat, b: nat)
    requires a <= b
    ensures MonthStart(a) <= MonthStart(b)
    decreases b - a
  {
    if a < b {
      MonthStartIsMonotone(a, b - 1);
    }
  }

  /** The windows [MonthStart(m), MonthStart(m + 1)) partition time. */
  lemma MonthIsUnique(now: Time, month: nat)
    ensures MonthStart(month) <= now < MonthStart(month + 1) <==> month == MonthOf(now)
  {
    var found := MonthOf(now);
    if month < found {
      MonthStartIsMonotone(month + 1, found);
    } else if found < month {
      MonthStartIsMonotone(found + 1, month);
    }
  }

  lemma MonthOfYear(year: nat, k: nat)
    requires k < 12
    ensures (12 * year + k) % 12 == k && (12 * year + k) / 12 == year
    ensures DaysBefore(12 * year + k + 1) == DaysBefore(12 * year + k) + DaysIn(12 * year + k)
  {
  }

  lemma YearLasts(year: nat)
    ensures DaysBefore(12 * year + 12) == DaysBefore(12 * year) + if LeapYear(year) then 366 else 365
  {
    hide DaysBefore, LeapYear;
    MonthOfYear(year, 0);
    MonthOfYear(year, 1);
    MonthOfYear(year, 2);
    MonthOfYear(year, 3);
    MonthOfYear(year, 4);
    MonthOfYear(year, 5);
    MonthOfYear(year, 6);
    MonthOfYear(year, 7);
    MonthOfYear(year, 8);
    MonthOfYear(year, 9);
    MonthOfYear(year, 10);
    MonthOfYear(year, 11);
  }

  lemma OneMoreMultiple(n: nat, d: nat)
    requires d == 4 || d == 100 || d == 400
    ensures (n + d) / d == (n + d - 1) / d + if n % d == 0 then 1 else 0
  {
  }

  lemma Centuries(n: nat)
    ensures n % 400 == 0 ==> n % 100 == 0
    ensures n % 100 == 0 ==> n % 4 == 0
  {
    assert n % 400 % 100 == n % 100 && n % 100 % 4 == n % 4;
  }

  lemma LeapDays(year: nat)
    ensures (year + 4) / 4 - (year + 100) / 100 + (year + 400) / 400
         == (year + 3) / 4 - (year + 99) / 100 + (year + 399) / 400 + if LeapYear(year) then 1 else 0
  {
    OneMoreMultiple(year, 4);
    OneMoreMultiple(year, 100);
    OneMoreMultiple(year, 400);
    Centuries(year);
  }

  /** Month starts agree with the closed form of the Gregorian calendar: a leap day every four
      years, but for the centuries that 400 does not divide. */
  lemma {:induction false} YearStarts(year: nat)
    ensures DaysBefore(12 * year) == 365 * year + (year + 3) / 4 - (year + 99) / 100 + (year + 399) / 400
    decreases year
  {
    hide LeapYear;
    if year > 0 {
      hide DaysBefore;
      YearStarts(year - 1);
      YearLasts(year - 1);
      LeapDays(year - 1);
      assert 12 * (year - 1) + 12 == 12 * year;
    }
  }
}
