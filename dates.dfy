/** `Date.UTC` as section 21.4 of ECMA-262 defines it, counted in whole days
    since 1970-01-01 (every date the backend builds is at midnight UTC). */
module JsDate {
  import opened Wrappers
  import opened JsNumber

  predicate IsLeap(y: int) {
    y % 4 == 0 && (y % 100 != 0 || y % 400 == 0)
  }

  function DaysInYear(y: int): int {
    if IsLeap(y) then 366 else 365
  }

  /** DayFromYear: days from the epoch to January 1st of year `y`. */
  function DayFromYear(y: int): int {
    365 * (y - 1970) + (y - 1969) / 4 - (y - 1901) / 100 + (y - 1601) / 400
  }

  /** Month `mn` counts from 0 (January) to 11 (December). */
  function DaysInMonth(y: int, mn: int): int
    requires 0 <= mn < 12
  {
    if mn == 1 then (if IsLeap(y) then 29 else 28)
    else if mn == 3 || mn == 5 || mn == 8 || mn == 10 then 30
    else 31
  }

  function DaysBeforeMonth(y: int, mn: int): (n: int)
    requires 0 <= mn <= 12
    ensures 0 <= n
    ensures mn > 0 ==> n == DaysBeforeMonth(y, mn - 1) + DaysInMonth(y, mn - 1)
  {
    if mn == 0 then 0 else DaysBeforeMonth(y, mn - 1) + DaysInMonth(y, mn - 1)
  }

  /** MakeDay(year, month, date) for integral arguments: months outside 0..11
      carry into the year, dates beyond the month's length carry forward. */
  function MakeDay(y: int, m: int, dt: int): int {
    var ym := y + m / 12;
    var mn := m % 12;
    DayFromYear(ym) + DaysBeforeMonth(ym, mn) + dt - 1
  }

  /** `Date.UTC(y, m, d)`: NaN arguments or a result outside the ±100 000 000
      day range give an invalid date (None); years 0 to 99 mean 1900 to 1999. */
  function DateUTC(y: Number, m: Number, d: Number): (r: Option<int>)
    ensures (y.NaN? || m.NaN? || d.NaN?) ==> r.None?
    ensures r.Some? ==> -100000000 <= r.value <= 100000000
  {
    if y.NaN? || m.NaN? || d.NaN? then None
    else
      var yi := Trunc(y.v);
      var yr := if 0 <= yi <= 99 then 1900 + yi else yi;
      var day := MakeDay(yr, Trunc(m.v), Trunc(d.v));
      if -100000000 <= day <= 100000000 then Some(day) else None
  }

  /** Day number of a calendar date given with a 1-based month. */
  function CalendarDay(y: int, month: int, d: int): int {
    MakeDay(y, month - 1, d)
  }

  predicate ValidCalendarDate(y: int, month: int, d: int) {
    1 <= month <= 12 && 1 <= d <= DaysInMonth(y, month - 1)
  }

  /* ---------------- calendar arithmetic ---------------- */

  /** Consecutive years are `DaysInYear` apart. */
  lemma {:induction false} DayFromYearStep(y: int)
    ensures DayFromYear(y + 1) == DayFromYear(y) + DaysInYear(y)
  {
    assert (y - 1968) / 4 == (y - 1969) / 4 + (if (y - 1968) % 4 == 0 then 1 else 0);
    assert (y - 1900) / 100 == (y - 1901) / 100 + (if (y - 1900) % 100 == 0 then 1 else 0);
    assert (y - 1600) / 400 == (y - 1601) / 400 + (if (y - 1600) % 400 == 0 then 1 else 0);
    assert (y - 1968) % 4 == 0 <==> y % 4 == 0;
    assert (y - 1900) % 100 == 0 <==> y % 100 == 0;
    assert (y - 1600) % 400 == 0 <==> y % 400 == 0;
  }

  lemma {:induction false} DaysBeforeYearEnd(y: int)
    ensures DaysBeforeMonth(y, 12) == DaysInYear(y)
  {
  }

  lemma {:induction false} DaysBeforeMonthMono(y: int, a: int, b: int)
    requires 0 <= a < b <= 12
    ensures DaysBeforeMonth(y, a) + DaysInMonth(y, a) <= DaysBeforeMonth(y, b)
    decreases b - a
  {
    if a + 1 < b { DaysBeforeMonthMono(y, a + 1, b); }
  }

  lemma {:induction false} DayFromYearMono(y: int, z: int)
    requires y < z
    ensures DayFromYear(y) + DaysInYear(y) <= DayFromYear(z)
    decreases z - y
  {
    DayFromYearStep(y);
    if y + 1 < z {
      DayFromYearMono(y + 1, z);
    }
  }

  /** A valid date lies inside its year. */
  lemma {:induction false} DayWithinYear(y: int, month: int, d: int)
    requires ValidCalendarDate(y, month, d)
    ensures DayFromYear(y) <= CalendarDay(y, month, d) < DayFromYear(y) + DaysInYear(y)
  {
    assert (month - 1) / 12 == 0 && (month - 1) % 12 == month - 1;
    if month < 12 { DaysBeforeMonthMono(y, month - 1, 12); }
    DaysBeforeYearEnd(y);
  }

  /** Day numbers keep the calendar order of valid dates: a date earlier in
      (year, month, day) order has a smaller day number. */
  lemma {:induction false} CalendarOrder(y1: int, m1: int, d1: int, y2: int, m2: int, d2: int)
    requires ValidCalendarDate(y1, m1, d1) && ValidCalendarDate(y2, m2, d2)
    requires y1 < y2 || (y1 == y2 && (m1 < m2 || (m1 == m2 && d1 < d2)))
    ensures CalendarDay(y1, m1, d1) < CalendarDay(y2, m2, d2)
  {
    if y1 < y2 {
      DayWithinYear(y1, m1, d1);
      DayWithinYear(y2, m2, d2);
      DayFromYearMono(y1, y2);
    } else if m1 < m2 {
      CalendarOrderInYear(y1, m1, d1, m2, d2);
    } else {
      CalendarOrderInMonth(y1, m1, d1, d2);
    }
  }

  lemma {:induction false} CalendarOrderInYear(y: int, m1: int, d1: int, m2: int, d2: int)
    requires ValidCalendarDate(y, m1, d1) && ValidCalendarDate(y, m2, d2) && m1 < m2
    ensures CalendarDay(y, m1, d1) < CalendarDay(y, m2, d2)
  {
    assert (m1 - 1) / 12 == 0 && (m1 - 1) % 12 == m1 - 1;
    assert (m2 - 1) / 12 == 0 && (m2 - 1) % 12 == m2 - 1;
    DaysBeforeMonthMono(y, m1 - 1, m2 - 1);
  }

  lemma {:induction false} CalendarOrderInMonth(y: int, m: int, d1: int, d2: int)
    requires ValidCalendarDate(y, m, d1) && ValidCalendarDate(y, m, d2) && d1 < d2
    ensures CalendarDay(y, m, d1) < CalendarDay(y, m, d2)
  {
    assert (m - 1) / 12 == 0 && (m - 1) % 12 == m - 1;
  }

  /** Distinct valid calendar dates never share a day number. */
  lemma {:induction false} CalendarInjective(y1: int, m1: int, d1: int, y2: int, m2: int, d2: int)
    requires ValidCalendarDate(y1, m1, d1) && ValidCalendarDate(y2, m2, d2)
    requires CalendarDay(y1, m1, d1) == CalendarDay(y2, m2, d2)
    ensures y1 == y2 && m1 == m2 && d1 == d2
  {
    if y1 < y2 || (y1 == y2 && (m1 < m2 || (m1 == m2 && d1 < d2))) {
      CalendarOrder(y1, m1, d1, y2, m2, d2);
    } else if y2 < y1 || (y1 == y2 && (m2 < m1 || (m1 == m2 && d2 < d1))) {
      CalendarOrder(y2, m2, d2, y1, m1, d1);
    }
  }

  /** The epoch is day 0. */
  lemma EpochIsDayZero()
    ensures CalendarDay(1970, 1, 1) == 0
  {
    assert 0 / 12 == 0 && 0 % 12 == 0;
    assert DayFromYear(1970) == 0;
  }

  lemma {:induction false} DaysBeforeMonthBound(y: int, mn: int)
    requires 0 <= mn <= 12
    ensures DaysBeforeMonth(y, mn) <= 31 * mn
    decreases mn
  {
    if mn > 0 { DaysBeforeMonthBound(y, mn - 1); }
  }

  /** `Date.UTC(y, month - 1, d)` on a date of a year from 100 to 9999 is that
      date's day number: no 1900 offset, no out-of-range result. */
  lemma {:induction false} DateUTCOfCalendar(y: int, month: int, d: int)
    requires 100 <= y <= 9999 && 1 <= month <= 12 && 1 <= d <= 31
    ensures DateUTC(Num(y as real), Num(month as real - 1.0), Num(d as real)) == Some(CalendarDay(y, month, d))
  {
    CalendarDayRange(y, month, d);
    DateUTCIntegral(y, month, d, Num(month as real - 1.0));
  }

  /** `Date.UTC` on whole numbers outside the two-digit years is the
      calendar day number when that is in range. */
  lemma DateUTCIntegral(y: int, month: int, d: int, mn: Number)
    requires !(0 <= y <= 99) && mn == Num(month as real - 1.0)
    requires -100000000 <= CalendarDay(y, month, d) <= 100000000
    ensures DateUTC(Num(y as real), mn, Num(d as real)) == Some(CalendarDay(y, month, d))
  {
    assert Trunc(y as real) == y;
    assert Trunc(month as real - 1.0) == month - 1;
    assert Trunc(d as real) == d;
  }

  lemma {:induction false} CalendarDayRange(y: int, month: int, d: int)
    requires 100 <= y <= 9999 && 1 <= month <= 12 && 1 <= d <= 31
    ensures -100000000 <= CalendarDay(y, month, d) <= 100000000
  {
    assert (month - 1) / 12 == 0 && (month - 1) % 12 == month - 1;
    DaysBeforeMonthBound(y, month - 1);
    DayFromYearRange(y);
  }

  lemma {:induction false} DayFromYearRange(y: int)
    requires 100 <= y <= 9999
    ensures -1000000 <= DayFromYear(y) <= 3000000
  {
  }
}
