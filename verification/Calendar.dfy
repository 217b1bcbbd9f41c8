/**
 The proleptic Gregorian calendar as mktime and localtime see it, at a fixed offset from UTC.

 Days are numbered so that day 0 is a Sunday and 1 January 1970 is day 719527; minutes are numbered
 from the start of day 0.  Months count from 0 and days of the month from 1, as in struct tm.
 */
module Calendar {

  const EPOCH_DAY := 719527
  const DAY := 1440

  predicate Leap(y: int) { y % 4 == 0 && (y % 100 != 0 || y % 400 == 0) }

  function DaysBeforeYear(y: int): int { 365 * y + (y - 1) / 4 - (y - 1) / 100 + (y - 1) / 400 }

  function MonthDays(y: int, m: nat): nat {
    if m == 1 then (if Leap(y) then 29 else 28)
    else if m == 3 || m == 5 || m == 8 || m == 10 then 30
    else 31
  }

  function DaysBeforeMonth(y: int, m: nat): nat {
    if m == 0 then 0 else DaysBeforeMonth(y, m - 1) + MonthDays(y, m - 1)
  }

  lemma {:induction false} YearLength(y: int)
    ensures DaysBeforeYear(y + 1) == DaysBeforeYear(y) + (if Leap(y) then 366 else 365)
  {
    assert y / 4 == (y - 1) / 4 + if y % 4 == 0 then 1 else 0;
    assert y / 100 == (y - 1) / 100 + if y % 100 == 0 then 1 else 0;
    assert y / 400 == (y - 1) / 400 + if y % 400 == 0 then 1 else 0;
    assert y % 400 == 0 ==> y % 100 == 0;
    assert y % 100 == 0 ==> y % 4 == 0;
  }

  lemma {:induction false} MonthTable(y: int)
    ensures DaysBeforeMonth(y, 12) == (if Leap(y) then 366 else 365)
  {
    var f := MonthDays(y, 1);
    assert DaysBeforeMonth(y, 1) == 31;
    assert DaysBeforeMonth(y, 2) == 31 + f;
    assert DaysBeforeMonth(y, 3) == 62 + f;
    assert DaysBeforeMonth(y, 5) == 123 + f;
    assert DaysBeforeMonth(y, 7) == 184 + f;
    assert DaysBeforeMonth(y, 9) == 245 + f;
    assert DaysBeforeMonth(y, 11) == 306 + f;
  }

  lemma {:induction false} MonthEnd(y: int, m: nat)
    ensures DaysBeforeMonth(y, m + 1) == DaysBeforeMonth(y, m) + MonthDays(y, m)
  {}

  lemma {:induction false} YearsIncrease(a: int, b: int)
    requires a <= b
    ensures DaysBeforeYear(a) + 365 * (b - a) <= DaysBeforeYear(b)
    decreases b - a
  {
    if a == b {
    } else {
      YearLength(b - 1);
      YearsIncrease(a, b - 1);
    }
  }

  lemma {:induction false} MonthsIncrease(y: int, a: nat, b: nat)
    requires a <= b
    ensures DaysBeforeMonth(y, a) + 28 * (b - a) <= DaysBeforeMonth(y, b)
    decreases b - a
  {
    if a == b {
    } else {
      MonthsIncrease(y, a, b - 1);
    }
  }

  /** A date without its weekday. */
  datatype Date = Date(year: int, mon: nat, mday: int)

  predicate IsDate(d: Date) { d.mon < 12 && 1 <= d.mday <= MonthDays(d.year, d.mon) }

  function DayNumber(year: int, mon: nat, mday: int): int { DaysBeforeYear(year) + DaysBeforeMonth(year, mon) + mday - 1 }

  function YearDown(day: int, y: int): (r: int)
    requires day < DaysBeforeYear(y + 1)
    ensures DaysBeforeYear(r) <= day < DaysBeforeYear(r + 1)
    decreases DaysBeforeYear(y + 1) - day
  {
    YearLength(y);
    if DaysBeforeYear(y) <= day then y else YearDown(day, y - 1)
  }

  /** The year that a day falls into. */
  function YearOf(day: int): (r: int)
    ensures DaysBeforeYear(r) <= day < DaysBeforeYear(r + 1)
  {
    YearsIncrease(0, if day >= 0 then day + 1 else 1);
    YearDown(day, if day >= 0 then day else 0)
  }

  function MonthUp(y: int, n: int, m: nat): (r: nat)
    requires m < 12 && DaysBeforeMonth(y, m) <= n < DaysBeforeMonth(y, 12)
    ensures r < 12 && DaysBeforeMonth(y, r) <= n < DaysBeforeMonth(y, r + 1)
    decreases 12 - m
  {
    if m == 11 || n < DaysBeforeMonth(y, m + 1) then m else MonthUp(y, n, m + 1)
  }

  /** The date of a day. */
  function DateOf(day: int): (d: Date)
    ensures IsDate(d) && DayNumber(d.year, d.mon, d.mday) == day
  {
    var y := YearOf(day);
    YearLength(y);
    MonthTable(y);
    var n := day - DaysBeforeYear(y);
    var m := MonthUp(y, n, 0);
    Date(y, m, n - DaysBeforeMonth(y, m) + 1)
  }

  /** A day has only one date. */
  lemma {:induction false} DateUnique(d: Date)
    requires IsDate(d)
    ensures DateOf(DayNumber(d.year, d.mon, d.mday)) == d
  {
    hide DaysBeforeYear, DaysBeforeMonth, MonthDays, DateOf;
    var e := DateOf(DayNumber(d.year, d.mon, d.mday));
    WithinYear(d);
    WithinYear(e);
    if e.year < d.year { YearsIncrease(e.year + 1, d.year); }
    if d.year < e.year { YearsIncrease(d.year + 1, e.year); }
    MonthEnd(d.year, d.mon);
    MonthEnd(d.year, e.mon);
    if e.mon < d.mon { MonthsIncrease(d.year, e.mon + 1, d.mon); }
    if d.mon < e.mon { MonthsIncrease(d.year, d.mon + 1, e.mon); }
  }

  lemma {:induction false} WithinYear(d: Date)
    requires IsDate(d)
    ensures DaysBeforeYear(d.year) <= DayNumber(d.year, d.mon, d.mday) < DaysBeforeYear(d.year + 1)
  {
    MonthsIncrease(d.year, d.mon + 1, 12);
    MonthTable(d.year);
    YearLength(d.year);
  }

  /** The days of one month all have that month. */
  lemma {:induction false} SameMonth(year: int, mon: nat, day: int)
    requires mon < 12
    requires DayNumber(year, mon, 1) <= day < DayNumber(year, mon, 1) + MonthDays(year, mon)
    ensures DateOf(day).year == year && DateOf(day).mon == mon
  {
    DateUnique(Date(year, mon, day - DayNumber(year, mon, 1) + 1));
  }

  /** The first day of the month after (year, mon). */
  lemma {:induction false} NextMonth(year: int, mon: nat)
    requires mon < 12
    ensures DayNumber(year, mon, 1) + MonthDays(year, mon)
         == if mon == 11 then DayNumber(year + 1, 0, 1) else DayNumber(year, mon + 1, 1)
  {
    if mon == 11 {
      YearLength(year);
      MonthTable(year);
    }
  }

  const CYCLE := 146097

  /** The calendar, weekdays included, repeats every 400 years. */
  lemma {:induction false} Repeats(day: int)
    ensures DateOf(day + CYCLE) == DateOf(day).(year := DateOf(day).year + 400)
    ensures (day + CYCLE) % 7 == day % 7
  {
    hide DateOf, MonthDays, DaysBeforeMonth, DaysBeforeYear;
    var d := DateOf(day);
    SameMonths(d.year, d.mon);
    SameYears(d.year);
    DateUnique(d.(year := d.year + 400));
  }

  lemma {:induction false} SameYears(y: int)
    ensures DaysBeforeYear(y + 400) == DaysBeforeYear(y) + CYCLE && Leap(y + 400) == Leap(y)
  {
    var n := y - 1;
    assert (n + 400) / 4 == n / 4 + 100;
    assert (n + 400) / 100 == n / 100 + 4;
    assert (n + 400) / 400 == n / 400 + 1;
    assert (y + 400) % 4 == y % 4 && (y + 400) % 100 == y % 100 && (y + 400) % 400 == y % 400;
  }

  lemma {:induction false} SameMonths(y: int, m: nat)
    ensures MonthDays(y + 400, m) == MonthDays(y, m) && DaysBeforeMonth(y + 400, m) == DaysBeforeMonth(y, m)
  {
    hide Leap;
    SameYears(y);
    if m == 0 {
    } else {
      SameMonths(y, m - 1);
    }
  }

  /** Broken-down local time. */
  datatype Tm = Tm(year: int, mon: nat, mday: int, hour: int, min: int, wday: int)

  /** mktime on fields of which day, hour and minute may exceed their usual range. */
  function MkTime(tm: Tm): int { DayNumber(tm.year, tm.mon, tm.mday) * DAY + tm.hour * 60 + tm.min }

  function LocalTime(minute: int): (tm: Tm)
    ensures MkTime(tm) == minute
    ensures tm.mon < 12 && 0 <= tm.hour < 24 && 0 <= tm.min < 60 && 0 <= tm.wday < 7
  {
    var day, rest := minute / DAY, minute % DAY;
    var d := DateOf(day);
    Tm(d.year, d.mon, d.mday, rest / 60, rest % 60, day % 7)
  }

  // An independent account of the same calendar

  /**
   The day count from 1 January 1970 by the well-known closed formula, in which years begin in March so
   that the leap day comes last.  Here months count from 1.
   */
  function DaysFromCivil(year: int, month: int, day: int): int {
    var y := if month <= 2 then year - 1 else year;
    var era := y / 400;
    var yearOfEra := y - 400 * era;
    146097 * era + 365 * yearOfEra + yearOfEra / 4 - yearOfEra / 100 + SinceMarch(month) + day - 1 - 719468
  }

  /** The days from 1 March to the first of a month. */
  function SinceMarch(month: int): int { (153 * ((month + 9) % 12) + 2) / 5 }

  /** The days before 1 March of a year, up to a constant. */
  function BeforeMarch(y: int): int { 365 * y + y / 4 - y / 100 + y / 400 }

  lemma {:induction false} EraYears(y: int)
    ensures var era := y / 400;
            var yoe := y - 400 * era;
            146097 * era + 365 * yoe + yoe / 4 - yoe / 100 == BeforeMarch(y)
  {
    var era := y / 400;
    var yoe := y - 400 * era;
    assert y / 4 == 100 * era + yoe / 4;
    assert y / 100 == 4 * era + yoe / 100;
  }

  lemma {:induction false} MonthSums(y: int)
    ensures DaysBeforeMonth(y, 1) == 31
    ensures var f := MonthDays(y, 1);
            && DaysBeforeMonth(y, 2) == 31 + f && DaysBeforeMonth(y, 3) == 62 + f && DaysBeforeMonth(y, 4) == 92 + f
            && DaysBeforeMonth(y, 5) == 123 + f && DaysBeforeMonth(y, 6) == 153 + f && DaysBeforeMonth(y, 7) == 184 + f
            && DaysBeforeMonth(y, 8) == 215 + f && DaysBeforeMonth(y, 9) == 245 + f && DaysBeforeMonth(y, 10) == 276 + f
            && DaysBeforeMonth(y, 11) == 306 + f
  {
    hide Leap;
    MonthEnd(y, 0);
    MonthEnd(y, 1);
    MonthEnd(y, 2);
    MonthEnd(y, 3);
    MonthEnd(y, 4);
    MonthEnd(y, 5);
    MonthEnd(y, 6);
    MonthEnd(y, 7);
    MonthEnd(y, 8);
    MonthEnd(y, 9);
    MonthEnd(y, 10);
  }

  /** The month table and the leap rule give the same day for every date as the closed formula. */
  lemma {:induction false} AgreesWithCivilFormula(year: int, mon: nat, mday: int)
    requires mon < 12
    ensures DayNumber(year, mon, mday) - EPOCH_DAY == DaysFromCivil(year, mon + 1, mday)
  {
    hide DaysBeforeMonth, DaysBeforeYear, BeforeMarch, SinceMarch;
    var y := if mon < 2 then year - 1 else year;
    EraYears(y);
    MarchYears(year);
    MonthOffsets(year, mon);
  }

  lemma {:induction false} MarchYears(y: int)
    ensures DaysBeforeYear(y) == BeforeMarch(y - 1) + 365
    ensures BeforeMarch(y) == BeforeMarch(y - 1) + 337 + MonthDays(y, 1)
  {
    YearLength(y);
    assert DaysBeforeYear(y + 1) == BeforeMarch(y) + 365;
  }

  lemma {:induction false} MonthOffsets(y: int, mon: nat)
    requires mon < 12
    ensures DaysBeforeMonth(y, mon) + 59 ==
            if mon < 2 then SinceMarch(mon + 1) - 247 else SinceMarch(mon + 1) + 90 + MonthDays(y, 1)
  {
    hide DaysBeforeMonth;
    MonthSums(y);
    FirstOfYear(y);
  }

  lemma {:induction false} FirstOfYear(y: int)
    ensures DaysBeforeMonth(y, 0) == 0
  {}

  /** The numbering is anchored where time_t is: 1 January 1970 was a Thursday. */
  lemma {:induction false} Anchor(day: int)
    requires day == EPOCH_DAY
    ensures DateOf(day) == Date(1970, 0, 1) && day % 7 == 4
  {
    hide DateOf;
    DateUnique(Date(1970, 0, 1));
    assert DayNumber(1970, 0, 1) == day;
  }
}
