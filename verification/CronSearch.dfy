/**
 CronExpression::nextAfter (src/cron_scheduler.cpp) on a fixed-offset calendar: a bounded search that
 skips whole months, days and hours.  It finds the least matching minute whenever any minute
 matches at all.
 */
module CronSearch {
  import opened Calendar
  import opened Wrappers

  /** The five bit sets, as sets of the positions that are set. */
  datatype Fields = Fields(minutes: set<nat>, hours: set<nat>, daysOfMonth: set<nat>,
                           months: set<nat>, daysOfWeek: set<nat>)

  /** Month, day of the month and day of the week all have to match. */
  predicate DateMatches(c: Fields, day: int) {
    var d := DateOf(day);
    d.mon + 1 in c.months && d.mday in c.daysOfMonth && day % 7 in c.daysOfWeek
  }

  predicate Matches(c: Fields, m: int) {
    DateMatches(c, m / DAY) && m % DAY / 60 in c.hours && m % DAY % 60 in c.minutes
  }

  ghost predicate NoneIn(c: Fields, lo: int, hi: int) { forall m :: lo <= m < hi ==> !Matches(c, m) }

  ghost predicate Satisfiable(c: Fields) { exists m :: Matches(c, m) }

  // Minutes

  lemma {:induction false} MinuteParts(day: int, hour: int, min: int)
    requires 0 <= hour < 24 && 0 <= min < 60
    ensures var m := day * DAY + hour * 60 + min;
            m / DAY == day && m % DAY == hour * 60 + min && m % DAY / 60 == hour && m % DAY % 60 == min
  {}

  /** A day on which the date matches contains a match, if any minute ever does. */
  lemma {:induction false} DayHasMatch(c: Fields, day: int)
    requires Satisfiable(c) && DateMatches(c, day)
    ensures exists m :: day * DAY <= m < (day + 1) * DAY && Matches(c, m)
  {
    hide DateMatches;
    var x :| Matches(c, x);
    var hour, min := x % DAY / 60, x % DAY % 60;
    MinuteParts(day, hour, min);
    var m := day * DAY + hour * 60 + min;
    assert Matches(c, m);
  }

  /** Matches recur every 400 years. */
  lemma {:induction false} MatchRepeats(c: Fields, m: int)
    ensures Matches(c, m) <==> Matches(c, m + CYCLE * DAY)
  {
    hide DateOf;
    assert (m + CYCLE * DAY) / DAY == m / DAY + CYCLE && (m + CYCLE * DAY) % DAY == m % DAY;
    Repeats(m / DAY);
  }

  lemma {:induction false} MatchShift(c: Fields, m: int, k: int)
    ensures Matches(c, m) <==> Matches(c, m + k * (CYCLE * DAY))
    decreases if k < 0 then -k else k
  {
    hide Matches;
    if k > 0 {
      MatchShift(c, m, k - 1);
      MatchRepeats(c, m + (k - 1) * (CYCLE * DAY));
    } else if k < 0 {
      MatchShift(c, m, k + 1);
      MatchRepeats(c, m + k * (CYCLE * DAY));
    }
  }

  /** If any minute matches, one does within 400 years of any start. */
  lemma {:induction false} MatchWithinCycle(c: Fields, start: int) returns (m: int)
    requires Satisfiable(c)
    ensures start <= m < start + CYCLE * DAY && Matches(c, m)
  {
    hide Matches;
    var x :| Matches(c, x);
    var p := CYCLE * DAY;
    var k := (x - start) / p;
    m := x - k * p;
    assert (x - start) == k * p + (x - start) % p;
    MatchShift(c, x, -k);
    assert x + (-k) * p == m;
  }

  // The bound on the number of iterations

  /** How many iterations the search may have used when it stands at `cur`. */
  function Budget(start: int, cur: int): int {
    if cur / DAY == start / DAY then cur - start else DAY + (cur / DAY - start / DAY) + cur % DAY
  }

  /** If there is anything to find, the search is on schedule. */
  ghost predicate OnSchedule(c: Fields, start: int, cur: int, iterations: nat) {
    Satisfiable(c) ==>
      && iterations <= Budget(start, cur)
      && (cur / DAY > start / DAY && cur % DAY > 0 ==> DateMatches(c, cur / DAY))
  }

  /** From `cur` on to `next`, over minutes that do not match, and never past a day whose date matches. */
  ghost predicate Moves(c: Fields, cur: int, next: int) {
    && cur < next && NoneIn(c, cur, next)
    && (if DateMatches(c, cur / DAY) then next <= (cur / DAY + 1) * DAY else next % DAY == 0)
  }

  /** An iteration that moves on has skipped no match and stays on schedule. */
  lemma {:induction false} StaysOnSchedule(c: Fields, start: int, cur: int, next: int, iterations: nat)
    requires start <= cur && NoneIn(c, start, cur) && Moves(c, cur, next) && OnSchedule(c, start, cur, iterations)
    ensures start < next && NoneIn(c, start, next) && OnSchedule(c, start, next, iterations + 1)
  {
    hide DateMatches, Matches;
    if Satisfiable(c) {
      var day := cur / DAY;
      if DateMatches(c, day) && next == (day + 1) * DAY && day > start / DAY {
        DayHasMatch(c, day);
        assert false;
      }
    }
  }

  const LIMIT := 366 * 24 * 60

  /** When the search gives up, there was nothing to find. */
  lemma {:induction false} GivesUpOnlyInVain(c: Fields, start: int, cur: int)
    requires start <= cur && NoneIn(c, start, cur) && OnSchedule(c, start, cur, LIMIT)
    ensures !Satisfiable(c)
  {
    hide Matches, DateMatches;
    if Satisfiable(c) {
      var m := MatchWithinCycle(c, start);
    }
  }

  // The four jumps

  /** All minutes from `cur` to the end of its month share its month. */
  lemma {:induction false} SkipMonth(c: Fields, cur: int, next: int)
    requires var tm := LocalTime(cur);
             && tm.mon + 1 !in c.months
             && next == MkTime(if tm.mon == 11 then Tm(tm.year + 1, 0, 1, 0, 0, tm.wday)
                               else Tm(tm.year, tm.mon + 1, 1, 0, 0, tm.wday))
    ensures Moves(c, cur, next)
  {
    hide DateOf, DaysBeforeYear, DaysBeforeMonth, MonthDays;
    var d := DateOf(cur / DAY);
    NextMonth(d.year, d.mon);
    forall m | cur <= m < next ensures !Matches(c, m) {
      assert cur / DAY <= m / DAY < next / DAY;
      SameMonth(d.year, d.mon, m / DAY);
    }
  }

  /** All minutes of a day share its date. */
  lemma {:induction false} SkipDay(c: Fields, cur: int, next: int)
    requires var tm := LocalTime(cur);
             && (tm.mday !in c.daysOfMonth || tm.wday !in c.daysOfWeek)
             && next == MkTime(tm.(hour := 0, min := 0, mday := tm.mday + 1))
    ensures Moves(c, cur, next)
  {
    hide DateMatches, LocalTime, MkTime;
    FieldsDecide(c, cur);
    Jumps(cur);
    forall m | cur <= m < next ensures !Matches(c, m) {
      assert m / DAY == cur / DAY;
    }
  }

  /** All minutes of an hour share the hour. */
  lemma {:induction false} SkipHour(c: Fields, cur: int, next: int)
    requires var tm := LocalTime(cur);
             && tm.mon + 1 in c.months && tm.mday in c.daysOfMonth && tm.wday in c.daysOfWeek
             && tm.hour !in c.hours
             && next == MkTime(tm.(min := 0, hour := tm.hour + 1))
    ensures Moves(c, cur, next)
  {
    hide DateMatches, LocalTime, MkTime;
    FieldsDecide(c, cur);
    Jumps(cur);
    forall m | cur <= m < next ensures !Matches(c, m) {
      assert m / DAY == cur / DAY && m % DAY / 60 == cur % DAY / 60;
    }
  }

  lemma {:induction false} SkipMinute(c: Fields, cur: int, next: int)
    requires var tm := LocalTime(cur);
             && tm.mon + 1 in c.months && tm.mday in c.daysOfMonth && tm.wday in c.daysOfWeek
             && tm.min !in c.minutes
             && next == MkTime(tm.(min := tm.min + 1))
    ensures Moves(c, cur, next)
  {
    hide DateMatches, LocalTime, MkTime;
    FieldsDecide(c, cur);
    Jumps(cur);
  }

  /** With all five fields matching, the minute is found. */
  lemma {:induction false} Found(c: Fields, cur: int)
    requires var tm := LocalTime(cur);
             && tm.mon + 1 in c.months && tm.mday in c.daysOfMonth && tm.wday in c.daysOfWeek
             && tm.hour in c.hours && tm.min in c.minutes
    ensures Matches(c, cur) && Satisfiable(c)
  {
    hide DateMatches, LocalTime;
    FieldsDecide(c, cur);
  }

  lemma {:induction false} NothingYet(c: Fields, start: int)
    ensures NoneIn(c, start, start) && OnSchedule(c, start, start, 0)
  {}

  /** What the fields of a broken-down time decide. */
  lemma {:induction false} FieldsDecide(c: Fields, cur: int)
    ensures var tm := LocalTime(cur);
            && (DateMatches(c, cur / DAY) <==>
                  tm.mon + 1 in c.months && tm.mday in c.daysOfMonth && tm.wday in c.daysOfWeek)
            && (Matches(c, cur) <==> DateMatches(c, cur / DAY) && tm.hour in c.hours && tm.min in c.minutes)
            && tm.hour == cur % DAY / 60
  {
    hide DateOf;
  }

  /** The jumps within a month, in minutes. */
  lemma {:induction false} Jumps(cur: int)
    ensures var tm := LocalTime(cur);
            && MkTime(tm.(hour := 0, min := 0, mday := tm.mday + 1)) == (cur / DAY + 1) * DAY
            && MkTime(tm.(min := 0, hour := tm.hour + 1)) == cur / DAY * DAY + (cur % DAY / 60 + 1) * 60
            && MkTime(tm.(min := tm.min + 1)) == cur + 1
  {
    hide DateOf, DaysBeforeYear, DaysBeforeMonth;
  }

  /** The carry at the head of the loop changes the representation only. */
  function Carry(tm: Tm): Tm {
    var tm := if tm.min >= 60 then tm.(min := 0, hour := tm.hour + 1) else tm;
    if tm.hour >= 24 then tm.(hour := 0, mday := tm.mday + 1) else tm
  }

  lemma {:induction false} CarrySame(tm: Tm)
    requires tm.min <= 60 && tm.hour <= 24 && (tm.hour == 24 ==> tm.min == 0)
    ensures MkTime(Carry(tm)) == MkTime(tm)
  {
    hide DaysBeforeYear, DaysBeforeMonth;
  }

  /** A minute matches by its date, weekday, hour and minute, as written in the five fields. */
  lemma {:induction false} MatchesByDate(c: Fields, d: Date, hour: nat, min: nat)
    requires IsDate(d) && hour < 24 && min < 60
    ensures Matches(c, DayNumber(d.year, d.mon, d.mday) * DAY + hour * 60 + min) <==>
              && d.mon + 1 in c.months && d.mday in c.daysOfMonth
              && (DaysFromCivil(d.year, d.mon + 1, d.mday) + 4) % 7 in c.daysOfWeek
              && hour in c.hours && min in c.minutes
  {
    hide DateOf, DaysFromCivil, DayNumber;
    var day := DayNumber(d.year, d.mon, d.mday);
    DateUnique(d);
    AgreesWithCivilFormula(d.year, d.mon, d.mday);
    MinuteParts(day, hour, min);
    assert day % 7 == (day - EPOCH_DAY + 4) % 7;
  }

  /** The default expression matches every minute, without the unused bits 0. */
  lemma {:induction false} EveryMatchesAlways(m: int)
    ensures Matches(Every(), m) && 0 !in Every().daysOfMonth && 0 !in Every().months
  {
    hide DateOf, Upto;
  }

  /** The minute in which second `t` of UTC falls locally. */
  function LocalMinute(t: int, utcOffset: int): int { (t + utcOffset) / 60 + EPOCH_DAY * DAY }

  /** The second of UTC at which a local minute begins. */
  function StartOf(m: int, utcOffset: int): int { (m - EPOCH_DAY * DAY) * 60 - utcOffset }

  /** A second lies in its minute: not before its start, and before the start of the next. */
  lemma {:induction false} MinuteContains(t: int, utcOffset: int)
    ensures StartOf(LocalMinute(t, utcOffset), utcOffset) <= t < StartOf(LocalMinute(t, utcOffset) + 1, utcOffset)
  {}

  /** Later minutes start later, and 60 seconds apart. */
  lemma {:induction false} StartsApart(m: int, n: int, utcOffset: int)
    ensures StartOf(n, utcOffset) - StartOf(m, utcOffset) == 60 * (n - m)
  {}

  /** Seconds of 1 January 1970, at any offset from UTC, are broken down as such: a Thursday. */
  lemma {:induction false} FirstDay(t: int, utcOffset: int)
    requires 0 <= t + utcOffset < 86400
    ensures LocalTime(LocalMinute(t, utcOffset)) == Tm(1970, 0, 1, (t + utcOffset) / 3600, (t + utcOffset) / 60 % 60, 4)
  {
    hide DateOf;
    var m := LocalMinute(t, utcOffset);
    var s := (t + utcOffset) / 60;
    assert m == EPOCH_DAY * DAY + s && 0 <= s < DAY;
    assert m / DAY == EPOCH_DAY && m % DAY == s;
    Anchor(m / DAY);
  }

  /** A match with none in between starts before every other that starts after the given second. */
  lemma {:induction false} LeastStart(c: Fields, after: int, utcOffset: int, cur: int)
    requires cur > LocalMinute(after, utcOffset) && NoneIn(c, LocalMinute(after, utcOffset) + 1, cur)
    ensures StartOf(cur, utcOffset) > after
    ensures forall m :: Matches(c, m) && StartOf(m, utcOffset) > after ==> StartOf(cur, utcOffset) <= StartOf(m, utcOffset)
  {
    hide Matches, LocalMinute, StartOf;
    var first := LocalMinute(after, utcOffset);
    MinuteContains(after, utcOffset);
    StartsApart(first + 1, cur, utcOffset);
    forall m | Matches(c, m) && StartOf(m, utcOffset) > after ensures StartOf(cur, utcOffset) <= StartOf(m, utcOffset) {
      StartsApart(first, m, utcOffset);
      StartsApart(cur, m, utcOffset);
    }
  }

  lemma {:induction false} NothingMatches(c: Fields)
    requires !Satisfiable(c)
    ensures forall m :: !Matches(c, m)
  {
    hide Matches;
  }

  /** A cron expression: five bit sets. */
  class CronExpression {
    var minutes: set<nat>
    var hours: set<nat>
    var daysOfMonth: set<nat>
    var months: set<nat>
    var daysOfWeek: set<nat>

    ghost function View(): Fields
      reads this
    {
      Fields(minutes, hours, daysOfMonth, months, daysOfWeek)
    }

    /** The default expression matches every minute; bit 0 of days and months stays clear. */
    constructor ()
      ensures View() == Every()
    {
      minutes, hours, daysOfWeek := Upto(59), Upto(23), Upto(6);
      daysOfMonth, months := Upto(31) - {0}, Upto(12) - {0};
    }

    /**
     The start of the first matching minute that starts after second `after`; None (the source's
     exception) exactly when no minute matches at all, in the past or in the future.
     */
    method NextAfter(after: int, utcOffset: int) returns (r: Option<int>)
      ensures r.None? <==> !Satisfiable(View())
      ensures r.Some? ==> r.value > after && exists m :: r.value == StartOf(m, utcOffset) && Matches(View(), m)
      ensures forall m :: Matches(View(), m) && StartOf(m, utcOffset) > after ==>
                r.Some? && r.value <= StartOf(m, utcOffset)
    {
      hide Matches, Satisfiable, NoneIn, OnSchedule, Moves, MkTime, LocalTime, LocalMinute, StartOf;
      ghost var c := View();
      var tm := LocalTime(LocalMinute(after, utcOffset));
      Jumps(LocalMinute(after, utcOffset));
      tm := tm.(min := tm.min + 1);
      ghost var start := MkTime(tm);
      NothingYet(c, start);
      for iterations := 0 to LIMIT
        invariant tm.mon < 12 && 0 <= tm.hour <= 24 && 0 <= tm.min <= 60 && (tm.hour == 24 ==> tm.min == 0)
        invariant start <= MkTime(tm) && NoneIn(c, start, MkTime(tm)) && OnSchedule(c, start, MkTime(tm), iterations)
      {
        CarrySame(tm);
        if tm.min >= 60 { tm := tm.(min := 0, hour := tm.hour + 1); }
        if tm.hour >= 24 { tm := tm.(hour := 0, mday := tm.mday + 1); }
        var check := MkTime(tm);
        tm := LocalTime(check);
        if tm.mon + 1 !in months {
          tm := if tm.mon == 11 then Tm(tm.year + 1, 0, 1, 0, 0, tm.wday) else Tm(tm.year, tm.mon + 1, 1, 0, 0, tm.wday);
          SkipMonth(c, check, MkTime(tm));
        } else if tm.mday !in daysOfMonth || tm.wday !in daysOfWeek {
          tm := tm.(hour := 0, min := 0, mday := tm.mday + 1);
          SkipDay(c, check, MkTime(tm));
        } else if tm.hour !in hours {
          tm := tm.(min := 0, hour := tm.hour + 1);
          SkipHour(c, check, MkTime(tm));
        } else if tm.min !in minutes {
          tm := tm.(min := tm.min + 1);
          SkipMinute(c, check, MkTime(tm));
        } else {
          Found(c, check);
          LeastStart(c, after, utcOffset, check);
          return Some(StartOf(check, utcOffset));
        }
        StaysOnSchedule(c, start, check, MkTime(tm), iterations);
      }
      GivesUpOnlyInVain(c, start, MkTime(tm));
      NothingMatches(c);
      return None;
    }
  }

  /** A bit set with bits 0 to n set. */
  function Upto(n: nat): (s: set<nat>)
    ensures forall i: nat :: i in s <==> i <= n
  {
    if n == 0 then {0} else Upto(n - 1) + {n}
  }

  function Every(): Fields { Fields(Upto(59), Upto(23), Upto(31) - {0}, Upto(12) - {0}, Upto(6)) }
}
