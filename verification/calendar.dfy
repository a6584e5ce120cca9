/** Proleptic Gregorian calendar arithmetic as Python's `datetime.date` and
    `calendar.Calendar` perform it: leap years, month lengths, the ordinal
    day number, the Monday-based weekday, and the Sunday-first month grid
    that the app iterates over. */
module Calendar {

  /** A calendar day, like `datetime.date`. */
  datatype Date = Date(year: int, month: int, day: int)

  /** `datetime.MINYEAR` and `datetime.MAXYEAR`. */
  const MinYear := 1
  const MaxYear := 9999

  /** The years the app's year input offers (app.py:31). */
  const FirstAppYear := 1900
  const LastAppYear := 2100

  predicate AppYear(y: int) {
    FirstAppYear <= y <= LastAppYear
  }

  /** The first column of the app's month grid: `calendar.Calendar(firstweekday=6)`,
      where 6 is Sunday in Python's Monday=0 numbering. */
  const FirstWeekday := 6

  predicate IsLeap(y: int) {
    y % 4 == 0 && (y % 100 != 0 || y % 400 == 0)
  }

  predicate ValidMonth(y: int, m: int) {
    MinYear <= y <= MaxYear && 1 <= m <= 12
  }

  function DaysInMonth(y: int, m: int): (n: int)
    requires 1 <= m <= 12
    ensures 28 <= n <= 31
    ensures n == 29 <==> m == 2 && IsLeap(y)
    ensures n == 28 <==> m == 2 && !IsLeap(y)
  {
    if m == 2 then (if IsLeap(y) then 29 else 28)
    else if m == 4 || m == 6 || m == 9 || m == 11 then 30
    else 31
  }

  /** A date `datetime.date` accepts. */
  predicate ValidDate(d: Date) {
    ValidMonth(d.year, d.month) && 1 <= d.day <= DaysInMonth(d.year, d.month)
  }

  function YearLength(y: int): int {
    if IsLeap(y) then 366 else 365
  }

  /** The number of leap years among years 1 to `p`. */
  function LeapYearsUpTo(p: int): int {
    p / 4 - p / 100 + p / 400
  }

  /** Days in the years before `y`, counted from 1 January of year 1. */
  function DaysBeforeYear(y: int): int
    requires y >= 1
  {
    (y - 1) * 365 + LeapYearsUpTo(y - 1)
  }

  /** Days in the months of year `y` before month `m`. */
  function DaysBeforeMonth(y: int, m: int): (n: int)
    requires 1 <= m <= 12
    ensures 0 <= n <= 335
  {
    var table := [0, 31, 59, 90, 120, 151, 181, 212, 243, 273, 304, 334];
    table[m - 1] + (if m > 2 && IsLeap(y) then 1 else 0)
  }

  /** The day number of `Date(y, m, d)` with 1 January of year 1 as day 1,
      like `date.toordinal()`; also defined for `d` outside the month so that
      arithmetic on consecutive days stays uniform. */
  function Ordinal(y: int, m: int, d: int): int
    requires ValidMonth(y, m)
  {
    DaysBeforeYear(y) + DaysBeforeMonth(y, m) + d
  }

  /** `date.weekday()`: Monday is 0 and Sunday is 6. */
  function Weekday(d: Date): (w: int)
    requires ValidMonth(d.year, d.month)
    ensures 0 <= w < 7
  {
    (Ordinal(d.year, d.month, d.day) + 6) % 7
  }

  function PrevMonth(y: int, m: int): (r: (int, int))
    requires ValidMonth(y, m) && y > MinYear
    ensures ValidMonth(r.0, r.1)
    ensures r.0 * 12 + r.1 == y * 12 + m - 1
  {
    if m == 1 then (y - 1, 12) else (y, m - 1)
  }

  function NextMonth(y: int, m: int): (r: (int, int))
    requires ValidMonth(y, m) && y < MaxYear
    ensures ValidMonth(r.0, r.1)
    ensures r.0 * 12 + r.1 == y * 12 + m + 1
  {
    if m == 12 then (y + 1, 1) else (y, m + 1)
  }

  /** The days of month `m` of year `y`, from day `d` onwards, in order. */
  function MonthDaysFrom(y: int, m: int, d: int): (ds: seq<Date>)
    requires ValidMonth(y, m) && 1 <= d <= DaysInMonth(y, m) + 1
    ensures |ds| == DaysInMonth(y, m) + 1 - d
    ensures forall i :: 0 <= i < |ds| ==> ValidDate(ds[i]) && ds[i] == Date(y, m, d + i)
  {
    seq(DaysInMonth(y, m) + 1 - d, i requires 0 <= i => Date(y, m, d + i))
  }

  /** `calendar.Calendar(firstweekday=6).itermonthdates(y, m)`: the days of the
      month padded at the front with the tail of the previous month and at
      the back with the head of the next month, so that the grid starts on a
      Sunday and fills whole weeks. */
  function MonthGrid(y: int, m: int): (g: seq<Date>)
    requires ValidMonth(y, m) && MinYear < y < MaxYear
    ensures |g| % 7 == 0 && 28 <= |g| <= 42
    ensures forall i :: 0 <= i < |g| ==> ValidDate(g[i])
  {
    var day1 := Weekday(Date(y, m, 1));
    var n := DaysInMonth(y, m);
    var before := (day1 - FirstWeekday) % 7;
    var after := (FirstWeekday - day1 - n) % 7;
    var prev := PrevMonth(y, m);
    var next := NextMonth(y, m);
    var end := DaysInMonth(prev.0, prev.1) + 1;
    var head := seq(before, i requires 0 <= i => Date(prev.0, prev.1, end - before + i));
    var tail := seq(after, i requires 0 <= i => Date(next.0, next.1, i + 1));
    assert (before + n + after) % 7 == 0 by {
      ModSumZero(day1, n);
    }
    head + MonthDaysFrom(y, m, 1) + tail
  }

  lemma ModSumZero(a: int, n: int)
    ensures ((a - FirstWeekday) % 7 + n + (FirstWeekday - a - n) % 7) % 7 == 0
  {
  }

  /** Consecutive days of one month fall on consecutive weekdays. */
  lemma WeekdayNext(y: int, m: int, d: int)
    requires ValidMonth(y, m)
    ensures Weekday(Date(y, m, d + 1)) == (Weekday(Date(y, m, d)) + 1) % 7
  {
  }

  /** 1 January 1900, the earliest year the app offers, was a Monday. */
  lemma FirstDayOf1900IsMonday()
    ensures Weekday(Date(1900, 1, 1)) == 0
  {
  }

  /** The Gregorian cycle: 400 years later the leap rule, the month lengths
      and the weekdays all repeat, because 400 years hold 97 leap years and
      146097 days, a whole number of weeks. */
  lemma GregorianCycle(y: int, m: int, d: int)
    requires ValidMonth(y, m) && ValidMonth(y + 400, m)
    ensures IsLeap(y + 400) == IsLeap(y)
    ensures DaysInMonth(y + 400, m) == DaysInMonth(y, m)
    ensures Weekday(Date(y + 400, m, d)) == Weekday(Date(y, m, d))
  {
    assert (y + 400) % 4 == y % 4 && (y + 400) % 100 == y % 100 && (y + 400) % 400 == y % 400;
    var p := y - 1;
    assert (p + 400) / 4 == p / 4 + 100 && (p + 400) / 100 == p / 100 + 4 && (p + 400) / 400 == p / 400 + 1;
    assert LeapYearsUpTo(p + 400) == LeapYearsUpTo(p) + 97;
    var o := Ordinal(y, m, d);
    assert Ordinal(y + 400, m, d) == o + 7 * 20871;
    assert (o + 7 * 20871 + 6) % 7 == (o + 6) % 7;
  }

  /** One year contributes its own length to the ordinal count. */
  lemma {:induction false} DaysBeforeNextYear(y: int)
    requires y >= 1
    ensures DaysBeforeYear(y + 1) == DaysBeforeYear(y) + YearLength(y)
  {
    LeapYearsStep(y);
  }

  lemma LeapYearsStep(y: int)
    requires y >= 1
    ensures LeapYearsUpTo(y) == LeapYearsUpTo(y - 1) + (if IsLeap(y) then 1 else 0)
  {
    DivStep(y, 4);
    DivStep(y, 100);
    DivStep(y, 400);
  }

  lemma DivStep(y: int, k: int)
    requires y >= 1 && (k == 4 || k == 100 || k == 400)
    ensures y / k == (y - 1) / k + (if y % k == 0 then 1 else 0)
  {
    if k == 4 {
      assert y == 4 * (y / 4) + y % 4;
      assert y - 1 == 4 * ((y - 1) / 4) + (y - 1) % 4;
    } else if k == 100 {
      assert y == 100 * (y / 100) + y % 100;
      assert y - 1 == 100 * ((y - 1) / 100) + (y - 1) % 100;
    } else {
      assert y == 400 * (y / 400) + y % 400;
      assert y - 1 == 400 * ((y - 1) / 400) + (y - 1) % 400;
    }
  }

  /** The day after the last day of the previous month is the first of this month. */
  lemma {:induction false} MonthBoundary(y: int, m: int)
    requires ValidMonth(y, m) && y > MinYear
    ensures var p := PrevMonth(y, m);
      Ordinal(p.0, p.1, DaysInMonth(p.0, p.1) + 1) == Ordinal(y, m, 1)
  {
    if m == 1 {
      DaysBeforeNextYear(y - 1);
    }
  }

  /** The grid starts on a Sunday, the first column of the app's calendar. */
  lemma {:induction false} GridStartsOnSunday(y: int, m: int)
    requires ValidMonth(y, m) && MinYear < y < MaxYear
    ensures Weekday(MonthGrid(y, m)[0]) == FirstWeekday
  {
    var o1 := Ordinal(y, m, 1);
    var before := (Weekday(Date(y, m, 1)) - FirstWeekday) % 7;
    var prev := PrevMonth(y, m);
    var end := DaysInMonth(prev.0, prev.1) + 1;
    GridFirst(y, m);
    ShiftBackToSunday(o1);
    if before != 0 {
      MonthBoundary(y, m);
      assert Ordinal(prev.0, prev.1, end - before) == o1 - before;
    }
  }

  lemma GridFirst(y: int, m: int)
    requires ValidMonth(y, m) && MinYear < y < MaxYear
    ensures var before := (Weekday(Date(y, m, 1)) - FirstWeekday) % 7;
      var prev := PrevMonth(y, m);
      MonthGrid(y, m)[0] ==
        if before == 0 then Date(y, m, 1)
        else Date(prev.0, prev.1, DaysInMonth(prev.0, prev.1) + 1 - before)
  {
  }

  lemma ShiftBackToSunday(o: int)
    ensures (o - ((o + 6) % 7 - FirstWeekday) % 7 + 6) % 7 == FirstWeekday
  {
  }

  /** Every day of the month occurs in the grid, in order, right after the
      leading days of the previous month; no other grid day is in month `m`. */
  lemma {:induction false} GridHoldsTheMonth(y: int, m: int)
    requires ValidMonth(y, m) && MinYear < y < MaxYear
    ensures var g := MonthGrid(y, m);
      var before := (Weekday(Date(y, m, 1)) - FirstWeekday) % 7;
      && before + DaysInMonth(y, m) <= |g|
      && g[before..before + DaysInMonth(y, m)] == MonthDaysFrom(y, m, 1)
      && (forall i :: 0 <= i < before ==> g[i].month != m)
      && (forall i :: before + DaysInMonth(y, m) <= i < |g| ==> g[i].month != m)
  {
  }
}
