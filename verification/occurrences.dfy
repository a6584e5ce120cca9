/** The dates of one month that fall on one weekday (app.py:164): the app
    walks the Sunday-first month grid and keeps the days of the chosen month
    whose `weekday()` is the block's weekday number. They are proved to be
    exactly the arithmetic progression that starts at the first such day and
    steps by a week, which gives the 4-or-5 count, the ordering and
    completeness. */
module Occurrences {
  import opened Calendar

  /** The dates of `ds` in month `m` whose weekday is `wd`, in the order of `ds`:
      the comprehension `[d for d in month_dates if d.month == m and d.weekday() == wd]`. */
  function Select(ds: seq<Date>, m: int, wd: int): (r: seq<Date>)
    requires forall i :: 0 <= i < |ds| ==> ValidDate(ds[i])
    ensures |r| <= |ds|
    ensures forall i :: 0 <= i < |r| ==> r[i] in ds
    ensures forall i :: 0 <= i < |r| ==> ValidDate(r[i]) && r[i].month == m && Weekday(r[i]) == wd
  {
    if |ds| == 0 then []
    else
      var d := ds[0];
      assert ValidDate(d);
      (if d.month == m && Weekday(d) == wd then [d] else []) + Select(ds[1..], m, wd)
  }

  /** The dates on weekday `wd` (Monday = 0) in month `m` of year `y`, as the
      app derives them from its month grid. */
  function MonthOccurrences(y: int, m: int, wd: int): (occ: seq<Date>)
    requires ValidMonth(y, m) && MinYear < y < MaxYear
    ensures forall i :: 0 <= i < |occ| ==> occ[i] in MonthGrid(y, m)
    ensures forall i :: 0 <= i < |occ| ==> ValidDate(occ[i]) && occ[i].month == m && Weekday(occ[i]) == wd
  {
    Select(MonthGrid(y, m), m, wd)
  }

  /** Reference definition: the days `s`, `s + 7`, `s + 14`, ... of the month. */
  function Progression(y: int, m: int, s: int): seq<Date>
    requires ValidMonth(y, m) && s >= 1
    decreases DaysInMonth(y, m) - s
  {
    if s > DaysInMonth(y, m) then [] else [Date(y, m, s)] + Progression(y, m, s + 7)
  }

  /** The first day on or after day `d` whose weekday is `wd`. */
  function Start(y: int, m: int, d: int, wd: int): int
    requires ValidMonth(y, m)
  {
    d + (wd - Weekday(Date(y, m, d))) % 7
  }

  lemma {:induction false} SelectAppend(a: seq<Date>, b: seq<Date>, m: int, wd: int)
    requires forall i :: 0 <= i < |a| ==> ValidDate(a[i])
    requires forall i :: 0 <= i < |b| ==> ValidDate(b[i])
    ensures Select(a + b, m, wd) == Select(a, m, wd) + Select(b, m, wd)
    decreases |a|
  {
    if |a| > 0 {
      assert (a + b)[1..] == a[1..] + b;
      SelectAppend(a[1..], b, m, wd);
    } else {
      assert a + b == b;
    }
  }

  lemma {:induction false} SelectOtherMonths(a: seq<Date>, m: int, wd: int)
    requires forall i :: 0 <= i < |a| ==> ValidDate(a[i]) && a[i].month != m
    ensures Select(a, m, wd) == []
    decreases |a|
  {
    if |a| > 0 {
      SelectOtherMonths(a[1..], m, wd);
    }
  }

  /** Day `d + k` is `k` weekdays after day `d` of the same month. */
  lemma WeekdayShift(y: int, m: int, d: int, k: int)
    requires ValidMonth(y, m)
    ensures Weekday(Date(y, m, d + k)) == (Weekday(Date(y, m, d)) + k) % 7
  {
    var o := Ordinal(y, m, d);
    assert Ordinal(y, m, d + k) == o + k;
    ModAdd(o + 6, k);
  }

  lemma ModAdd(a: int, k: int)
    ensures (a + k) % 7 == (a % 7 + k) % 7
  {
    assert a == 7 * (a / 7) + a % 7;
    assert a + k == 7 * (a / 7) + (a % 7 + k);
    assert a % 7 + k == 7 * ((a % 7 + k) / 7) + (a % 7 + k) % 7;
    assert a + k == 7 * ((a + k) / 7) + (a + k) % 7;
  }

  lemma StartStep(a: int, wd: int)
    requires 0 <= a < 7 && 0 <= wd < 7
    ensures a == wd ==> (wd - (a + 1) % 7) % 7 == 6
    ensures a != wd ==> (wd - (a + 1) % 7) % 7 + 1 == (wd - a) % 7
  {
  }

  /** Filtering the days from `d` onwards yields the progression from the
      first matching day at or after `d`. */
  lemma {:induction false} SelectMonthDays(y: int, m: int, wd: int, d: int)
    requires ValidMonth(y, m) && 0 <= wd < 7 && 1 <= d <= DaysInMonth(y, m) + 1
    ensures Select(MonthDaysFrom(y, m, d), m, wd) == Progression(y, m, Start(y, m, d, wd))
    decreases DaysInMonth(y, m) + 1 - d
  {
    if d <= DaysInMonth(y, m) {
      var ds := MonthDaysFrom(y, m, d);
      MonthDaysTail(y, m, d);
      SelectMonthDays(y, m, wd, d + 1);
      StartNext(y, m, d, wd);
      SelectHead(ds, m, wd);
      if Weekday(Date(y, m, d)) == wd {
        ProgressionHead(y, m, d);
      }
    }
  }

  /** One step of the filter. */
  lemma SelectHead(ds: seq<Date>, m: int, wd: int)
    requires 0 < |ds| && forall i :: 0 <= i < |ds| ==> ValidDate(ds[i])
    ensures ValidDate(ds[0])
    ensures ds[0].month == m && Weekday(ds[0]) == wd ==> Select(ds, m, wd) == [ds[0]] + Select(ds[1..], m, wd)
    ensures !(ds[0].month == m && Weekday(ds[0]) == wd) ==> Select(ds, m, wd) == Select(ds[1..], m, wd)
  {
  }

  /** One step of the progression. */
  lemma ProgressionHead(y: int, m: int, s: int)
    requires ValidMonth(y, m) && 1 <= s <= DaysInMonth(y, m)
    ensures Progression(y, m, s) == [Date(y, m, s)] + Progression(y, m, s + 7)
  {
  }

  lemma MonthDaysTail(y: int, m: int, d: int)
    requires ValidMonth(y, m) && 1 <= d <= DaysInMonth(y, m)
    ensures MonthDaysFrom(y, m, d)[0] == Date(y, m, d)
    ensures MonthDaysFrom(y, m, d)[1..] == MonthDaysFrom(y, m, d + 1)
  {
  }

  /** How the first matching day moves when the search starts one day later. */
  lemma StartNext(y: int, m: int, d: int, wd: int)
    requires ValidMonth(y, m) && 0 <= wd < 7
    ensures Weekday(Date(y, m, d)) == wd ==> Start(y, m, d, wd) == d && Start(y, m, d + 1, wd) == d + 7
    ensures Weekday(Date(y, m, d)) != wd ==> Start(y, m, d + 1, wd) == Start(y, m, d, wd)
  {
    var a := Weekday(Date(y, m, d));
    WeekdayShift(y, m, d, 1);
    StartStep(a, wd);
  }

  lemma {:induction false} ProgressionShape(y: int, m: int, s: int)
    requires ValidMonth(y, m) && s >= 1
    ensures var p := Progression(y, m, s);
      && |p| == (if s > DaysInMonth(y, m) then 0 else (DaysInMonth(y, m) - s) / 7 + 1)
      && forall j :: 0 <= j < |p| ==> p[j] == Date(y, m, s + 7 * j)
    decreases DaysInMonth(y, m) - s
  {
    var n := DaysInMonth(y, m);
    if s <= n {
      ProgressionShape(y, m, s + 7);
      var p := Progression(y, m, s);
      var q := Progression(y, m, s + 7);
      assert p == [Date(y, m, s)] + q;
      assert (n - s) / 7 == (if s + 7 > n then 0 else (n - s - 7) / 7 + 1) by {
        assert n - s == 7 * ((n - s) / 7) + (n - s) % 7;
        if s + 7 <= n {
          assert n - s - 7 == 7 * ((n - s - 7) / 7) + (n - s - 7) % 7;
        }
      }
      forall j | 1 <= j < |p|
        ensures p[j] == Date(y, m, s + 7 * j)
      {
        assert p[j] == q[j - 1];
      }
    }
  }

  /** The app's filtered grid is the progression from the month's first day
      with weekday `wd`, and that first day is one of days 1 to 7. */
  lemma {:induction false} OccurrencesAreProgression(y: int, m: int, wd: int)
    requires ValidMonth(y, m) && MinYear < y < MaxYear && 0 <= wd < 7
    ensures 1 <= Start(y, m, 1, wd) <= 7
    ensures MonthOccurrences(y, m, wd) == Progression(y, m, Start(y, m, 1, wd))
  {
    var g := MonthGrid(y, m);
    var n := DaysInMonth(y, m);
    var before := (Weekday(Date(y, m, 1)) - FirstWeekday) % 7;
    GridHoldsTheMonth(y, m);
    var a, b, c := g[..before], g[before..before + n], g[before + n..];
    assert g == a + b + c;
    SelectBetween(a, b, c, m, wd);
    SelectMonthDays(y, m, wd, 1);
  }

  /** Filtering ignores the days of other months on either side. */
  lemma SelectBetween(a: seq<Date>, b: seq<Date>, c: seq<Date>, m: int, wd: int)
    requires forall i :: 0 <= i < |a| ==> ValidDate(a[i]) && a[i].month != m
    requires forall i :: 0 <= i < |b| ==> ValidDate(b[i])
    requires forall i :: 0 <= i < |c| ==> ValidDate(c[i]) && c[i].month != m
    ensures Select(a + b + c, m, wd) == Select(b, m, wd)
  {
    var ab := a + b;
    assert forall i :: 0 <= i < |ab| ==> ValidDate(ab[i]) by {
      forall i | 0 <= i < |ab|
        ensures ValidDate(ab[i])
      {
        if i < |a| { assert ab[i] == a[i]; } else { assert ab[i] == b[i - |a|]; }
      }
    }
    SelectOtherMonths(a, m, wd);
    SelectOtherMonths(c, m, wd);
    SelectAppend(a, b, m, wd);
    assert Select(ab, m, wd) == Select(b, m, wd);
    SelectAppend(ab, c, m, wd);
  }

  /** The occurrences are the days `first`, `first + 7`, ... of the month,
      where `first` is one of days 1 to 7. */
  lemma {:induction false} OccurrenceDays(y: int, m: int, wd: int)
    requires ValidMonth(y, m) && MinYear < y < MaxYear && 0 <= wd < 7
    ensures var occ := MonthOccurrences(y, m, wd);
      var first := Start(y, m, 1, wd);
      && 1 <= first <= 7
      && |occ| == (DaysInMonth(y, m) - first) / 7 + 1
      && forall j :: 0 <= j < |occ| ==> occ[j] == Date(y, m, first + 7 * j)
  {
    OccurrencesAreProgression(y, m, wd);
    ProgressionShape(y, m, Start(y, m, 1, wd));
  }

  /** Every weekday occurs 4 or 5 times in a month. */
  lemma {:induction false} OccurrenceCount(y: int, m: int, wd: int)
    requires ValidMonth(y, m) && MinYear < y < MaxYear && 0 <= wd < 7
    ensures 4 <= |MonthOccurrences(y, m, wd)| <= 5
  {
    var n := DaysInMonth(y, m);
    var first := Start(y, m, 1, wd);
    OccurrenceDays(y, m, wd);
    assert n - first == 7 * ((n - first) / 7) + (n - first) % 7;
  }

  /** Each occurrence is a real day of the chosen month on the chosen weekday. */
  lemma {:induction false} OccurrencesMatch(y: int, m: int, wd: int)
    requires ValidMonth(y, m) && MinYear < y < MaxYear && 0 <= wd < 7
    ensures var occ := MonthOccurrences(y, m, wd);
      forall j :: 0 <= j < |occ| ==>
        ValidDate(occ[j]) && occ[j].year == y && occ[j].month == m && Weekday(occ[j]) == wd
  {
    var occ := MonthOccurrences(y, m, wd);
    var first := Start(y, m, 1, wd);
    OccurrenceDays(y, m, wd);
    StartMatches(y, m, wd);
    forall j | 0 <= j < |occ|
      ensures ValidDate(occ[j]) && occ[j].year == y && occ[j].month == m && Weekday(occ[j]) == wd
    {
      WeekdayShift(y, m, first, 7 * j);
      ModWeek(Weekday(Date(y, m, first)), j);
    }
  }

  /** The first matching day does fall on the chosen weekday. */
  lemma StartMatches(y: int, m: int, wd: int)
    requires ValidMonth(y, m) && 0 <= wd < 7
    ensures Weekday(Date(y, m, Start(y, m, 1, wd))) == wd
  {
    var w1 := Weekday(Date(y, m, 1));
    WeekdayShift(y, m, 1, (wd - w1) % 7);
    ModCancel(w1, wd);
  }

  lemma ModCancel(a: int, b: int)
    requires 0 <= a < 7 && 0 <= b < 7
    ensures (a + (b - a) % 7) % 7 == b
  {
    if a <= b {
      assert (b - a) % 7 == b - a;
    } else {
      assert (b - a) % 7 == b - a + 7;
    }
  }

  lemma ModWeek(a: int, j: int)
    requires 0 <= a < 7
    ensures (a + 7 * j) % 7 == a
  {
  }

  /** The occurrences are in strictly ascending order, a week apart. */
  lemma {:induction false} OccurrencesAscend(y: int, m: int, wd: int)
    requires ValidMonth(y, m) && MinYear < y < MaxYear && 0 <= wd < 7
    ensures var occ := MonthOccurrences(y, m, wd);
      forall i, j :: 0 <= i < j < |occ| ==> occ[i].day < occ[j].day
  {
    OccurrenceDays(y, m, wd);
  }

  /** No day of the month on the chosen weekday is missed. */
  lemma {:induction false} OccurrencesComplete(y: int, m: int, wd: int, dt: Date)
    requires ValidMonth(y, m) && MinYear < y < MaxYear && 0 <= wd < 7
    requires ValidDate(dt) && dt.year == y && dt.month == m && Weekday(dt) == wd
    ensures dt in MonthOccurrences(y, m, wd)
  {
    var g := MonthGrid(y, m);
    var before := (Weekday(Date(y, m, 1)) - FirstWeekday) % 7;
    GridHoldsTheMonth(y, m);
    var days := g[before..before + DaysInMonth(y, m)];
    assert days[dt.day - 1] == dt;
    assert g[before + dt.day - 1] == dt;
    SelectKeeps(g, m, wd, before + dt.day - 1);
  }

  /** Filtering keeps every date that passes the test. */
  lemma {:induction false} SelectKeeps(ds: seq<Date>, m: int, wd: int, k: int)
    requires forall i :: 0 <= i < |ds| ==> ValidDate(ds[i])
    requires 0 <= k < |ds| && ValidDate(ds[k]) && ds[k].month == m && Weekday(ds[k]) == wd
    ensures ds[k] in Select(ds, m, wd)
    decreases k
  {
    if k > 0 {
      SelectKeeps(ds[1..], m, wd, k - 1);
      assert ds[1..][k - 1] == ds[k];
    }
  }
}
