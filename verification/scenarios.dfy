/** Worked cases of the schedule for concrete months and inputs. */
module Scenarios {
  import opened Options
  import opened Calendar
  import opened Text
  import opened Occurrences
  import opened Display
  import opened Holidays
  import opened Blocks

  /** A weekday whose first day in the month is `s` and that occurs five times. */
  lemma {:induction false} FiveOccurrences(y: int, m: int, wd: int, s: int)
    requires ValidMonth(y, m) && MinYear < y < MaxYear && 0 <= wd < 7
    requires s == Start(y, m, 1, wd) && s + 28 <= DaysInMonth(y, m)
    ensures MonthOccurrences(y, m, wd)
      == [Date(y, m, s), Date(y, m, s + 7), Date(y, m, s + 14), Date(y, m, s + 21), Date(y, m, s + 28)]
  {
    OccurrenceDays(y, m, wd);
    WeeksOf(MonthOccurrences(y, m, wd), y, m, s, DaysInMonth(y, m));
  }

  /** A weekday whose first day in the month is `s` and that occurs four times. */
  lemma {:induction false} FourOccurrences(y: int, m: int, wd: int, s: int)
    requires ValidMonth(y, m) && MinYear < y < MaxYear && 0 <= wd < 7
    requires s == Start(y, m, 1, wd) && DaysInMonth(y, m) < s + 28
    ensures MonthOccurrences(y, m, wd) == [Date(y, m, s), Date(y, m, s + 7), Date(y, m, s + 14), Date(y, m, s + 21)]
  {
    OccurrenceDays(y, m, wd);
    WeeksOf(MonthOccurrences(y, m, wd), y, m, s, DaysInMonth(y, m));
  }

  /** The days `s`, `s + 7`, ... up to day `n`, listed. */
  lemma WeeksOf(occ: seq<Date>, y: int, m: int, s: int, n: int)
    requires 1 <= s <= 7 && 28 <= n <= 31
    requires |occ| == (n - s) / 7 + 1
    requires forall j :: 0 <= j < |occ| ==> occ[j] == Date(y, m, s + 7 * j)
    ensures n < s + 28 ==> occ == [Date(y, m, s), Date(y, m, s + 7), Date(y, m, s + 14), Date(y, m, s + 21)]
    ensures s + 28 <= n ==> occ == [Date(y, m, s), Date(y, m, s + 7), Date(y, m, s + 14), Date(y, m, s + 21), Date(y, m, s + 28)]
  {
    assert n - s == 7 * ((n - s) / 7) + (n - s) % 7;
    if n < s + 28 {
      assert |occ| == 4;
    } else {
      assert |occ| == 5;
    }
  }

  /** March 2024 has five Saturdays, the first on the 2nd. */
  lemma {:induction false} SaturdaysOfMarch2024()
    ensures BlockDates(Sabado, 2024, 3)
      == [Date(2024, 3, 2), Date(2024, 3, 9), Date(2024, 3, 16), Date(2024, 3, 23), Date(2024, 3, 30)]
  {
    assert Weekday(Date(2024, 3, 1)) == 4;
    FiveOccurrences(2024, 3, 5, 2);
  }

  /** February 2024, although a leap month, has four Sundays. */
  lemma {:induction false} SundaysOfFebruary2024()
    ensures BlockDates(Domingo, 2024, 2) == [Date(2024, 2, 4), Date(2024, 2, 11), Date(2024, 2, 18), Date(2024, 2, 25)]
  {
    assert Weekday(Date(2024, 2, 1)) == 3;
    FourOccurrences(2024, 2, 6, 4);
  }

  /** December 2024 has four Wednesdays, starting on the 4th. */
  lemma {:induction false} WednesdaysOfDecember2024()
    ensures BlockDates(QuartaFeira, 2024, 12)
      == [Date(2024, 12, 4), Date(2024, 12, 11), Date(2024, 12, 18), Date(2024, 12, 25)]
  {
    assert Weekday(Date(2024, 12, 1)) == 6;
    FourOccurrences(2024, 12, 2, 4);
  }

  lemma TwoDigits(n: int)
    requires 0 <= n < 100
    ensures Padded(n, 2) == [DigitChar(n / 10), DigitChar(n % 10)]
  {
    assert Padded(n, 2) == Padded(n / 10, 1) + [DigitChar(n % 10)];
    assert n / 10 / 10 == 0 && n / 10 % 10 == n / 10;
    assert Padded(n / 10, 1) == Padded(0, 0) + [DigitChar(n / 10)];
  }

  lemma DigitChars()
    ensures DigitChar(0) == '0' && DigitChar(1) == '1' && DigitChar(2) == '2' && DigitChar(3) == '3' && DigitChar(4) == '4'
    ensures DigitChar(5) == '5' && DigitChar(6) == '6' && DigitChar(7) == '7' && DigitChar(8) == '8' && DigitChar(9) == '9'
  {
  }

  lemma Year2024()
    ensures Padded(2024, 4) == "2024"
  {
    DigitChars();
    assert Padded(2, 1) == "2";
    assert Padded(20, 2) == "20";
    assert Padded(202, 3) == "202";
  }

  lemma ChristmasDate()
    ensures FormatDate(Date(2024, 12, 25)) == "25/12/2024"
  {
    TwoDigits(25);
    TwoDigits(12);
    DigitChars();
    Year2024();
  }

  /** How Christmas 2024 shows when it is a holiday. */
  lemma ChristmasSlot()
    ensures ShowSlot(Dated(Date(2024, 12, 25), true)) == "25/12/2024 - FERIADO"
  {
    ChristmasDate();
  }

  lemma ChristmasLine(year: int)
    requires AppYear(year)
    ensures ParseDayMonth("25/12", year) == Some(Date(year, 12, 25))
  {
    TwoDigits(25);
    TwoDigits(12);
    DigitChars();
    assert "25/12" == Padded(25, 2) + "/" + Padded(12, 2);
    ParseForm(Padded(25, 2), Padded(12, 2), Date(year, 12, 25));
  }

  lemma PaddedLine(year: int)
    requires AppYear(year)
    ensures ParseLines(["25/12"], year) == Parsed({Date(year, 12, 25)}, [])
  {
    ParseOneLine("25/12", year);
    StripTrimmed("25/12");
    ChristmasLine(year);
  }

  lemma BlankLine(year: int)
    requires AppYear(year)
    ensures ParseLines([""], year) == Parsed({}, [])
  {
    ParseOneLine("", year);
  }

  lemma ImpossibleLine(year: int)
    requires AppYear(year)
    ensures ParseLines(["32/13"], year) == Parsed({}, ["32/13"])
  {
    ParseOneLine("32/13", year);
    StripTrimmed("32/13");
    OutOfRangeRejected(year);
  }

  lemma UnpaddedLine(year: int)
    requires AppYear(year)
    ensures ParseLines(["1/1"], year) == Parsed({Date(year, 1, 1)}, [])
  {
    ParseOneLine("1/1", year);
    StripTrimmed("1/1");
    assert "1" == Unpadded(1) by {
      DigitChars();
    }
    ParseForm("1", "1", Date(year, 1, 1));
  }

  /** Four lines are parsed one by one. */
  lemma FourLines(l0: string, l1: string, l2: string, l3: string, year: int)
    requires AppYear(year)
    ensures ParseLines([l0, l1, l2, l3], year)
      == Merge(ParseLines([l0], year), Merge(ParseLines([l1], year), Merge(ParseLines([l2], year), ParseLines([l3], year))))
  {
    var p0, p1, p2, p3 := ParseLines([l0], year), ParseLines([l1], year), ParseLines([l2], year), ParseLines([l3], year);
    assert ParseLines([l2, l3], year) == Merge(p2, p3) by {
      ParseLinesAppend([l2], [l3], year);
      assert [l2] + [l3] == [l2, l3];
    }
    assert ParseLines([l1, l2, l3], year) == Merge(p1, Merge(p2, p3)) by {
      ParseLinesAppend([l1], [l2, l3], year);
      assert [l1] + [l2, l3] == [l1, l2, l3];
    }
    assert ParseLines([l0, l1, l2, l3], year) == Merge(p0, Merge(p1, Merge(p2, p3))) by {
      ParseLinesAppend([l0], [l1, l2, l3], year);
      assert [l0] + [l1, l2, l3] == [l0, l1, l2, l3];
    }
  }

  lemma MergeSample(a: Parsed, b: Parsed, c: Parsed, d: Parsed, year: int)
    requires a == Parsed({Date(year, 12, 25)}, []) && b == Parsed({}, [])
    requires c == Parsed({}, ["32/13"]) && d == Parsed({Date(year, 1, 1)}, [])
    ensures Merge(a, Merge(b, Merge(c, d))) == Parsed({Date(year, 12, 25), Date(year, 1, 1)}, ["32/13"])
  {
    assert Merge(c, d) == Parsed({Date(year, 1, 1)}, ["32/13"]);
    assert Merge(b, Merge(c, d)) == Merge(c, d);
  }

  /** The custom-holiday lines "25/12", "", "32/13" and "1/1", in any year the
      app offers: the padded and the unpadded date are kept, the blank line is
      skipped, and the impossible date is reported once. */
  lemma CustomHolidayLines(year: int)
    requires AppYear(year)
    ensures ParseLines(["25/12", "", "32/13", "1/1"], year)
      == Parsed({Date(year, 12, 25), Date(year, 1, 1)}, ["32/13"])
  {
    FourLines("25/12", "", "32/13", "1/1", year);
    PaddedLine(year);
    BlankLine(year);
    ImpossibleLine(year);
    UnpaddedLine(year);
    MergeSample(ParseLines(["25/12"], year), ParseLines([""], year), ParseLines(["32/13"], year), ParseLines(["1/1"], year), year);
  }
}
