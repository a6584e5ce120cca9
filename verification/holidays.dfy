/** The holiday set (app.py:51-65): custom holidays typed one `DD/MM` per line
    and parsed with `datetime.strptime(line + "/YYYY", "%d/%m/%Y")`, joined
    with the national holidays of an external provider. */
module Holidays {
  import opened Options
  import opened Calendar
  import opened Text

  /** A 1- or 2-digit numeral whose value lies in `1..hi`. With `hi == 31` this is
      the language of `strptime`'s `%d` pattern `3[01]|[12]\d|0[1-9]|[1-9]`, with
      `hi == 12` that of its `%m` pattern `1[0-2]|0[1-9]|[1-9]`. */
  function NumberToken(s: string, hi: int): (r: Option<int>)
    ensures r.Some? ==> 1 <= r.value <= hi
  {
    if 1 <= |s| <= 2 && AllDigits(s) && 1 <= NumeralValue(s) <= hi then Some(NumeralValue(s)) else None
  }

  /** The index of the first '/' in `s`, or `|s|` if there is none. */
  function SlashIndex(s: string): (k: nat)
    ensures k <= |s|
    ensures forall j :: 0 <= j < k ==> s[j] != '/'
    ensures k < |s| ==> s[k] == '/'
  {
    if |s| == 0 || s[0] == '/' then 0 else 1 + SlashIndex(s[1..])
  }

  /** `datetime.strptime(line + f"/{year}", "%d/%m/%Y").date()`, or `None` where
      it raises: the line must be a day numeral, a slash and a month numeral,
      and the day must exist in that month of that year. */
  function ParseDayMonth(line: string, year: int): (r: Option<Date>)
    requires AppYear(year)
    ensures r.Some? ==> ValidDate(r.value) && r.value.year == year
  {
    var k := SlashIndex(line);
    if k == |line| then None
    else
      match (NumberToken(line[..k], 31), NumberToken(line[k + 1..], 12))
      case (Some(d), Some(m)) =>
        if d <= DaysInMonth(year, m) then Some(Date(year, m, d)) else None
      case _ => None
  }

  /** The ways a user may write a date's day and month that `strptime` accepts:
      each number zero-padded to two digits or written plainly. */
  function DayMonthForms(dt: Date): set<string>
    requires 1 <= dt.day <= 31 && 1 <= dt.month <= 12
  {
    var ds := {Padded(dt.day, 2), Unpadded(dt.day)};
    var ms := {Padded(dt.month, 2), Unpadded(dt.month)};
    set a, b | a in ds && b in ms :: a + "/" + b
  }

  /** The outcome of parsing the custom-holiday text: the dates it names and
      one warning, the offending stripped line, per rejected line. */
  datatype Parsed = Parsed(dates: set<Date>, warnings: seq<string>)

  /** One pass of the loop of `parse_custom_holidays` for line `l`, in front of
      the outcome `rest` of the lines after it: a blank line is skipped, a
      parsed date is added, a rejected line is reported. */
  function ParseStep(l: string, year: int, rest: Parsed): Parsed
    requires AppYear(year)
  {
    var t := Strip(l);
    if t == [] then rest
    else
      match ParseDayMonth(t, year)
      case Some(d) => Parsed({d} + rest.dates, rest.warnings)
      case None => Parsed(rest.dates, [t] + rest.warnings)
  }

  /** The loop of `parse_custom_holidays` over lines. */
  function ParseLines(ls: seq<string>, year: int): (r: Parsed)
    requires AppYear(year)
    ensures forall d :: d in r.dates ==> ValidDate(d) && d.year == year
    ensures |r.warnings| <= |ls|
    ensures forall i :: 0 <= i < |r.warnings| ==> r.warnings[i] != []
    decreases |ls|
  {
    if |ls| == 0 then Parsed({}, []) else ParseStep(ls[0], year, ParseLines(ls[1..], year))
  }

  /** One line never undoes the other lines: their dates and warnings are
      kept, at most one warning is added, and a line that is reported adds
      no date. */
  lemma StepKeepsRest(l: string, year: int, rest: Parsed)
    requires AppYear(year)
    ensures var r := ParseStep(l, year, rest);
      && rest.dates <= r.dates
      && |rest.warnings| <= |r.warnings| <= |rest.warnings| + 1
      && r.warnings[|r.warnings| - |rest.warnings|..] == rest.warnings
      && (|r.warnings| > |rest.warnings| ==> r.dates == rest.dates)
  {
  }

  /** Two outcomes one after the other. */
  function Merge(x: Parsed, y: Parsed): Parsed {
    Parsed(x.dates + y.dates, x.warnings + y.warnings)
  }

  lemma StepMerge(l: string, year: int, x: Parsed, y: Parsed)
    requires AppYear(year)
    ensures ParseStep(l, year, Merge(x, y)) == Merge(ParseStep(l, year, x), y)
  {
    var t := Strip(l);
    if t != [] && ParseDayMonth(t, year).None? {
      assert [t] + (x.warnings + y.warnings) == ([t] + x.warnings) + y.warnings;
    }
  }

  /** `parse_custom_holidays(text, year)`. */
  function ParseCustomHolidays(text: string, year: int): (r: Parsed)
    requires AppYear(year)
    ensures forall d :: d in r.dates ==> ValidDate(d) && d.year == year
  {
    ParseLines(SplitLines(text), year)
  }

  /** Holidays from the national provider and from the custom text (app.py:64-65). */
  datatype HolidaySet = HolidaySet(national: set<Date>, custom: set<Date>)

  /** The holiday test that marks a slot (app.py:174). */
  predicate IsHoliday(h: HolidaySet, d: Date) {
    d in h.national || d in h.custom
  }

  /** The holiday test that marks a day of the on-screen calendar (app.py:101),
      which asks the two sources in the other order. */
  predicate MarkedInCalendar(h: HolidaySet, d: Date) {
    d in h.custom || d in h.national
  }

  /** A day is marked "FERIADO" on the calendar exactly when its slot in a
      block carries the holiday suffix. */
  lemma HolidayMarksAgree(h: HolidaySet, d: Date)
    ensures IsHoliday(h, d) <==> MarkedInCalendar(h, d)
  {
  }

  /** Builds the holiday set: the provider's dates when national holidays are
      switched on (none otherwise) and the parsed custom dates, together with
      the parser's warnings. */
  function BuildHolidays(useNational: bool, provided: set<Date>, text: string, year: int): (r: (HolidaySet, seq<string>))
    requires AppYear(year)
    ensures forall d :: IsHoliday(r.0, d) <==>
      (useNational && d in provided) || d in ParseCustomHolidays(text, year).dates
    ensures !useNational ==> forall d :: IsHoliday(r.0, d) ==> ValidDate(d) && d.year == year
    ensures r.1 == ParseCustomHolidays(text, year).warnings
  {
    var custom := ParseCustomHolidays(text, year);
    (HolidaySet(if useNational then provided else {}, custom.dates), custom.warnings)
  }

  lemma NumberTokenPadded(v: int, hi: int)
    requires 1 <= v <= hi && v <= 99
    ensures NumberToken(Padded(v, 2), hi) == Some(v)
    ensures NumberToken(Unpadded(v), hi) == Some(v)
  {
    PaddedValue(v, 2);
    UnpaddedValue(v);
  }

  /** A numeral the token accepts is one of the two ways of writing its value. */
  lemma NumberTokenForms(s: string, hi: int)
    requires hi <= 99 && NumberToken(s, hi).Some?
    ensures s == Padded(NumberToken(s, hi).value, 2) || s == Unpadded(NumberToken(s, hi).value)
  {
    var v := NumberToken(s, hi).value;
    ShortNumeral(s);
    if |s| == 1 {
      assert Unpadded(v) == [DigitChar(v)];
    } else {
      assert Padded(v, 2) == [DigitChar(v / 10), DigitChar(v % 10)];
    }
  }

  lemma ShortNumeral(s: string)
    requires 1 <= |s| <= 2 && AllDigits(s)
    ensures |s| == 1 ==> NumeralValue(s) == DigitValue(s[0])
    ensures |s| == 2 ==> NumeralValue(s) == DigitValue(s[0]) * 10 + DigitValue(s[1])
  {
    assert s[..1][..0] == [];
    if |s| == 2 {
      assert NumeralValue(s[..1]) == DigitValue(s[0]);
    }
  }

  lemma SlashIndexOf(a: string, b: string)
    requires AllDigits(a)
    ensures SlashIndex(a + "/" + b) == |a|
    decreases |a|
  {
    if |a| > 0 {
      assert (a + "/" + b)[1..] == a[1..] + "/" + b;
      SlashIndexOf(a[1..], b);
    }
  }

  lemma ParseForm(a: string, b: string, dt: Date)
    requires AppYear(dt.year) && ValidDate(dt)
    requires a == Padded(dt.day, 2) || a == Unpadded(dt.day)
    requires b == Padded(dt.month, 2) || b == Unpadded(dt.month)
    ensures ParseDayMonth(a + "/" + b, dt.year) == Some(dt)
  {
    var l := a + "/" + b;
    SlashIndexOf(a, b);
    assert l[..|a|] == a;
    assert l[|a| + 1..] == b;
    NumberTokenPadded(dt.day, 31);
    NumberTokenPadded(dt.month, 12);
  }

  /** A line parses to a date exactly when the date is valid in the given year
      and the line writes its day and month, each padded or plain. */
  lemma {:induction false} ParseDayMonthIff(line: string, year: int, dt: Date)
    requires AppYear(year)
    ensures ParseDayMonth(line, year) == Some(dt) <==>
      ValidDate(dt) && dt.year == year && line in DayMonthForms(dt)
  {
    if ParseDayMonth(line, year) == Some(dt) {
      ParsedIsForm(line, year, dt);
    }
    if ValidDate(dt) && dt.year == year && line in DayMonthForms(dt) {
      var a, b :| a in {Padded(dt.day, 2), Unpadded(dt.day)}
        && b in {Padded(dt.month, 2), Unpadded(dt.month)} && line == a + "/" + b;
      ParseForm(a, b, dt);
    }
  }

  lemma ParsedIsForm(line: string, year: int, dt: Date)
    requires AppYear(year) && ParseDayMonth(line, year) == Some(dt)
    ensures ValidDate(dt) && dt.year == year && line in DayMonthForms(dt)
  {
    var k := SlashIndex(line);
    var a, b := line[..k], line[k + 1..];
    assert NumberToken(a, 31) == Some(dt.day) && NumberToken(b, 12) == Some(dt.month);
    NumberTokenForms(a, 31);
    NumberTokenForms(b, 12);
    assert line == a + "/" + b;
    assert a in {Padded(dt.day, 2), Unpadded(dt.day)};
    assert b in {Padded(dt.month, 2), Unpadded(dt.month)};
  }

  /** "29/02" names a date exactly in leap years. */
  lemma LeapDay(year: int)
    requires AppYear(year)
    ensures ParseDayMonth("29/02", year).Some? <==> IsLeap(year)
  {
    var l := "29/02";
    assert SlashIndex(l) == 2 by {
      SlashIndexOf("29", "02");
      assert "29" + "/" + "02" == l;
    }
    assert l[..2] == "29" && l[3..] == "02";
    ShortNumeral("29");
    ShortNumeral("02");
  }

  /** Day 32 and month 13 are rejected whatever the year. */
  lemma OutOfRangeRejected(year: int)
    requires AppYear(year)
    ensures ParseDayMonth("32/13", year) == None
  {
    var l := "32/13";
    assert SlashIndex(l) == 2 by {
      SlashIndexOf("32", "13");
      assert "32" + "/" + "13" == l;
    }
    assert l[..2] == "32";
    ShortNumeral("32");
  }

  /** Parsing two runs of lines one after the other gives the union of their
      dates and their warnings in order: no line stops the lines after it. */
  lemma {:induction false} ParseLinesAppend(a: seq<string>, b: seq<string>, year: int)
    requires AppYear(year)
    ensures ParseLines(a + b, year) == Merge(ParseLines(a, year), ParseLines(b, year))
    decreases |a|
  {
    if |a| == 0 {
      assert a + b == b;
    } else {
      assert (a + b)[1..] == a[1..] + b;
      ParseLinesAppend(a[1..], b, year);
      StepMerge(a[0], year, ParseLines(a[1..], year), ParseLines(b, year));
    }
  }

  /** One line on its own: a blank line contributes nothing, an accepted line
      exactly its date, a rejected line exactly one warning. */
  lemma ParseOneLine(l: string, year: int)
    requires AppYear(year)
    ensures var r := ParseLines([l], year);
      var t := Strip(l);
      && (t == [] ==> r == Parsed({}, []))
      && (t != [] && ParseDayMonth(t, year).Some? ==> r == Parsed({ParseDayMonth(t, year).value}, []))
      && (t != [] && ParseDayMonth(t, year).None? ==> r == Parsed({}, [t]))
  {
    assert [l][1..] == [];
    assert ParseLines([l], year) == ParseStep(l, year, Parsed({}, []));
  }

  /** Line `l`, stripped, parses to date `d`. */
  predicate LineNames(l: string, year: int, d: Date)
    requires AppYear(year)
  {
    ParseDayMonth(Strip(l), year) == Some(d)
  }

  lemma StepMembership(l: string, year: int, rest: Parsed, d: Date)
    requires AppYear(year)
    ensures d in ParseStep(l, year, rest).dates <==> LineNames(l, year, d) || d in rest.dates
  {
    if Strip(l) == [] {
      assert SlashIndex(Strip(l)) == 0;
    }
  }

  /** A date is a custom holiday exactly when some line, stripped, parses to it. */
  lemma {:induction false} ParseLinesMembership(ls: seq<string>, year: int, d: Date)
    requires AppYear(year)
    ensures d in ParseLines(ls, year).dates <==> exists i :: 0 <= i < |ls| && LineNames(ls[i], year, d)
    decreases |ls|
  {
    if |ls| > 0 {
      var tail := ls[1..];
      var rest := ParseLines(tail, year);
      assert ParseLines(ls, year) == ParseStep(ls[0], year, rest);
      ParseLinesMembership(tail, year, d);
      StepMembership(ls[0], year, rest, d);
      SomeLineSplit(ls, year, d);
    }
  }

  /** Some line of `ls` names `d` exactly when the first one does or some later one does. */
  lemma SomeLineSplit(ls: seq<string>, year: int, d: Date)
    requires AppYear(year) && |ls| > 0
    ensures (exists i :: 0 <= i < |ls| && LineNames(ls[i], year, d))
      <==> LineNames(ls[0], year, d) || exists i :: 0 <= i < |ls[1..]| && LineNames(ls[1..][i], year, d)
  {
    var tail := ls[1..];
    if exists i :: 0 <= i < |ls| && LineNames(ls[i], year, d) {
      var i :| 0 <= i < |ls| && LineNames(ls[i], year, d);
      if i > 0 {
        assert tail[i - 1] == ls[i];
      }
    }
    if exists i :: 0 <= i < |tail| && LineNames(tail[i], year, d) {
      var i :| 0 <= i < |tail| && LineNames(tail[i], year, d);
      assert ls[i + 1] == tail[i];
    }
  }

  /** The text "L\nREST" is parsed as line L followed by the text REST. */
  lemma ParseTextCons(l: string, rest: string, year: int)
    requires AppYear(year) && NoLineBoundary(l)
    ensures ParseCustomHolidays(l + "\n" + rest, year)
      == Merge(ParseLines([l], year), ParseCustomHolidays(rest, year))
  {
    SplitLinesCons(l, rest);
    ParseLinesAppend([l], SplitLines(rest), year);
  }
}
