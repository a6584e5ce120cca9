/** How a block slot is displayed (app.py:169-179): a real date as
    `DD/MM/YYYY`, followed by " - FERIADO" when the date is a holiday, and an
    absent occurrence as a lone dash. `ReadSlot` is the inverse reading. */
module Display {
  import opened Options
  import opened Calendar
  import opened Text

  /** Appended to a holiday's date (app.py:175). */
  const HolidaySuffix := " - FERIADO"

  /** Shown in a slot that has no date (app.py:178). */
  const NoDateMark := "-"

  /** A valid date whose year `%Y` writes with four digits. */
  predicate Printable(d: Date) {
    ValidDate(d) && 1000 <= d.year
  }

  /** `d.strftime("%d/%m/%Y")`. */
  function FormatDate(d: Date): (s: string)
    requires Printable(d)
    ensures |s| == 10 && s[2] == '/' && s[5] == '/'
    ensures AllDigits(s[0..2]) && AllDigits(s[3..5]) && AllDigits(s[6..10])
  {
    var s := Padded(d.day, 2) + "/" + Padded(d.month, 2) + "/" + Padded(d.year, 4);
    assert s[0..2] == Padded(d.day, 2);
    assert s[3..5] == Padded(d.month, 2);
    assert s[6..10] == Padded(d.year, 4);
    s
  }

  /** Reads a `DD/MM/YYYY` string back into the date it names. */
  function ReadDate(s: string): Option<Date> {
    if |s| == 10 && s[2] == '/' && s[5] == '/'
       && AllDigits(s[0..2]) && AllDigits(s[3..5]) && AllDigits(s[6..10])
    then Some(Date(NumeralValue(s[6..10]), NumeralValue(s[3..5]), NumeralValue(s[0..2])))
    else None
  }

  /** The content of one of a block's five slots. */
  datatype Shown = NoDate | Dated(date: Date, holiday: bool)

  predicate Showable(x: Shown) {
    x.Dated? ==> Printable(x.date)
  }

  /** The text a slot displays (app.py:175 and app.py:178). */
  function ShowSlot(x: Shown): (s: string)
    requires Showable(x)
    ensures s == NoDateMark <==> x.NoDate?
    ensures x.Dated? ==> |s| >= 10 && ReadDate(s[..10]) == Some(x.date)
  {
    match x
    case NoDate => NoDateMark
    case Dated(d, h) =>
      ReadFormatDate(d);
      var f := FormatDate(d);
      var s := f + (if h then HolidaySuffix else "");
      assert s[..10] == f;
      s
  }

  /** Reads a displayed slot back. */
  function ReadSlot(s: string): Option<Shown> {
    if s == NoDateMark then Some(NoDate)
    else if |s| == 10 then
      match ReadDate(s)
      case Some(d) => Some(Dated(d, false))
      case None => None
    else if |s| == 20 && s[10..] == HolidaySuffix then
      match ReadDate(s[..10])
      case Some(d) => Some(Dated(d, true))
      case None => None
    else None
  }

  predicate EndsWith(s: string, suffix: string) {
    |suffix| <= |s| && s[|s| - |suffix|..] == suffix
  }

  /** Reading a formatted date gives back the date. */
  lemma ReadFormatDate(d: Date)
    requires Printable(d)
    ensures ReadDate(FormatDate(d)) == Some(d)
  {
    var s := FormatDate(d);
    assert s[0..2] == Padded(d.day, 2);
    assert s[3..5] == Padded(d.month, 2);
    assert s[6..10] == Padded(d.year, 4);
    PaddedValue(d.day, 2);
    PaddedValue(d.month, 2);
    PaddedValue(d.year, 4);
  }

  /** Every displayed slot reads back as the slot it displays: the date, and
      whether it was marked as a holiday. */
  lemma ReadShowSlot(x: Shown)
    requires Showable(x)
    ensures ReadSlot(ShowSlot(x)) == Some(x)
  {
    if x.Dated? {
      var f := FormatDate(x.date);
      ReadFormatDate(x.date);
      assert f != NoDateMark;
      if x.holiday {
        var s := ShowSlot(x);
        assert s == f + HolidaySuffix;
        assert |s| == 20 && s != NoDateMark;
        assert s[..10] == f;
        assert s[10..] == HolidaySuffix;
        assert ReadDate(s[..10]) == Some(x.date);
        assert |s| != 10;
        assert ReadSlot(s) == Some(Dated(x.date, true));
      } else {
        assert ShowSlot(x) == f;
        assert ReadSlot(f) == Some(Dated(x.date, false));
      }
    }
  }

  /** A dated slot ends in the holiday suffix exactly when it is a holiday,
      and never looks like the no-date dash. */
  lemma DatedSlotText(d: Date, h: bool)
    requires Printable(d)
    ensures EndsWith(ShowSlot(Dated(d, h)), HolidaySuffix) <==> h
    ensures ShowSlot(Dated(d, h)) != NoDateMark
  {
    var f := FormatDate(d);
    if !h {
      assert ShowSlot(Dated(d, h)) == f;
      assert f[0] != HolidaySuffix[0];
    } else {
      var s := ShowSlot(Dated(d, h));
      assert s[|s| - |HolidaySuffix|..] == HolidaySuffix;
    }
  }
}
