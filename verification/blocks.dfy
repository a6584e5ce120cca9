/** The schedule blocks (app.py:151-186) and the three table rows each block
    becomes in the exported documents (app.py:304-306, app.py:367-383).
    A block is one selected weekday: five date slots and five name slots,
    real dates first in calendar order and "-" placeholders after them. */
module Blocks {
  import opened Options
  import opened Calendar
  import opened Text
  import opened Occurrences
  import opened Display
  import opened Holidays
  import opened Names

  /** The seven block labels the sidebar offers (app.py:44). */
  datatype WeekdayLabel =
    | Domingo | SegundaFeira | TercaFeira | QuartaFeira | QuintaFeira | SextaFeira | Sabado

  /** The label as the user sees it and as the documents print it. */
  function LabelText(w: WeekdayLabel): string {
    match w
    case Domingo => "Domingo"
    case SegundaFeira => "Segunda-feira"
    case TercaFeira => "Terça-feira"
    case QuartaFeira => "Quarta-feira"
    case QuintaFeira => "Quinta-feira"
    case SextaFeira => "Sexta-feira"
    case Sabado => "Sábado"
  }

  /** `weekday_map` (app.py:151-159): Python's weekday number of each label,
      Monday = 0 through Sunday = 6. */
  function WeekdayNumber(w: WeekdayLabel): (n: int)
    ensures 0 <= n < 7
  {
    match w
    case SegundaFeira => 0
    case TercaFeira => 1
    case QuartaFeira => 2
    case QuintaFeira => 3
    case SextaFeira => 4
    case Sabado => 5
    case Domingo => 6
  }

  /** The label of each weekday number; the inverse of `weekday_map`. */
  function LabelOfWeekday(n: int): WeekdayLabel
    requires 0 <= n < 7
  {
    [SegundaFeira, TercaFeira, QuartaFeira, QuintaFeira, SextaFeira, Sabado, Domingo][n]
  }

  /** `weekday_map` is a one-to-one correspondence between the seven labels
      and the seven weekday numbers, Sunday being 6. */
  lemma WeekdayMapBijective()
    ensures forall w :: LabelOfWeekday(WeekdayNumber(w)) == w
    ensures forall n :: 0 <= n < 7 ==> WeekdayNumber(LabelOfWeekday(n)) == n
    ensures WeekdayNumber(Domingo) == FirstWeekday
  {
    forall n | 0 <= n < 7
      ensures WeekdayNumber(LabelOfWeekday(n)) == n
    {
      assert n in {0, 1, 2, 3, 4, 5, 6};
    }
  }

  /** Number of date slots (and name slots) in every block (app.py:169). */
  const SlotCount := 5

  /** `blocos_filled[bloco]` (app.py:181-186). */
  datatype FilledBlock = FilledBlock(
    weekday: WeekdayLabel,
    datas: seq<string>,
    nomes: seq<string>,
    local: string,
    horario: string)

  /** The days of the chosen month on the block's weekday (app.py:163-164). */
  function BlockDates(weekday: WeekdayLabel, y: int, m: int): (dates: seq<Date>)
    requires 1 <= m <= 12 && AppYear(y)
    ensures 4 <= |dates| <= SlotCount
    ensures forall i :: 0 <= i < |dates| ==>
      ValidDate(dates[i]) && dates[i].year == y && dates[i].month == m && Weekday(dates[i]) == WeekdayNumber(weekday)
    ensures forall i, j :: 0 <= i < j < |dates| ==> dates[i].day < dates[j].day
  {
    var wd := WeekdayNumber(weekday);
    OccurrenceCount(y, m, wd);
    OccurrencesMatch(y, m, wd);
    OccurrencesAscend(y, m, wd);
    MonthOccurrences(y, m, wd)
  }

  /** Blocks of two different weekdays never share a date. */
  lemma BlocksDisjoint(w1: WeekdayLabel, w2: WeekdayLabel, y: int, m: int, dt: Date)
    requires 1 <= m <= 12 && AppYear(y) && w1 != w2
    ensures !(dt in BlockDates(w1, y, m) && dt in BlockDates(w2, y, m))
  {
    WeekdayMapBijective();
  }

  /** The five date slots for the days `dates`, in order: each day's text,
      with the holiday suffix where it is a holiday, then "-" for the
      slots left over (app.py:169-179). */
  function SlotTexts(dates: seq<Date>, hol: HolidaySet): (ts: seq<string>)
    requires |dates| <= SlotCount && forall i :: 0 <= i < |dates| ==> Printable(dates[i])
    ensures |ts| == SlotCount
  {
    seq(SlotCount, i requires 0 <= i < SlotCount =>
      if i < |dates| then ShowSlot(Dated(dates[i], IsHoliday(hol, dates[i]))) else NoDateMark)
  }

  /** The five name slots for the days `dates`: each day's saved name, then ""
      for the slots left over (app.py:172-173, 180). */
  function SlotNames(dates: seq<Date>, store: NameStore): (ns: seq<string>)
    requires |dates| <= SlotCount
    ensures |ns| == SlotCount
  {
    seq(SlotCount, i requires 0 <= i < SlotCount => if i < |dates| then Lookup(store, dates[i]) else "")
  }

  /** One block of the schedule (app.py:163-186): slot `i` shows the `i`-th
      occurrence of the weekday, marked as a holiday where it is one, with the
      name assigned to that day, or "-" and "" once the occurrences run out.
      Location and time start empty (app.py:184-185). */
  function DeriveBlock(weekday: WeekdayLabel, y: int, m: int, store: NameStore, hol: HolidaySet): (b: FilledBlock)
    requires 1 <= m <= 12 && AppYear(y)
    ensures b.weekday == weekday
    ensures |b.datas| == SlotCount && |b.nomes| == SlotCount
  {
    var dates := BlockDates(weekday, y, m);
    OccurrenceCount(y, m, WeekdayNumber(weekday));
    OccurrencesMatch(y, m, WeekdayNumber(weekday));
    FilledBlock(weekday, SlotTexts(dates, hol), SlotNames(dates, store), "", "")
  }

  /** Slot `i` of block `b` reads back as a day of month `m` of year `y` on
      weekday `wd`, flagged as a holiday exactly when it is one, and its name
      slot holds the name assigned to that day. */
  ghost predicate ShowsDay(b: FilledBlock, i: int, y: int, m: int, wd: int, store: NameStore, hol: HolidaySet)
    requires 0 <= i < |b.datas| && i < |b.nomes|
  {
    match ReadSlot(b.datas[i])
    case Some(Dated(dt, h)) =>
      && ValidDate(dt) && dt.year == y && dt.month == m && Weekday(dt) == wd
      && h == IsHoliday(hol, dt)
      && (EndsWith(b.datas[i], HolidaySuffix) <==> IsHoliday(hol, dt))
      && b.nomes[i] == Lookup(store, dt)
    case _ => false
  }

  /** The day slot `i` of `b` reads back as, when it reads back as one. */
  function SlotDay(b: FilledBlock, i: int): (r: Date)
    requires 0 <= i < |b.datas|
    requires ReadSlot(b.datas[i]).Some? && ReadSlot(b.datas[i]).value.Dated?
  {
    ReadSlot(b.datas[i]).value.date
  }

  /** The slot layout: the real slots are exactly the first k, where k (4 or 5)
      is the number of times the weekday occurs in the month; the rest show
      "-" with an empty name. */
  lemma {:induction false} BlockLayout(weekday: WeekdayLabel, y: int, m: int, store: NameStore, hol: HolidaySet)
    requires 1 <= m <= 12 && AppYear(y)
    ensures var b := DeriveBlock(weekday, y, m, store, hol);
      var k := |BlockDates(weekday, y, m)|;
      && 4 <= k <= 5
      && (forall i :: 0 <= i < SlotCount ==> (b.datas[i] == NoDateMark <==> k <= i))
      && (forall i :: k <= i < SlotCount ==> b.nomes[i] == "")
  {
    var wd := WeekdayNumber(weekday);
    var dates := BlockDates(weekday, y, m);
    OccurrenceCount(y, m, wd);
    OccurrencesMatch(y, m, wd);
    forall i | 0 <= i < |dates|
      ensures ShowSlot(Dated(dates[i], IsHoliday(hol, dates[i]))) != NoDateMark
    {
      DatedSlotText(dates[i], IsHoliday(hol, dates[i]));
    }
  }

  /** A slot holding the text of a day of the month, next to that day's name,
      shows that day. */
  lemma RealSlot(b: FilledBlock, i: int, y: int, m: int, wd: int, store: NameStore, hol: HolidaySet, dt: Date)
    requires 0 <= i < |b.datas| && i < |b.nomes|
    requires Printable(dt) && dt.year == y && dt.month == m && Weekday(dt) == wd
    requires b.datas[i] == ShowSlot(Dated(dt, IsHoliday(hol, dt)))
    requires b.nomes[i] == Lookup(store, dt)
    ensures ShowsDay(b, i, y, m, wd, store, hol)
  {
    ReadShowSlot(Dated(dt, IsHoliday(hol, dt)));
    DatedSlotText(dt, IsHoliday(hol, dt));
  }

  /** Every real slot shows a day of the chosen month on the block's weekday,
      with the holiday suffix exactly when the day is a holiday, and the name
      assigned to that day. */
  lemma {:induction false} BlockRealSlots(weekday: WeekdayLabel, y: int, m: int, store: NameStore, hol: HolidaySet)
    requires 1 <= m <= 12 && AppYear(y)
    ensures |BlockDates(weekday, y, m)| <= SlotCount
    ensures var b := DeriveBlock(weekday, y, m, store, hol);
      forall i :: 0 <= i < |BlockDates(weekday, y, m)| ==>
        ShowsDay(b, i, y, m, WeekdayNumber(weekday), store, hol)
  {
    var b := DeriveBlock(weekday, y, m, store, hol);
    var wd := WeekdayNumber(weekday);
    var dates := BlockDates(weekday, y, m);
    OccurrenceCount(y, m, wd);
    OccurrencesMatch(y, m, wd);
    forall i | 0 <= i < |dates|
      ensures ShowsDay(b, i, y, m, wd, store, hol)
    {
      RealSlot(b, i, y, m, wd, store, hol, dates[i]);
    }
  }

  /** The real slots show their days in strictly ascending order. */
  lemma {:induction false} BlockAscending(weekday: WeekdayLabel, y: int, m: int, store: NameStore, hol: HolidaySet)
    requires 1 <= m <= 12 && AppYear(y)
    ensures |BlockDates(weekday, y, m)| <= SlotCount
    ensures var b := DeriveBlock(weekday, y, m, store, hol);
      forall i, j :: 0 <= i < j < |BlockDates(weekday, y, m)| ==>
        ReadSlot(b.datas[i]).Some? && ReadSlot(b.datas[i]).value.Dated?
        && ReadSlot(b.datas[j]).Some? && ReadSlot(b.datas[j]).value.Dated?
        && SlotDay(b, i).day < SlotDay(b, j).day
  {
    var b := DeriveBlock(weekday, y, m, store, hol);
    var wd := WeekdayNumber(weekday);
    var dates := BlockDates(weekday, y, m);
    OccurrenceCount(y, m, wd);
    OccurrencesMatch(y, m, wd);
    OccurrencesAscend(y, m, wd);
    forall i | 0 <= i < |dates|
      ensures ReadSlot(b.datas[i]) == Some(Dated(dates[i], IsHoliday(hol, dates[i])))
    {
      ReadShowSlot(Dated(dates[i], IsHoliday(hol, dates[i])));
    }
  }

  /** Every day of the chosen month on the block's weekday appears in one of
      the block's slots. */
  lemma {:induction false} BlockComplete(weekday: WeekdayLabel, y: int, m: int, store: NameStore, hol: HolidaySet, dt: Date)
    requires 1 <= m <= 12 && AppYear(y)
    requires ValidDate(dt) && dt.year == y && dt.month == m && Weekday(dt) == WeekdayNumber(weekday)
    ensures var b := DeriveBlock(weekday, y, m, store, hol);
      exists i :: 0 <= i < SlotCount && ReadSlot(b.datas[i]) == Some(Dated(dt, IsHoliday(hol, dt)))
  {
    var b := DeriveBlock(weekday, y, m, store, hol);
    var wd := WeekdayNumber(weekday);
    var dates := BlockDates(weekday, y, m);
    OccurrenceCount(y, m, wd);
    OccurrencesMatch(y, m, wd);
    OccurrencesComplete(y, m, wd, dt);
    var i :| 0 <= i < |dates| && dates[i] == dt;
    ReadShowSlot(Dated(dt, IsHoliday(hol, dt)));
    assert ReadSlot(b.datas[i]) == Some(Dated(dt, IsHoliday(hol, dt)));
  }

  predicate NoDuplicates(weekdays: seq<WeekdayLabel>) {
    forall i, j :: 0 <= i < j < |weekdays| ==> weekdays[i] != weekdays[j]
  }

  /** `blocos_filled` (app.py:161-186): one block per selected weekday, in the
      order the weekdays were selected. The multiselect never repeats a weekday. */
  function DeriveSchedule(weekdays: seq<WeekdayLabel>, y: int, m: int, store: NameStore, hol: HolidaySet): (bs: seq<FilledBlock>)
    requires 1 <= m <= 12 && AppYear(y) && NoDuplicates(weekdays)
    ensures |bs| == |weekdays|
    ensures forall j :: 0 <= j < |bs| ==> bs[j].weekday == weekdays[j]
    ensures forall j :: 0 <= j < |bs| ==> |bs[j].datas| == SlotCount && |bs[j].nomes| == SlotCount
  {
    seq(|weekdays|, j requires 0 <= j < |weekdays| => DeriveBlock(weekdays[j], y, m, store, hol))
  }

  /** Block j of the schedule shows, slot by slot, the occurrences of the j-th
      selected weekday, each with its holiday flag and assigned name. */
  lemma ScheduleSlots(weekdays: seq<WeekdayLabel>, y: int, m: int, store: NameStore, hol: HolidaySet)
    requires 1 <= m <= 12 && AppYear(y) && NoDuplicates(weekdays)
    ensures var bs := DeriveSchedule(weekdays, y, m, store, hol);
      forall j, i :: 0 <= j < |bs| && 0 <= i < |BlockDates(weekdays[j], y, m)| ==>
        var dt := BlockDates(weekdays[j], y, m)[i];
        ReadSlot(bs[j].datas[i]) == Some(Dated(dt, IsHoliday(hol, dt))) && bs[j].nomes[i] == Lookup(store, dt)
  {
    var bs := DeriveSchedule(weekdays, y, m, store, hol);
    forall j | 0 <= j < |bs|
      ensures forall i :: 0 <= i < |BlockDates(weekdays[j], y, m)| ==>
        var dt := BlockDates(weekdays[j], y, m)[i];
        ReadSlot(bs[j].datas[i]) == Some(Dated(dt, IsHoliday(hol, dt))) && bs[j].nomes[i] == Lookup(store, dt)
    {
      assert bs[j] == DeriveBlock(weekdays[j], y, m, store, hol);
      SlotContents(weekdays[j], y, m, store, hol);
    }
  }

  /** No date is shown by two blocks of the schedule: the selected weekdays
      are distinct, and so are their dates. */
  lemma ScheduleDisjoint(weekdays: seq<WeekdayLabel>, y: int, m: int, dt: Date)
    requires 1 <= m <= 12 && AppYear(y) && NoDuplicates(weekdays)
    ensures forall j1, j2 :: 0 <= j1 < j2 < |weekdays| && dt in BlockDates(weekdays[j1], y, m) ==>
      dt !in BlockDates(weekdays[j2], y, m)
  {
    forall j1, j2 | 0 <= j1 < j2 < |weekdays| && dt in BlockDates(weekdays[j1], y, m)
      ensures dt !in BlockDates(weekdays[j2], y, m)
    {
      BlocksDisjoint(weekdays[j1], weekdays[j2], y, m, dt);
    }
  }

  /** The column heading of slot `i` (1-based): "{i}º {bloco}". */
  function OrdinalHeading(i: int, weekday: WeekdayLabel): string
    requires 1 <= i <= SlotCount
  {
    [DigitChar(i)] + "º " + LabelText(weekday)
  }

  /** The header row `["Local", "Horário"] + [f"{i+1}º {bloco}" ...]`. Its
      five slot headings are pairwise distinct, each names the block's
      weekday, and each starts with its own ordinal digit. */
  function HeaderRow(weekday: WeekdayLabel): (r: seq<string>)
    ensures |r| == 2 + SlotCount
    ensures r[0] == "Local" && r[1] == "Horário"
    ensures forall c :: 2 <= c < |r| ==> r[c] == OrdinalHeading(c - 1, weekday)
    ensures forall c :: 2 <= c < |r| ==> r[c] != [] && r[c][0] == DigitChar(c - 1) && EndsWith(r[c], LabelText(weekday))
    ensures forall c, c' :: 2 <= c < c' < |r| ==> r[c] != r[c']
  {
    HeadingsShape(weekday);
    ["Local", "Horário"] + seq(SlotCount, i requires 0 <= i < SlotCount => OrdinalHeading(i + 1, weekday))
  }

  /** Heading `i` starts with the digit of `i` and ends with the weekday's label. */
  lemma HeadingsShape(weekday: WeekdayLabel)
    ensures forall i :: 1 <= i <= SlotCount ==>
      var h := OrdinalHeading(i, weekday);
      h != [] && h[0] == DigitChar(i) && EndsWith(h, LabelText(weekday))
  {
    forall i | 1 <= i <= SlotCount
      ensures var h := OrdinalHeading(i, weekday);
        h != [] && h[0] == DigitChar(i) && EndsWith(h, LabelText(weekday))
    {
      var h := OrdinalHeading(i, weekday);
      assert h[|h| - |LabelText(weekday)|..] == LabelText(weekday);
    }
  }

  /** The dates row `[local, horario] + datas`. */
  function ValuesRow(b: FilledBlock): seq<string> {
    [b.local, b.horario] + b.datas
  }

  /** The names row `["", ""] + nomes`. */
  function NamesRow(b: FilledBlock): seq<string> {
    ["", ""] + b.nomes
  }

  /** The three rows one block contributes to every exported document. */
  function BlockTable(b: FilledBlock): seq<seq<string>> {
    [HeaderRow(b.weekday), ValuesRow(b), NamesRow(b)]
  }

  /** In a derived block's table, every row is seven cells wide and each of the
      five slot columns lines up: under the heading "{i}º" the dates row shows
      the i-th occurrence of the weekday (or "-") and the names row the name
      assigned to that day (or ""). */
  lemma {:induction false} TableColumns(weekday: WeekdayLabel, y: int, m: int, store: NameStore, hol: HolidaySet)
    requires 1 <= m <= 12 && AppYear(y)
    ensures var b := DeriveBlock(weekday, y, m, store, hol);
      var t := BlockTable(b);
      var dates := BlockDates(weekday, y, m);
      && |t| == 3 && |t[0]| == 7 && |t[1]| == 7 && |t[2]| == 7
      && t[2][0] == "" && t[2][1] == ""
      && forall c :: 2 <= c < 7 ==>
           && t[0][c] == OrdinalHeading(c - 1, weekday)
           && (c - 2 < |dates| ==>
                 ReadSlot(t[1][c]) == Some(Dated(dates[c - 2], IsHoliday(hol, dates[c - 2])))
                 && t[2][c] == Lookup(store, dates[c - 2]))
           && (c - 2 >= |dates| ==> t[1][c] == NoDateMark && t[2][c] == "")
  {
    var b := DeriveBlock(weekday, y, m, store, hol);
    TableOfBlock(b);
    SlotContents(weekday, y, m, store, hol);
  }

  /** Column `c` of a block's table holds slot `c - 2` under its heading. */
  lemma TableOfBlock(b: FilledBlock)
    requires |b.datas| == SlotCount && |b.nomes| == SlotCount
    ensures var t := BlockTable(b);
      && |t| == 3 && |t[0]| == 7 && |t[1]| == 7 && |t[2]| == 7
      && t[1][0] == b.local && t[1][1] == b.horario
      && t[2][0] == "" && t[2][1] == ""
      && forall c :: 2 <= c < 7 ==>
           t[0][c] == OrdinalHeading(c - 1, b.weekday) && t[1][c] == b.datas[c - 2] && t[2][c] == b.nomes[c - 2]
  {
  }

  /** What each of the five slots of a derived block holds. */
  lemma SlotContents(weekday: WeekdayLabel, y: int, m: int, store: NameStore, hol: HolidaySet)
    requires 1 <= m <= 12 && AppYear(y)
    ensures var b := DeriveBlock(weekday, y, m, store, hol);
      var dates := BlockDates(weekday, y, m);
      forall i :: 0 <= i < SlotCount ==>
        && (i < |dates| ==>
              ReadSlot(b.datas[i]) == Some(Dated(dates[i], IsHoliday(hol, dates[i])))
              && b.nomes[i] == Lookup(store, dates[i]))
        && (i >= |dates| ==> b.datas[i] == NoDateMark && b.nomes[i] == "")
  {
    var b := DeriveBlock(weekday, y, m, store, hol);
    var dates := BlockDates(weekday, y, m);
    OccurrenceCount(y, m, WeekdayNumber(weekday));
    OccurrencesMatch(y, m, WeekdayNumber(weekday));
    forall i | 0 <= i < |dates|
      ensures ReadSlot(b.datas[i]) == Some(Dated(dates[i], IsHoliday(hol, dates[i])))
    {
      ReadShowSlot(Dated(dates[i], IsHoliday(hol, dates[i])));
    }
  }

  /** The header, dates and names row lists of all blocks, one block after
      another, in the order the exporters visit the blocks (app.py:222, 290,
      349). The spacer and block-name rows each exporter adds around them are
      not part of this list. */
  function ScheduleTables(bs: seq<FilledBlock>): (rows: seq<seq<string>>)
    ensures |rows| == 3 * |bs|
  {
    if |bs| == 0 then [] else BlockTable(bs[0]) + ScheduleTables(bs[1..])
  }

  /** Entries 3j to 3j+2 of the concatenated row lists are the table of the
      j-th block: the selection order is kept end to end. */
  lemma {:induction false} ScheduleTablesInOrder(bs: seq<FilledBlock>, j: int)
    requires 0 <= j < |bs|
    ensures ScheduleTables(bs)[3 * j..3 * j + 3] == BlockTable(bs[j])
    decreases |bs|
  {
    var rows := ScheduleTables(bs);
    assert rows == BlockTable(bs[0]) + ScheduleTables(bs[1..]);
    if j > 0 {
      ScheduleTablesInOrder(bs[1..], j - 1);
      assert rows[3 * j..3 * j + 3] == ScheduleTables(bs[1..])[3 * (j - 1)..3 * (j - 1) + 3];
    }
  }
}
