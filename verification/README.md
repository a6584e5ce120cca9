# Calendário Interativo → Escala: a verified model of the schedule core

The app is a single-page Streamlit program (`app.py`). It builds a monthly
duty roster ("escala"). The user picks a year and a month and types extra
holidays as `DD/MM` lines. They click days of the month to assign a name to
each day and choose which weekdays ("blocos") appear in the roster. Every
chosen weekday becomes a block of five slots:

- each of the weekday's dates in the month, written `DD/MM/YYYY`, followed by
  ` - FERIADO` when the date is a holiday, next to the name assigned to it;
- a `-` and an empty name once the occurrences run out.

In the exported DOCX, PDF and XLSX files each block's table has three
seven-cell rows: a header row, a dates row and a names row.

This Dafny project models that core as pure functions:

- `Calendar`: the proleptic Gregorian calendar of `datetime.date`, meaning
  month lengths, leap years and `date.weekday()` (Monday = 0). It also models
  the Sunday-first month grid of `calendar.Calendar(firstweekday=6).itermonthdates`,
  following CPython's algorithm: the tail of the previous month, the month,
  then the head of the next month.
- `Occurrences`: the dates of the grid in the chosen month on one weekday.
  These are proved equal to a reference arithmetic progression (first
  matching day, step 7). From that follow the count (4 or 5), the ascending
  order and completeness.
- `Text`: Python's `str.isspace`, `str.strip` and `str.splitlines`, and
  decimal numerals, zero-padded or plain.
- `Display`: the `DD/MM/YYYY` slot text, the holiday suffix and the `-`
  placeholder, with a reader that inverts them.
- `Holidays`: `parse_custom_holidays`, in which `strptime(line + "/YYYY",
  "%d/%m/%Y")` is modelled as two 1–2 digit numbers around a `/` that must form
  a real date of the year. It also models the union with the national
  holiday set.
- `Names`: the per-date name store (`st.session_state.date_names`), with its
  "Salvar" and "Limpar este dia" rules.
- `Blocks`: `weekday_map`, the five-slot blocks, the whole schedule in
  selection order, and the header, dates and names rows of the exported tables.
- `Scenarios`: concrete months and holiday texts worked out from the general
  lemmas.

The national holidays (`holidays.BR`) are an input set of dates. Location and
time are plain string fields of a block. They start empty, as in
`blocos_filled`.

## Model

| member | source | states |
|---|---|---|
| Calendar.DaysInMonth | app.py:58 | Month lengths are 28 to 31 days; February has 29 exactly in leap years and 28 otherwise. |
| Calendar.WeekdayNext | app.py:164 | Consecutive days of a month fall on consecutive weekdays, modulo 7. |
| Calendar.FirstDayOf1900IsMonday | app.py:164 | `date.weekday()` of 1 January 1900, the earliest year the year input allows, is 0 (Monday). |
| Calendar.Weekday | app.py:164 | `date.weekday()` is a number 0..6 (Monday = 0); its agreement with the real calendar is anchored by the next two rows. |
| Calendar.GregorianCycle | app.py:164 | The leap rule (`IsLeap`), the month lengths and the weekdays repeat every 400 years. |
| Calendar.DaysBeforeNextYear | app.py:164 | The closed-form day count before a year grows by exactly that year's length (365 or 366), so weekdays carry across years. |
| Calendar.MonthGrid | app.py:79-80 | The month grid is whole weeks (28 to 42 days) of real dates. |
| Calendar.GridStartsOnSunday | app.py:79-80 | The grid's first date is a Sunday, the `firstweekday=6` column. |
| Calendar.GridHoldsTheMonth | app.py:79-80 | The grid is a run of other-month days, then every day of the month in order, then other-month days. |
| Occurrences.MonthOccurrences | app.py:164 | Every date the comprehension keeps comes from the month grid, lies in the chosen month and falls on the chosen weekday. |
| Occurrences.Select | app.py:164 | The filter keeps only dates of the month on the weekday, and only dates taken from the grid. |
| Occurrences.SelectAppend | app.py:164 | Filtering distributes over concatenation, so grid order is kept. |
| Occurrences.SelectKeeps | app.py:164 | Every grid date that passes the test is kept by the filter. |
| Occurrences.OccurrencesAreProgression | app.py:164 | The app's filtered grid equals the reference progression starting at the first matching day (day 1 to 7), step 7. |
| Occurrences.OccurrenceDays | app.py:164 | The j-th occurrence is day `first + 7j`, and there are `(days - first)/7 + 1` of them. |
| Occurrences.OccurrenceCount | app.py:164 | Every weekday occurs 4 or 5 times in any month. |
| Occurrences.OccurrencesMatch | app.py:164 | Every occurrence is a valid date of the chosen year and month on the chosen weekday. |
| Occurrences.OccurrencesAscend | app.py:164 | The occurrences are in strictly ascending day order. |
| Occurrences.OccurrencesComplete | app.py:164 | Every day of the month on the weekday is among the occurrences. |
| Occurrences.StartMatches | app.py:164 | The first matching day does fall on the chosen weekday. |
| Text.Strip | app.py:54 | The strip drops exactly the leading and trailing whitespace; what remains neither starts nor ends with whitespace. |
| Text.StripBlank | app.py:55 | A line strips to nothing exactly when every character is whitespace, so such lines are the skipped ones. |
| Text.StripTrimmed | app.py:54 | A string without surrounding whitespace is its own strip. |
| Text.StripIdempotent | app.py:125-126 | Stripping twice is stripping once. |
| Text.SplitLines | app.py:53 | No line of the split contains a line boundary, and only the empty text splits into no lines. |
| Text.SplitLinesCons | app.py:53 | A line followed by a newline is split off as that line, before the rest's lines. |
| Text.SplitJoin | app.py:53 | Splitting lines joined with newlines gives the lines back, provided the last line is non-empty. |
| Text.PaddedValue | app.py:175 | A zero-padded numeral reads back as its number. |
| Text.UnpaddedValue | app.py:58 | A numeral without leading zeros reads back as its number. |
| Display.FormatDate | app.py:175 | `%d/%m/%Y` yields ten characters: two digits, `/`, two digits, `/`, four digits. |
| Display.ReadFormatDate | app.py:175 | Reading a formatted date gives back the same date. |
| Display.ShowSlot | app.py:175-178 | A slot shows `-` exactly when it has no date; a dated slot begins with its date, which reads back from the first ten characters. |
| Display.ReadShowSlot | app.py:175-178 | Every slot text reads back as the slot it shows: the date and the holiday flag, or the placeholder. |
| Display.DatedSlotText | app.py:175 | A dated slot ends in ` - FERIADO` exactly when it is a holiday, and is never the `-` placeholder. |
| Holidays.SlashIndex | app.py:58 | The day/month separator found is the first `/`, or none exists. |
| Holidays.ParseDayMonth | app.py:58 | An accepted line yields a valid date of the given year. |
| Holidays.ParseDayMonthIff | app.py:58 | A line parses to a date exactly when the date is valid in the year and the line writes its day and its month, each zero-padded or plain. |
| Holidays.NumberTokenForms | app.py:58 | An accepted day or month numeral is its value written padded or plain. |
| Holidays.ParseForm | app.py:58 | Any padded or plain writing of a valid date's day and month parses to that date. |
| Holidays.LeapDay | app.py:58 | `29/02` names a date exactly in leap years. |
| Holidays.OutOfRangeRejected | app.py:58 | `32/13` is rejected in every year. |
| Holidays.ParseLines | app.py:53-61 | The collected dates all lie in the given year; there is at most one warning per line, and none is empty. |
| Holidays.StepKeepsRest | app.py:54-61 | One pass of the loop (`ParseStep`) keeps the dates and warnings of the other lines, adds at most one warning, and adds no date when it warns. |
| Holidays.StepMerge | app.py:53-61 | Processing one line commutes with appending the results of further lines. |
| Holidays.ParseLinesAppend | app.py:53-61 | Parsing two runs of lines gives the union of the dates and the concatenation of the warnings, so a bad line never stops later lines. |
| Holidays.ParseOneLine | app.py:54-61 | A blank line adds nothing, an accepted line adds exactly its date, and a rejected line adds exactly one warning (the stripped line). |
| Holidays.StepMembership | app.py:54-59 | One step adds date d exactly when its stripped line parses to d. |
| Holidays.ParseLinesMembership | app.py:51-62 | A date is a custom holiday exactly when some line, stripped, parses to it. |
| Holidays.ParseCustomHolidays | app.py:51-62 | Every custom holiday is a valid date of the given year. |
| Holidays.ParseTextCons | app.py:53 | The text `L\nREST` is parsed as line L followed by the text REST. |
| Holidays.HolidayMarksAgree | app.py:174 | The slot's holiday test (`IsHoliday`, app.py:174) and the calendar's (app.py:101), which asks the two sources in the other order, agree on every day. |
| Holidays.BuildHolidays | app.py:64-65 | A date is a holiday exactly when it is a provided national holiday (with national holidays switched on) or a custom holiday; switched off, every holiday lies in the year. |
| Names.Lookup | app.py:100-105 | In a store built by saves and clears, a lookup yields "" exactly when the day has no entry, so `if name_assigned:` tests for an entry, and a name shown is already stripped. |
| Names.SaveLookup | app.py:124-128 | After a save, the day shows its stripped input ("" when blank), and every other day shows what it showed before. |
| Names.ClearLookup | app.py:131-132 | After clearing, the day shows "" and every other day shows what it showed before. |
| Names.Save | app.py:124-128 | A name that is non-blank after stripping is stored stripped, a blank one removes the day's entry, and every other day is unchanged. |
| Names.Clear | app.py:131-132 | Clearing removes only that day's entry. |
| Names.SaveKeepsTidy | app.py:124-128 | Saving keeps every stored name non-empty and already stripped. |
| Names.ClearKeepsTidy | app.py:131-132 | Clearing keeps every stored name non-empty and already stripped. |
| Names.SaveBlankIsClear | app.py:124-132 | Saving a blank name is the same as clearing the day. |
| Names.SaveIdempotent | app.py:124-128 | Saving the same input twice equals saving it once, and afterwards the day shows the stripped input. |
| Blocks.WeekdayNumber | app.py:151-159 | Each label maps to a weekday number 0..6. |
| Blocks.WeekdayMapBijective | app.py:151-159 | The label-to-number map is one-to-one and onto 0..6, with its inverse, and Domingo is 6. |
| Blocks.BlockDates | app.py:163-164 | A block's dates are 4 or 5 valid dates of the chosen year and month, all on the weekday `weekday_map` gives the label, in strictly ascending order. |
| Blocks.BlocksDisjoint | app.py:163-164 | Blocks of two different weekdays share no date. |
| Blocks.SlotTexts | app.py:169-179 | There are always exactly five date slots. |
| Blocks.SlotNames | app.py:169-180 | There are always exactly five name slots. |
| Blocks.DeriveBlock | app.py:166-186 | A derived block keeps its weekday and has five date slots and five name slots. |
| Blocks.BlockLayout | app.py:169-180 | The real slots are exactly the first k, with k = 4 or 5 the weekday's count in the month; a slot shows `-` exactly from index k on, and there the name is "". |
| Blocks.BlockRealSlots | app.py:163-176 | Each real slot reads back as a date of the chosen month on the block's weekday, with the holiday suffix exactly when that day is a national or custom holiday, next to the name assigned to that day. |
| Blocks.BlockAscending | app.py:164-175 | The real slots show their dates in strictly ascending order. |
| Blocks.BlockComplete | app.py:164-175 | Every day of the month on the block's weekday is shown in some slot. |
| Blocks.SlotContents | app.py:169-180 | Slot i shows the i-th occurrence, with its holiday flag and assigned name, or `-` and "" past the last occurrence. |
| Blocks.DeriveSchedule | app.py:161-186 | One block per selected weekday, in selection order, each with five date slots and five name slots. |
| Blocks.ScheduleSlots | app.py:161-186 | Block j of the schedule shows, slot by slot, the occurrences of the j-th selected weekday with their holiday flags and assigned names. |
| Blocks.ScheduleDisjoint | app.py:161-186 | No date appears in two blocks of the schedule. |
| Blocks.HeaderRow | app.py:304 | The header row has seven cells, "Local" and "Horário" and then five slot headings, which are pairwise distinct, each start with its own ordinal digit and each end with the block's label. |
| Blocks.TableOfBlock | app.py:367-383 | `BlockTable` is the header row, `ValuesRow` and `NamesRow`, as the XLSX writer lays them out: the dates row starts with location and time, the names row with two empty cells, and column c (2..6) holds heading c-1, date slot c-2 and name slot c-2. |
| Blocks.TableColumns | app.py:304-306 | In a derived block's table the three rows are seven cells wide, and under heading i the dates row shows the i-th occurrence (or `-`) and the names row that day's name (or ""). |
| Blocks.ScheduleTables | app.py:290-315 | The concatenated header, dates and names row lists of all blocks hold three row lists per block. |
| Blocks.ScheduleTablesInOrder | app.py:349-389 | In the concatenated row lists, entries 3j to 3j+2 are the header, dates and names rows of the j-th block, so selection order is kept end to end. |
| Scenarios.SaturdaysOfMarch2024 | app.py:163-164 | March 2024 has five Saturdays: 2, 9, 16, 23 and 30. |
| Scenarios.SundaysOfFebruary2024 | app.py:163-164 | February 2024, a leap month, has four Sundays: 4, 11, 18 and 25. |
| Scenarios.WednesdaysOfDecember2024 | app.py:163-164 | December 2024 has four Wednesdays: 4, 11, 18 and 25. |
| Scenarios.ChristmasSlot | app.py:175 | Christmas 2024 as a holiday shows as `25/12/2024 - FERIADO`. |
| Scenarios.ChristmasLine | app.py:58 | `25/12` parses to 25 December of any year the app offers. |
| Scenarios.CustomHolidayLines | app.py:51-62 | The lines `25/12`, blank, `32/13`, `1/1` yield 25 December and 1 January, plus one warning, `32/13`. |

## Left out

- The Streamlit UI is not modelled: widgets, columns, buttons, `st.rerun` and the session-state plumbing (app.py:26-49, 77-147, 189-199, 405-436). Only the rules these widgets apply to data are modelled.
- The national holiday provider `holidays.BR` (app.py:65) is a foreign library. It is an input set of dates.
- The DOCX, PDF and XLSX writers (app.py:203-402) are not modelled. Only the row lists they lay out are: header, dates and names. Cell merging, styling, colours, widths, the title's `upper()`, the "Observações" paragraph and the byte streams are left out. So are the rows each writer adds around a block's three rows: the highlighted spacer row (app.py:228-231, 296-298, 355-358), the block-name row (app.py:240-248, 301, 360-365) and the XLSX writer's blank row after each block (app.py:389). The model therefore says nothing about sheet or table row positions; for instance, in the XLSX sheet block j's header sits at row 5 + 6j.
- The summary table and the CSV export (app.py:137-147, 420-427) are left out. They go through pandas, and `strftime("%A")` gives locale-dependent weekday names.
- The `Local` and `Horário` text inputs (app.py:192-197) are left out as I/O. A block's `local` and `horario` fields stay the empty strings of app.py:184-185, and the rows take whatever they hold.
- Holidays.ParseDayMonth models `strptime` on ASCII digits only. Python's `\d` also matches other Unicode decimal digits, and those are not modelled. The `%d` alternative with a leading space cannot be reached once the line is stripped.
- Holidays.ParseLines models the `st.sidebar.warning` call as a list of warnings, one per rejected line, each holding the stripped line the message quotes.
- Occurrences.MonthOccurrences, Calendar.MonthGrid: years 1 and 9999 are excluded. There `itermonthdates` would have to build a date outside `datetime.date`'s range (for January of year 1, `date(0, 12, 31)`) and raises `ValueError`. The app only offers years 1900 to 2100.
- Blocks.DeriveSchedule requires the selected labels to be distinct. The multiselect never repeats an option, so `blocos_filled` (a dictionary keyed by label) has one entry per selection.
- Date names are keyed by `Date` rather than by `date.isoformat()`. That string is one-to-one on dates, so the map behaves the same.
