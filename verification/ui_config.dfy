/**
 * `src/ui/ui_config.rs`: the first generation's interface helpers on bare
 * `i32` month and year: the month after a month, the names of a month and a
 * weekday, the agenda panel title, the next entry to preview and the preview
 * text.
 *
 * The name lookups cast `index - 1` to `usize` (64 bits wide here), so a
 * negative index wraps to a huge one.  Their guard compares with `<=` the
 * table length: the index equal to the length slips through and the indexing
 * panics instead of the guard.  Panics are `Panic` outcomes.
 */
module UiConfig {
  import opened RustOps
  import opened Wrappers
  import opened WeekGrid
  import opened EntrySearch
  import Dates
  import DateConversions
  import Selection
  import FileParser
  import AgendaParser
  import AgendaRender
  import CalendarRender

  datatype MonthAndYear = MonthAndYear(month: int, year: int)

  const I32_MIN: int := -0x8000_0000
  const I32_MAX: int := 0x7FFF_FFFF
  const USIZE_MODULUS: int := 0x1_0000_0000_0000_0000

  const MONTH_RANGE: string := "Month index was out of range."
  const DAY_RANGE: string := "Day index was out of range."
  const SUB_OVERFLOW: string := "attempt to subtract with overflow"
  const NO_ENTRY: string := "No entry for this date."

  /** The message of the panic an out-of-range slice or array index raises. */
  function IndexOutOfBounds(len: nat, index: nat): string {
    "index out of bounds: the len is " + NatToString(len) + " but the index is " + NatToString(index)
  }

  /** The texts of the two index panics the lookups below can raise. */
  lemma IndexMessages()
    ensures IndexOutOfBounds(12, 12) == "index out of bounds: the len is " + "12" + " but the index is " + "12"
    ensures IndexOutOfBounds(7, 7) == "index out of bounds: the len is " + "7" + " but the index is " + "7"
  {
    assert NatToString(12) == "12" && NatToString(7) == "7";
  }

  predicate IsI32(x: int) {
    I32_MIN <= x <= I32_MAX
  }

  /** `x as usize` for an `i32`: negative values wrap around. */
  function AsUsize(x: int): (u: nat)
    requires IsI32(x)
    ensures x >= 0 ==> u == x
    ensures x < 0 ==> u > I32_MAX
  {
    if x >= 0 then x else x + USIZE_MODULUS
  }

  /** `get_next_month_and_year`: the following month, December wrapping to January of the next year. */
  function GetNextMonthAndYear(current: MonthAndYear): (next: MonthAndYear)
    ensures 1 <= current.month <= 12 ==> 1 <= next.month <= 12
    ensures 1 <= current.month <= 12 ==>
      Dates.Date(1, next.month, next.year) == Dates.FirstOfNextMonth(Dates.Date(1, current.month, current.year))
  {
    var nextMonth := current.month + 1;
    if nextMonth > 12 then MonthAndYear(1, current.year + 1) else MonthAndYear(nextMonth, current.year)
  }

  /**
   * A lookup of `table[index - 1]` behind the `<=` guard: the entry for 1..|table|,
   * an indexing panic for |table| + 1, the guard's panic for everything else.
   */
  function Lookup(table: seq<string>, index: int, rangeMessage: string): (r: Outcome<string>)
    requires IsI32(index) && |table| <= I32_MAX
    ensures r.Done? <==> 1 <= index <= |table|
    ensures r.Done? ==> r.value == table[index - 1]
    ensures index == |table| + 1 ==> r == Panic(IndexOutOfBounds(|table|, |table|))
    ensures index == I32_MIN ==> r == Panic(SUB_OVERFLOW)
    ensures I32_MIN < index <= 0 || index > |table| + 1 ==> r == Panic(rangeMessage)
  {
    if index == I32_MIN then Panic(SUB_OVERFLOW)
    else
      var shift := AsUsize(index - 1);
      if shift <= |table| then
        if shift < |table| then Done(table[shift]) else Panic(IndexOutOfBounds(|table|, shift))
      else Panic(rangeMessage)
  }

  /** `get_month_string`. */
  function GetMonthString(month: int): (r: Outcome<string>)
    requires IsI32(month)
    ensures r.Done? <==> 1 <= month <= 12
    ensures r.Done? ==> r.value == Dates.MonthString(Dates.Date(1, month, 0))
    ensures month == 13 ==> r == Panic(IndexOutOfBounds(12, 12))
  {
    Lookup(Dates.MONTHS, month, MONTH_RANGE)
  }

  /** `get_day_string`: weekday 1 is Monday. */
  function GetDayString(dayOfWeek: int): (r: Outcome<string>)
    requires IsI32(dayOfWeek)
    ensures r.Done? <==> 1 <= dayOfWeek <= 7
    ensures r.Done? ==> r.value == Dates.DAYS[dayOfWeek - 1]
    ensures dayOfWeek == 8 ==> r == Panic(IndexOutOfBounds(7, 7))
    ensures dayOfWeek == 0 ==> r == Panic(DAY_RANGE)
  {
    Lookup(Dates.DAYS, dayOfWeek, DAY_RANGE)
  }

  /** `get_month_year_string`: the same title the later `calendar_title` draws. */
  function GetMonthYearString(current: MonthAndYear): (r: Outcome<string>)
    requires IsI32(current.month)
    ensures r.Done? <==> 1 <= current.month <= 12
    ensures r.Done? ==> r.value == Dates.CalendarTitle(Dates.Date(1, current.month, current.year))
  {
    match GetMonthString(current.month)
    case Panic(message) => Panic(message)
    case Done(monthString) => Done(" " + monthString + " " + IntToString(current.year) + " ")
  }

  /** The ordinal suffix of `get_agenda_entry_title`, by listing the days. */
  function DayEnd(day: int): string {
    if day == 1 || day == 21 || day == 31 then "st"
    else if day == 2 || day == 22 then "nd"
    else "th"
  }

  /**
   * `get_agenda_entry_title`: the weekday name, then the month name, then the
   * text.  For a date of a valid month whose weekday is not reported as 0 it is
   * the title the later `agenda_title` draws; a Sunday reported as 0 panics.
   */
  function GetAgendaEntryTitle(day: int, month: int, year: int): (r: Outcome<string>)
    requires IsI32(month)
    ensures r.Done? <==> 1 <= month <= 12 && DateConversions.DateToDayOfTheWeek(day, month, year) != 0
    ensures DateConversions.DateToDayOfTheWeek(day, month, year) == 0 ==> r == Panic(DAY_RANGE)
  {
    var dayOfWeek := DateConversions.DateToDayOfTheWeek(day, month, year);
    match GetDayString(dayOfWeek)
    case Panic(message) => Panic(message)
    case Done(dayString) =>
      match GetMonthString(month)
      case Panic(message) => Panic(message)
      case Done(monthString) =>
        Done("  Agenda \U{F01D9} " + dayString + ", " + monthString + " "
             + IntToString(day) + DayEnd(day) + " " + IntToString(year) + " ")
  }

  /** For the days of a month the suffixes of both generations agree. */
  lemma DayEndAgrees(day: int)
    requires 1 <= day <= 31
    ensures DayEnd(day) == Dates.OrdinalSuffix(day)
  {
  }

  /**
   * Where it does not panic, the preview title of a day 1..31 is the title the
   * later `agenda_title` draws.
   */
  lemma TitleAgrees(day: int, month: int, year: int)
    requires 1 <= day <= 31 && 1 <= month <= 12
    requires DateConversions.DateToDayOfTheWeek(day, month, year) != 0
    ensures GetAgendaEntryTitle(day, month, year) == Done(Dates.AgendaTitle(Dates.Date(day, month, year)))
  {
    var d := Dates.Date(day, month, year);
    Dates.DayStringNamesWeekday(d);
    DayEndAgrees(day);
    assert GetDayString(Dates.DayOfWeek(d)) == Done(Dates.DayString(d));
    assert GetMonthString(month) == Done(Dates.MonthString(d));
  }

  /** 4 March 2001, a Sunday reported as weekday 0: its preview title panics. */
  lemma SundayTitlePanics()
    ensures GetAgendaEntryTitle(4, 3, 2001) == Panic(DAY_RANGE)
  {
    Dates.WeekdayExamples();
  }

  /** The three months of the calendar panels. */
  function PanelMonths(current: MonthAndYear): (MonthAndYear, MonthAndYear, MonthAndYear) {
    var next := GetNextMonthAndYear(current);
    (current, next, GetNextMonthAndYear(next))
  }

  /** The same three months as the later interface shows for the 1st of the month. */
  lemma PanelMonthsAgree(current: MonthAndYear)
    requires 1 <= current.month <= 12
    ensures var months := PanelMonths(current);
      Dates.Date(1, months.1.month, months.1.year) == Dates.FirstOfNextMonth(Dates.Date(1, current.month, current.year))
      && Dates.Date(1, months.2.month, months.2.year) == Dates.FirstOfNextMonth(Dates.Date(1, months.1.month, months.1.year))
  {
  }

  /** The three `create_calendar_text` calls, all styled against the given date. */
  method CalendarPanels(currentDate: Date, entries: seq<Date>)
    returns (current: seq<Line>, next: seq<Line>, secondNext: seq<Line>)
    ensures var months := PanelMonths(MonthAndYear(currentDate.month, currentDate.year));
      current == CalendarRender.CalendarText(months.0.month, months.0.year, currentDate, entries)
      && next == CalendarRender.CalendarText(months.1.month, months.1.year, currentDate, entries)
      && secondNext == CalendarRender.CalendarText(months.2.month, months.2.year, currentDate, entries)
  {
    var currentMonthAndYear := MonthAndYear(currentDate.month, currentDate.year);
    var nextMonthAndYear := GetNextMonthAndYear(currentMonthAndYear);
    var secondNextMonthAndYear := GetNextMonthAndYear(nextMonthAndYear);
    current := CalendarRender.CreateCalendarText(currentMonthAndYear.month, currentMonthAndYear.year, currentDate, entries);
    next := CalendarRender.CreateCalendarText(nextMonthAndYear.month, nextMonthAndYear.year, currentDate, entries);
    secondNext := CalendarRender.CreateCalendarText(secondNextMonthAndYear.month, secondNextMonthAndYear.year, currentDate, entries);
  }

  /**
   * The preview's next entry: the same pick as the later interface, but under
   * the derived day-first order, so "on or after" compares days first.
   */
  method NextNonempty(currentDate: Date, entries: seq<Date>) returns (r: Date)
    ensures r == currentDate || r in entries
    ensures Le(currentDate, r)
    ensures |Selection.Candidates(entries, currentDate, Le)| < 2 ==> r == currentDate
    ensures |Selection.Candidates(entries, currentDate, Le)| >= 2 ==>
      Selection.LeastOf(r, Selection.Later(Selection.Candidates(entries, currentDate, Le), currentDate), Le)
  {
    LeIsTotalOrder();
    r := Selection.NextNonempty(entries, currentDate, Le);
  }

  /** Under a total order a multiset has at most one least element. */
  lemma LeastIsUnique(a: Date, b: Date, m: multiset<Date>)
    requires Selection.LeastOf(a, m, Le) && Selection.LeastOf(b, m, Le)
    ensures a == b
  {
    LeIsTotalOrder();
  }

  /** A reference date and entries for which the day-first order picks a past date. */
  const EXAMPLE_REFERENCE: Date := Date(10, 1, 2024)
  const EXAMPLE_ENTRIES: seq<Date> := [Date(20, 1, 2024), Date(15, 3, 2023), Date(16, 3, 2023)]

  /** Every entry of the example counts as "on or after" the reference, since its day is at least 10. */
  lemma ExampleCandidates()
    ensures Selection.Candidates(EXAMPLE_ENTRIES, EXAMPLE_REFERENCE, Le) == EXAMPLE_ENTRIES
  {
    var entries := EXAMPLE_ENTRIES;
    assert entries[..2] == [Date(20, 1, 2024), Date(15, 3, 2023)];
    assert entries[..2][..1] == [Date(20, 1, 2024)];
    assert entries[..2][..1][..0] == [];
  }

  /**
   * With the reference 10 January 2024 and entries 20 January 2024, 15 March
   * 2023 and 16 March 2023 the pick is the least entry in day-first order,
   * 15 March 2023, which lies in the past.
   */
  lemma PastEntryPicked(r: Date)
    requires Selection.LeastOf(r, Selection.Later(Selection.Candidates(EXAMPLE_ENTRIES, EXAMPLE_REFERENCE, Le), EXAMPLE_REFERENCE), Le)
    ensures r == Date(15, 3, 2023)
    ensures Dates.Before(ToDate(r), ToDate(EXAMPLE_REFERENCE))
  {
    ExampleLater();
    ExampleLeast();
    LeastIsUnique(r, Date(15, 3, 2023), multiset(EXAMPLE_ENTRIES));
    assert ToDate(Date(15, 3, 2023)) == Dates.Date(15, 3, 2023);
  }

  /** The reference is not among the example entries, so all of them are later candidates. */
  lemma ExampleLater()
    ensures Selection.Later(Selection.Candidates(EXAMPLE_ENTRIES, EXAMPLE_REFERENCE, Le), EXAMPLE_REFERENCE)
            == multiset(EXAMPLE_ENTRIES)
  {
    ExampleCandidates();
    assert EXAMPLE_REFERENCE !in EXAMPLE_ENTRIES;
  }

  /** 15 March 2023 is the least example entry in day-first order. */
  lemma ExampleLeast()
    ensures Selection.LeastOf(Date(15, 3, 2023), multiset(EXAMPLE_ENTRIES), Le)
  {
    var least := Date(15, 3, 2023);
    forall x | x in multiset(EXAMPLE_ENTRIES)
      ensures Le(least, x)
    {
      assert x in EXAMPLE_ENTRIES;
    }
    assert EXAMPLE_ENTRIES[1] == least;
  }

  /** The preview line shown when a date has no agenda file. */
  const NO_ENTRY_LINE: Line := [Span(NO_ENTRY, Notice)]

  /**
   * The text of a preview panel: when the date's file exists it is loaded by
   * the strict loader, whose panic ends the program, and drawn unfiltered;
   * otherwise the notice.
   */
  method PreviewText(fileExists: bool, file: FileParser.FileRead) returns (r: Outcome<seq<Line>>)
    ensures !fileExists ==> r == Done([NO_ENTRY_LINE])
    ensures fileExists ==> (r.Done? <==> AgendaParser.ParseAgendaToml(file).Done?)
    ensures fileExists && r.Done? ==>
      var agenda := AgendaParser.ParseAgendaToml(file).value;
      r.value == AgendaRender.AllDayLines(agenda.day) + AgendaRender.AllTimedLines(agenda.timestamp)
  {
    if fileExists {
      match AgendaParser.ParseAgendaToml(file) {
        case Panic(message) =>
          r := Panic(message);
        case Done(agenda) =>
          var text := AgendaRender.CreateAgendaText(agenda);
          r := Done(text);
      }
    } else {
      r := Done([NO_ENTRY_LINE]);
    }
  }
}
