/**
 * `src/ui/ui.rs`: what the interface shows for a date, without the layout:
 * the three month calendars, the next date with an agenda entry, and the
 * text of the two agenda panels.
 *
 * The entry dates and the agenda files of the cache directory are parameters:
 * `cache` maps a date to what reading its file produces, and a date outside
 * `cache` has no file.
 */
module Ui {
  import opened Wrappers
  import opened Dates
  import opened WeekGrid
  import opened FileParser
  import Selection
  import Calendar
  import AgendaView

  const NO_ENTRY: string := "No entry for this date."

  /** The line shown when a date has no agenda file. */
  const NO_ENTRY_LINE: Line := [Span(NO_ENTRY, Hint)]

  /** The months shown: the given date, then the 1st of each of the next two months. */
  function CalendarMonths(date: Date): (Date, Date, Date) {
    var nextMonth := FirstOfNextMonth(date);
    (date, nextMonth, FirstOfNextMonth(nextMonth))
  }

  /** Months counted from year 0: consecutive months differ by one. */
  function MonthNumber(d: Date): int {
    12 * d.year + d.month - 1
  }

  /** The three calendars are of three consecutive months, the later two drawn from their 1st. */
  lemma ConsecutiveMonths(date: Date)
    requires 1 <= date.month <= 12
    ensures MonthNumber(CalendarMonths(date).1) == MonthNumber(date) + 1
    ensures MonthNumber(CalendarMonths(date).2) == MonthNumber(date) + 2
    ensures CalendarMonths(date).1.day == 1 && CalendarMonths(date).2.day == 1
    ensures 1 <= CalendarMonths(date).1.month <= 12 && 1 <= CalendarMonths(date).2.month <= 12
  {
  }

  /** The three `calendar::render` calls, all styled against the given date. */
  method Calendars(date: Date, entries: seq<Date>) returns (given: seq<Line>, next: seq<Line>, secondNext: seq<Line>)
    ensures given == Calendar.MonthGrid(date, date, entries)
    ensures next == Calendar.MonthGrid(CalendarMonths(date).1, date, entries)
    ensures secondNext == Calendar.MonthGrid(CalendarMonths(date).2, date, entries)
  {
    var nextMonth := FirstOfNextMonth(date);
    var secondNextMonth := FirstOfNextMonth(nextMonth);
    given := Calendar.Render(date, date, entries);
    next := Calendar.Render(nextMonth, date, entries);
    secondNext := Calendar.Render(secondNextMonth, date, entries);
  }

  /**
   * The next date with an agenda entry: never before the given date, the given
   * date or one of the entries, and with two candidates or more the earliest
   * one other than the given date.  When the given date is listed at most once
   * and there are two candidates or more, the pick lies strictly after it.
   */
  method NextNonempty(date: Date, entries: seq<Date>) returns (r: Date)
    ensures r == date || r in entries
    ensures Le(date, r)
    ensures |Selection.Candidates(entries, date, Le)| < 2 ==> r == date
    ensures |Selection.Candidates(entries, date, Le)| >= 2 ==>
      Selection.LeastOf(r, Selection.Later(Selection.Candidates(entries, date, Le), date), Le)
    ensures multiset(entries)[date] <= 1 && |Selection.Candidates(entries, date, Le)| >= 2 ==>
      Before(date, r)
  {
    LeIsTotalOrder();
    r := Selection.NextNonempty(entries, date, Le);
    if multiset(entries)[date] <= 1 && |Selection.Candidates(entries, date, Le)| >= 2 {
      Selection.LaterExcludesReference(entries, date, Le);
    }
  }

  /** The text of an agenda panel: the agenda's lines, or the notice when there is none. */
  method AgendaPanel(agenda: Option<Agenda>) returns (text: seq<Line>)
    ensures agenda.Some? ==> text == AgendaView.AgendaLines(agenda.value)
    ensures agenda.None? ==> text == [NO_ENTRY_LINE]
  {
    match agenda {
      case Some(a) =>
        text := AgendaView.Render(a);
      case None =>
        text := [NO_ENTRY_LINE];
    }
  }

  /** The notice cannot be mistaken for an agenda: no agenda renders to it. */
  lemma NoticeIsNotAnAgenda(a: Agenda)
    ensures AgendaView.AgendaLines(a) != [NO_ENTRY_LINE]
  {
    AgendaView.LineStyles(a);
    var lines: seq<Line> := AgendaView.AgendaLines(a);
    if |lines| == 1 {
      assert lines[0][0].style == FullDayEvent || lines[0][0].style == Style.TimedEvent;
    }
  }

  /** What reading the agenda file of `d` produces, if there is one. */
  function Lookup(cache: map<Date, FileRead>, d: Date): FileRead {
    if d in cache then cache[d] else OpenFailed
  }

  /**
   * The agenda side of the interface: the next date with an entry and the
   * texts of the panels for the given and that date.  A panel shows the
   * notice exactly when its date has no file that parses.
   */
  method AgendaPanels(date: Date, entries: seq<Date>, cache: map<Date, FileRead>)
    returns (next: Date, givenText: seq<Line>, nextText: seq<Line>)
    ensures next == date || next in entries
    ensures Le(date, next)
    ensures givenText == [NO_ENTRY_LINE] <==> !(date in cache && cache[date].Parsed?)
    ensures nextText == [NO_ENTRY_LINE] <==> !(next in cache && cache[next].Parsed?)
  {
    next := NextNonempty(date, entries);
    var givenAgenda := GetAgenda(date, date in cache, Lookup(cache, date));
    givenText := AgendaPanel(givenAgenda);
    if givenAgenda.Some? {
      NoticeIsNotAnAgenda(givenAgenda.value);
    }
    var nextAgenda := GetAgenda(next, next in cache, Lookup(cache, next));
    nextText := AgendaPanel(nextAgenda);
    if nextAgenda.Some? {
      NoticeIsNotAnAgenda(nextAgenda.value);
    }
  }
}
