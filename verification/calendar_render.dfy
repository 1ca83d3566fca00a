/**
 * `src/ui/calendar_render.rs`: the first generation's month calendar, drawn
 * for a bare month and year from the free functions of `date_conversions`,
 * with cells styled against the older `entry_search::Date`.
 *
 * The dates of the agenda entries are a parameter instead of a directory scan,
 * and the hard-coded colours become style tags.
 */
module CalendarRender {
  import opened RustOps
  import opened DateConversions
  import opened EntrySearch
  import opened WeekGrid
  import Dates
  import Calendar

  /**
   * The labelled cells of days 1..n, styled against `current` and `entries`.
   * This generation draws over `entry_search::Date`, a type of its own, so
   * its cells are defined over that type; `SameCells` proves them equal to
   * `Calendar.MonthCells` over the later `Date`.
   */
  function MonthCells(month: int, year: int, current: Date, entries: seq<Date>, n: nat): (r: Line)
    ensures |r| == n
    ensures forall i :: 0 <= i < n ==>
      r[i] == Span(DayLabel(i + 1), CellStyle(Date(i + 1, month, year), current, entries))
  {
    if n == 0 then []
    else MonthCells(month, year, current, entries, n - 1)
         + [Span(DayLabel(n), CellStyle(Date(n, month, year), current, entries))]
  }

  /** The leading boxes, then the cells of days 1..n. */
  function Prefix(month: int, year: int, current: Date, entries: seq<Date>, n: nat): Line {
    Lead(DateToDayOfTheWeek(1, month, year)) + MonthCells(month, year, current, entries, n)
  }

  lemma PrefixStep(month: int, year: int, current: Date, entries: seq<Date>, n: nat)
    requires n >= 1
    ensures Prefix(month, year, current, entries, n)
            == Prefix(month, year, current, entries, n - 1)
               + [Span(DayLabel(n), CellStyle(Date(n, month, year), current, entries))]
  {
  }

  /** All the cells of the month. */
  function Stream(month: int, year: int, current: Date, entries: seq<Date>): Line {
    Prefix(month, year, current, entries, MonthToDaysInMonth(month, year))
  }

  /** The calendar of a month: a line holding one space, the weekday header, the week rows. */
  function CalendarText(month: int, year: int, current: Date, entries: seq<Date>): seq<Line> {
    [[Span(" ", Raw)], [Span(DAYS_SHORT, Header)]]
      + Rows(Stream(month, year, current, entries), FirstCap(DateToDayOfTheWeek(1, month, year)))
  }

  /** `create_calendar_text`, with the loops of the source. */
  method CreateCalendarText(month: int, year: int, currentDate: Date, entries: seq<Date>)
    returns (calendarText: seq<Line>)
    ensures calendarText == CalendarText(month, year, currentDate, entries)
  {
    calendarText := [[Span(" ", Raw)]];
    calendarText := calendarText + [[Span(DAYS_SHORT, Header)]];
    ghost var head := calendarText;
    assert head == [[Span(" ", Raw)], [Span(DAYS_SHORT, Header)]];

    var firstDayOfTheMonth := DateToDayOfTheWeek(1, month, year);
    var daysInMonth := MonthToDaysInMonth(month, year);
    ghost var first := FirstCap(firstDayOfTheMonth);

    var daysLine: Line := [];
    var weekdayCounter := firstDayOfTheMonth;

    if firstDayOfTheMonth > 1 {
      for i := 1 to firstDayOfTheMonth
        invariant daysLine == Boxes(i - 1)
      {
        daysLine := daysLine + [Span(BOX, Plain)];
      }
    }
    DrawStart(head, firstDayOfTheMonth);
    assert Prefix(month, year, currentDate, entries, 0) == Lead(firstDayOfTheMonth);

    for dayCounter := 1 to daysInMonth + 1
      invariant Drawn(calendarText, head, daysLine, weekdayCounter,
                      Prefix(month, year, currentDate, entries, dayCounter - 1), first)
    {
      var date := Date(dayCounter, month, year);
      var style := CellStyle(date, currentDate, entries);
      DrawStep(calendarText, head, daysLine, weekdayCounter,
               Prefix(month, year, currentDate, entries, dayCounter - 1), first, Span(DayLabel(dayCounter), style));
      PrefixStep(month, year, currentDate, entries, dayCounter);
      var dayText := if dayCounter < 10 then "│ " + IntToString(dayCounter) + "  "
                   else "│ " + IntToString(dayCounter) + " ";
      assert dayText == DayLabel(dayCounter);
      daysLine := daysLine + [Span(dayText, style)];
      weekdayCounter := weekdayCounter + 1;
      if weekdayCounter > 7 {
        daysLine := daysLine + [Span(BAR, Plain)];
        weekdayCounter := 1;
        calendarText := calendarText + [daysLine];
        daysLine := [];
      }
    }

    DrawFinish(calendarText, head, daysLine, weekdayCounter, Stream(month, year, currentDate, entries), first);
    ghost var grid := head + Rows(Stream(month, year, currentDate, entries), first);
    if |daysLine| > 0 {
      daysLine := PadRow(daysLine, weekdayCounter);
      calendarText := calendarText + [daysLine];
    }
    assert calendarText == grid;
  }

  /** The entry dates as `Date` values of the second generation. */
  function ToDates(entries: seq<Date>): (r: seq<Dates.Date>)
    ensures |r| == |entries|
    ensures forall i :: 0 <= i < |entries| ==> r[i] == ToDate(entries[i])
  {
    if |entries| == 0 then [] else ToDates(entries[..|entries| - 1]) + [ToDate(entries[|entries| - 1])]
  }

  lemma ToDatesMembership(x: Date, entries: seq<Date>)
    ensures x in entries <==> ToDate(x) in ToDates(entries)
  {
    if ToDate(x) in ToDates(entries) {
      var i :| 0 <= i < |entries| && ToDates(entries)[i] == ToDate(x);
      assert entries[i] == x;
    }
  }

  lemma {:induction false} SameCells(month: int, year: int, current: Date, entries: seq<Date>, n: nat)
    ensures MonthCells(month, year, current, entries, n)
            == Calendar.MonthCells(month, year, ToDate(current), ToDates(entries), n)
  {
    if n > 0 {
      SameCells(month, year, current, entries, n - 1);
      ToDatesMembership(Date(n, month, year), entries);
    }
  }

  /**
   * Both generations draw the same week rows for the same month, selected day
   * and entries; only the first line differs (a space instead of nothing).
   */
  lemma SameWeeksAsCalendar(month: int, year: int, current: Date, entries: seq<Date>)
    ensures CalendarText(month, year, current, entries)[1..]
            == Calendar.MonthGrid(Dates.Date(1, month, year), ToDate(current), ToDates(entries))[1..]
    ensures CalendarText(month, year, current, entries)[0] == [Span(" ", Raw)]
    ensures Calendar.MonthGrid(Dates.Date(1, month, year), ToDate(current), ToDates(entries))[0] == [Span("", Raw)]
  {
    SameStream(month, year, current, entries);
    var first := DateToDayOfTheWeek(1, month, year);
    assert first == Calendar.FirstWeekday(Dates.Date(1, month, year));
    SameTail([Span(" ", Raw)], [Span("", Raw)], [Span(DAYS_SHORT, Header)],
             Rows(Stream(month, year, current, entries), FirstCap(first)));
  }

  /** Both generations lay out the same boxes and cells for a month. */
  lemma SameStream(month: int, year: int, current: Date, entries: seq<Date>)
    ensures Stream(month, year, current, entries)
            == Calendar.Stream(Dates.Date(1, month, year), ToDate(current), ToDates(entries))
  {
    SameCells(month, year, current, entries, MonthToDaysInMonth(month, year));
  }

  /** Two grids that differ only in their first line. */
  lemma SameTail(a: Line, b: Line, header: Line, rows: seq<Line>)
    ensures ([a, header] + rows)[1..] == ([b, header] + rows)[1..]
    ensures ([a, header] + rows)[0] == a
  {
    assert ([a, header] + rows)[1..] == [header] + rows;
    assert ([b, header] + rows)[1..] == [header] + rows;
  }
}
