/**
 * `src/ui/calendar.rs`: the month calendar drawn as lines of styled spans.
 *
 * The agenda entries (the dates `get_agenda_entries` finds) are a parameter
 * instead of a directory scan, and the configured colours become style tags.
 */
module Calendar {
  import opened RustOps
  import opened Dates
  import opened WeekGrid

  /** The labelled cells of days 1..n of a month, styled against `given` and `entries`. */
  function MonthCells(month: int, year: int, given: Date, entries: seq<Date>, n: nat): (r: Line)
    ensures |r| == n
    ensures forall i :: 0 <= i < n ==>
      r[i] == Span(DayLabel(i + 1), CellStyle(Date(i + 1, month, year), given, entries))
  {
    if n == 0 then []
    else MonthCells(month, year, given, entries, n - 1)
         + [Span(DayLabel(n), CellStyle(Date(n, month, year), given, entries))]
  }

  /** The cell of day `d`. */
  lemma DayCell(month: int, year: int, given: Date, entries: seq<Date>, n: nat, d: int)
    requires 1 <= d <= n
    ensures MonthCells(month, year, given, entries, n)[d - 1]
         == Span(DayLabel(d), CellStyle(Date(d, month, year), given, entries))
  {
    var i := d - 1;
    assert i + 1 == d;
  }

  /** The first weekday of the month of `date`, as `day_of_week` computes it. */
  function FirstWeekday(date: Date): int {
    DayOfWeek(Date(1, date.month, date.year))
  }

  /** The leading boxes, then the cells of days 1..n. */
  function Prefix(date: Date, given: Date, entries: seq<Date>, n: nat): Line {
    Lead(FirstWeekday(date)) + MonthCells(date.month, date.year, given, entries, n)
  }

  lemma PrefixStep(date: Date, given: Date, entries: seq<Date>, n: nat)
    requires n >= 1
    ensures Prefix(date, given, entries, n)
            == Prefix(date, given, entries, n - 1)
               + [Span(DayLabel(n), CellStyle(Date(n, date.month, date.year), given, entries))]
  {
  }

  /** The cells of the month of `date`: the leading boxes, then every day. */
  function Stream(date: Date, given: Date, entries: seq<Date>): Line {
    Prefix(date, given, entries, MaxDay(Date(1, date.month, date.year)))
  }

  /** The calendar of the month of `date`: a blank line, the weekday header, the week rows. */
  function MonthGrid(date: Date, given: Date, entries: seq<Date>): seq<Line> {
    [[Span("", Raw)], [Span(DAYS_SHORT, Header)]]
      + Rows(Stream(date, given, entries), FirstCap(FirstWeekday(date)))
  }

  /**
   * `render`: pushes the leading boxes, one cell per day while counting the
   * weekday and closing the row after Sunday, then pads the last row.
   */
  method Render(date: Date, givenDate: Date, entries: seq<Date>) returns (calendarText: seq<Line>)
    ensures calendarText == MonthGrid(date, givenDate, entries)
  {
    calendarText := [[Span("", Raw)]];
    calendarText := calendarText + [[Span(DAYS_SHORT, Header)]];
    ghost var head := calendarText;
    assert head == [[Span("", Raw)], [Span(DAYS_SHORT, Header)]];

    var firstOfMonth := Date(1, date.month, date.year);
    var firstWeekdayOfMonth := DayOfWeek(firstOfMonth);
    var daysInMonth := MaxDay(firstOfMonth);
    ghost var first := FirstCap(firstWeekdayOfMonth);

    var daysLine: Line := [];
    var weekdayCounter := firstWeekdayOfMonth;

    if firstWeekdayOfMonth > 1 {
      for i := 1 to firstWeekdayOfMonth
        invariant daysLine == Boxes(i - 1)
      {
        daysLine := daysLine + [Span(BOX, Plain)];
      }
    }
    DrawStart(head, firstWeekdayOfMonth);
    assert Prefix(date, givenDate, entries, 0) == Lead(firstWeekdayOfMonth);

    for dayCounter := 1 to daysInMonth + 1
      invariant Drawn(calendarText, head, daysLine, weekdayCounter,
                      Prefix(date, givenDate, entries, dayCounter - 1), first)
    {
      var currentDate := Date(dayCounter, date.month, date.year);
      var style := CellStyle(currentDate, givenDate, entries);
      DrawStep(calendarText, head, daysLine, weekdayCounter,
               Prefix(date, givenDate, entries, dayCounter - 1), first, Span(DayLabel(dayCounter), style));
      PrefixStep(date, givenDate, entries, dayCounter);
      var dayText := if dayCounter < 10 then "│ " + IntToString(dayCounter) + "  "
                   else "│ " + IntToString(dayCounter) + " ";
      assert dayText == DayLabel(dayCounter);
      daysLine := daysLine + [Span(dayText, style)];
      weekdayCounter := weekdayCounter + 1;
      if weekdayCounter > 7 {
        daysLine := daysLine + [Span(BAR, Plain)];
        weekdayCounter := 1;
        calendarText := calendarText + [daysLine];
        daysLine := [];
      }
    }

    DrawFinish(calendarText, head, daysLine, weekdayCounter, Stream(date, givenDate, entries), first);
    ghost var grid := head + Rows(Stream(date, givenDate, entries), first);
    if |daysLine| > 0 {
      daysLine := PadRow(daysLine, weekdayCounter);
      calendarText := calendarText + [daysLine];
    }
    assert calendarText == grid;
  }

  /**
   * The column arithmetic behind the layout: counting from the 1st's weekday,
   * day `d` lands on its own weekday.
   */
  lemma ColumnIsWeekday(date: Date, d: int)
    requires Valid(Date(1, date.month, date.year))
    requires FirstWeekday(date) != 0
    requires 1 <= d <= MaxDay(Date(1, date.month, date.year))
    ensures (FirstWeekday(date) - 2 + d) % 7 + 1 == DayOfWeekFixed(Date(d, date.month, date.year))
  {
    var first := Date(1, date.month, date.year);
    assert FirstWeekday(date) == DayOfWeekFixed(first);
    ZellerDaysApart(d, date.month, date.year);
    WeekdayOfAdvance(FirstWeekday(date), ZellerSum(1, date.month, date.year), ZellerSum(d, date.month, date.year), d);
  }

  /** In a month whose 1st has a weekday in 1..7, the k-th cell is drawn in row k/7, column k%7 of the week rows. */
  lemma CellPosition(date: Date, given: Date, entries: seq<Date>, k: nat)
    requires FirstWeekday(date) != 0
    requires k < |Stream(date, given, entries)|
    ensures At(MonthGrid(date, given, entries), 2 + k / 7, k % 7, Stream(date, given, entries)[k])
  {
    HeadedPosition([[Span("", Raw)], [Span(DAYS_SHORT, Header)]], Stream(date, given, entries), k);
  }

  /**
   * The layout promise for a month whose 1st gets a weekday in 1..7: day `d`
   * is cell `w - 2 + d` of the stream, so (by `CellPosition`) it sits in row
   * `(w - 2 + d) / 7` and column `(w - 2 + d) % 7`, and that column is the
   * day's own weekday.
   */
  lemma DayInWeekdayColumn(date: Date, given: Date, entries: seq<Date>, d: int)
    requires Valid(Date(1, date.month, date.year))
    requires FirstWeekday(date) != 0
    requires 1 <= d <= MaxDay(Date(1, date.month, date.year))
    ensures var k := FirstWeekday(date) - 2 + d;
      0 <= k < |Stream(date, given, entries)|
      && Stream(date, given, entries)[k] == Span(DayLabel(d), CellStyle(Date(d, date.month, date.year), given, entries))
      && k % 7 + 1 == DayOfWeekFixed(Date(d, date.month, date.year))
  {
    DayCell(date.month, date.year, given, entries, MaxDay(Date(1, date.month, date.year)), d);
    ColumnIsWeekday(date, d);
  }

  /** The cells before the 1st in the first week row are boxes. */
  lemma LeadingBoxes(date: Date, given: Date, entries: seq<Date>, j: int)
    requires FirstWeekday(date) != 0
    requires 0 <= j < FirstWeekday(date) - 1
    ensures 2 < |MonthGrid(date, given, entries)| && j < |MonthGrid(date, given, entries)[2]|
    ensures MonthGrid(date, given, entries)[2][j] == Span(BOX, Plain)
  {
    var p := Stream(date, given, entries);
    Position(p, j);
  }

  /**
   * The row shapes: every closed week row has 7 cells and a bar, the last row
   * 7 cells ending in the end box, and there are ceil((w - 1 + days) / 7) rows
   * after the two header lines.
   */
  lemma GridShape(date: Date, given: Date, entries: seq<Date>)
    requires FirstWeekday(date) != 0
    ensures var grid := MonthGrid(date, given, entries);
      var cells := FirstWeekday(date) - 1 + MaxDay(Date(1, date.month, date.year));
      |grid| == 2 + (cells + 6) / 7
      && (forall i :: 2 <= i < 2 + cells / 7 ==> |grid[i]| == 8 && grid[i][7] == Span(BAR, Plain))
      && (cells % 7 != 0 ==> |grid[|grid| - 1]| == 7 && grid[|grid| - 1][6] == Span(BOX_END, Plain))
  {
    var w := FirstWeekday(date);
    var p := Stream(date, given, entries);
    assert |p| == w - 1 + MaxDay(Date(1, date.month, date.year));
    assert MonthGrid(date, given, entries) == [[Span("", Raw)], [Span(DAYS_SHORT, Header)]] + Rows(p, 7);
    HeadedShape([[Span("", Raw)], [Span(DAYS_SHORT, Header)]], p);
  }

  /**
   * April 2001 starts on a Sunday that `day_of_week` reports as 0: no box is
   * drawn and the first row takes 8 days and a bar, one column more than the
   * header.
   */
  lemma April2001FirstRowTooWide(given: Date, entries: seq<Date>)
    ensures FirstWeekday(Date(1, 4, 2001)) == 0
    ensures |MonthGrid(Date(1, 4, 2001), given, entries)[2]| == 9
  {
    WideFirstRow(Stream(Date(1, 4, 2001), given, entries));
  }
}
