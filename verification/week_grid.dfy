/**
 * The month grid that both calendar renderers draw, stated declaratively.
 *
 * A renderer produces one stream of cells: the placeholder boxes for the
 * weekdays before the 1st, then one labelled cell per day.  The stream is cut
 * into rows: the first row holds `first` cells (7 normally), every later row 7;
 * a full row is closed with a bar, and a last, partial row is padded with
 * boxes up to its capacity and finished with the end box.  `Closed`, `Open`
 * and `Cap` describe a prefix of the stream (the rows finished so far, the row
 * being filled, its capacity); `Rows` is the finished grid.
 */
module WeekGrid {
  import opened RustOps

  /** Style tags standing for the ratatui styles built from the configured colours. */
  datatype Style = Raw | Header | Plain | Selected | WithEntry | FullDayEvent | TimedEvent | Hint | Notice

  datatype Span = Span(text: string, style: Style)

  type Line = seq<Span>

  const DAYS_SHORT: string := "| Mo | Tu | We | Th | Fr | Sa | Su |"
  const BOX: string := "│ \U{F0E5E}  "
  const BOX_END: string := "│ \U{F0E5E}  │"
  const BAR: string := "│"

  /** `n` placeholder cells. */
  function Boxes(n: nat): (r: Line)
    ensures |r| == n
    ensures forall i :: 0 <= i < n ==> r[i] == Span(BOX, Plain)
  {
    if n == 0 then [] else Boxes(n - 1) + [Span(BOX, Plain)]
  }

  /** The boxes before the 1st: one per weekday before `w` (none when `w` is 0 or 1). */
  function Lead(w: int): (r: Line)
    ensures w >= 1 ==> |r| == w - 1
    ensures w < 1 ==> r == []
  {
    Boxes(if w > 1 then w - 1 else 0)
  }

  /**
   * Cells in the first row.  The counter starts at `w` and closes the row once
   * it passes 7, after `8 - w` days, which follow `w - 1` boxes: 7 cells for
   * `w` in 1..7, but 8 for `w` = 0.
   */
  function FirstCap(w: int): nat {
    if w == 0 then 8 else 7
  }

  /** Label of day `n`: numbers below 10 get two trailing spaces, the others one. */
  function DayLabel(n: int): string {
    "│ " + IntToString(n) + (if n < 10 then "  " else " ")
  }

  /** Every day label of a month is as wide as a placeholder box, so columns line up. */
  lemma DayLabelWidth(n: int)
    requires 1 <= n <= 99
    ensures |DayLabel(n)| == |BOX| == 5
  {
    NatToStringLength(n);
  }

  /**
   * Cell style: the selected date wins over an entry, an entry over the plain
   * style.
   */
  function CellStyle<D(==)>(date: D, given: D, entries: seq<D>): (s: Style)
    ensures s == Selected <==> date == given
    ensures s == WithEntry <==> date != given && date in entries
    ensures s == Plain <==> date != given && date !in entries
  {
    if date == given then Selected else if date in entries then WithEntry else Plain
  }

  /** The capacity of the row being filled after the cells `p`. */
  function Cap(p: Line, first: nat): nat {
    if |p| < first then first else 7
  }

  /** The rows closed after the cells `p`: each full row followed by a bar. */
  function Closed(p: Line, first: nat): seq<Line>
    requires first >= 1
    decreases |p|
  {
    if |p| < first then [] else [p[..first] + [Span(BAR, Plain)]] + Closed(p[first..], 7)
  }

  /** Every closed row holds the cells of a full row and ends with the bar. */
  lemma {:induction false} ClosedRows(p: Line, first: nat)
    requires first >= 1
    ensures forall i :: 0 <= i < |Closed(p, first)| ==>
      |Closed(p, first)[i]| == (if i == 0 then first else 7) + 1
      && Closed(p, first)[i][|Closed(p, first)[i]| - 1] == Span(BAR, Plain)
    decreases |p|
  {
    if |p| >= first {
      ClosedRows(p[first..], 7);
    }
  }

  /** The cells of the row still open after the cells `p`. */
  function Open(p: Line, first: nat): (o: Line)
    requires first >= 1
    ensures |o| < Cap(p, first)
    decreases |p|
  {
    if |p| < first then p else Open(p[first..], 7)
  }

  /** The open row padded to its capacity with boxes and the end box, if it has cells. */
  function LastRow(o: Line, cap: nat): seq<Line>
    requires |o| < cap
  {
    if |o| == 0 then [] else [o + Boxes(cap - 1 - |o|) + [Span(BOX_END, Plain)]]
  }

  /**
   * The padding both renderers end with: boxes while the weekday counter is
   * below 7, then the end box.
   */
  method PadRow(daysLine: Line, weekdayCounter: int) returns (row: Line)
    requires weekdayCounter <= 7
    ensures row == daysLine + Boxes(7 - weekdayCounter) + [Span(BOX_END, Plain)]
  {
    row := daysLine;
    var counter := weekdayCounter;
    while counter < 7
      invariant weekdayCounter <= counter <= 7
      invariant row == daysLine + Boxes(counter - weekdayCounter)
    {
      row := row + [Span(BOX, Plain)];
      counter := counter + 1;
    }
    row := row + [Span(BOX_END, Plain)];
  }

  /** The finished grid of the cells `p`. */
  function Rows(p: Line, first: nat): seq<Line>
    requires first >= 1
  {
    Closed(p, first) + LastRow(Open(p, first), Cap(p, first))
  }

  /**
   * Appending one cell: it joins the open row, and when that row reaches its
   * capacity the row is closed and a new, empty one of capacity 7 begins.
   */
  lemma {:induction false} Snoc(p: Line, first: nat, x: Span)
    requires first >= 1
    ensures |Open(p, first)| + 1 < Cap(p, first) ==>
      Closed(p + [x], first) == Closed(p, first) &&
      Open(p + [x], first) == Open(p, first) + [x] &&
      Cap(p + [x], first) == Cap(p, first)
    ensures |Open(p, first)| + 1 == Cap(p, first) ==>
      Closed(p + [x], first) == Closed(p, first) + [Open(p, first) + [x] + [Span(BAR, Plain)]] &&
      Open(p + [x], first) == [] &&
      Cap(p + [x], first) == 7
    decreases |p|
  {
    var q := p + [x];
    if |p| < first {
      if |p| + 1 == first {
        assert q[..first] == p + [x];
        assert q[first..] == [];
      }
    } else {
      assert q[..first] == p[..first];
      assert q[first..] == p[first..] + [x];
      Snoc(p[first..], 7, x);
    }
  }

  /**
   * What a renderer holds after drawing the cells `p` below the lines `head`:
   * the closed rows appended to `text`, the open row in `line`, and a weekday
   * counter that reaches 8 exactly when the open row is full.
   */
  ghost predicate Drawn(text: seq<Line>, head: seq<Line>, line: Line, counter: int, p: Line, first: nat)
    requires first >= 1
  {
    text == head + Closed(p, first) && line == Open(p, first) && counter == |line| + 8 - Cap(p, first)
  }

  /** Before the first day: the leading boxes form the open row and the counter is the first weekday. */
  lemma DrawStart(head: seq<Line>, w: int)
    requires 0 <= w <= 7
    ensures Drawn(head, head, Lead(w), w, Lead(w), FirstCap(w))
  {
    assert head + [] == head;
  }

  /**
   * One day: the cell joins the open row and the counter advances; past 7 the
   * row is closed with a bar and the counter restarts at 1.
   */
  lemma DrawStep(text: seq<Line>, head: seq<Line>, line: Line, counter: int, p: Line, first: nat, x: Span)
    requires first >= 1 && Drawn(text, head, line, counter, p, first)
    ensures counter + 1 > 7 ==> Drawn(text + [line + [x] + [Span(BAR, Plain)]], head, [], 1, p + [x], first)
    ensures counter + 1 <= 7 ==> Drawn(text, head, line + [x], counter + 1, p + [x], first)
  {
    Snoc(p, first, x);
  }

  /** After the last day: padding the open row, if it has cells, completes the grid. */
  lemma DrawFinish(text: seq<Line>, head: seq<Line>, line: Line, counter: int, p: Line, first: nat)
    requires first >= 1 && Drawn(text, head, line, counter, p, first)
    ensures |line| > 0 ==>
      counter <= 7 && text + [line + Boxes(7 - counter) + [Span(BOX_END, Plain)]] == head + Rows(p, first)
    ensures |line| == 0 ==> text == head + Rows(p, first)
  {
  }

  /** A grid whose stream fills the first row: that row, then the grid of the rest. */
  lemma RowsUnfold(p: Line, first: nat)
    requires first >= 1 && |p| >= first
    ensures Rows(p, first) == [p[..first] + [Span(BAR, Plain)]] + Rows(p[first..], 7)
  {
  }

  /**
   * In a grid of 7-cell rows the k-th cell of the stream sits in row k / 7,
   * column k % 7: consecutive cells fill the week left to right, row by row.
   */
  lemma {:induction false} Position(p: Line, k: nat)
    requires k < |p|
    ensures k / 7 < |Rows(p, 7)|
    ensures k % 7 < |Rows(p, 7)[k / 7]|
    ensures Rows(p, 7)[k / 7][k % 7] == p[k]
    decreases |p|
  {
    if |p| < 7 {
      DivUnique(k, 7, 0, k);
      assert Rows(p, 7) == [p + Boxes(7 - 1 - |p|) + [Span(BOX_END, Plain)]];
    } else if k < 7 {
      DivUnique(k, 7, 0, k);
      RowsUnfold(p, 7);
    } else {
      Position(p[7..], k - 7);
      DivUnique(k, 7, (k - 7) / 7 + 1, (k - 7) % 7);
      PositionLater(p, k - 7);
    }
  }

  /** The rows after the first are the rows of the cells after the first seven. */
  lemma PositionLater(p: Line, j: nat)
    requires |p| >= 7 && j < |p| - 7
    requires j / 7 < |Rows(p[7..], 7)|
    ensures 1 + j / 7 < |Rows(p, 7)| && Rows(p, 7)[1 + j / 7] == Rows(p[7..], 7)[j / 7]
  {
    RowsUnfold(p, 7);
  }

  /** Closed rows hold 7 cells and a bar; the last row holds 7 cells, the end box last. */
  lemma {:induction false} RowShapes(p: Line)
    ensures forall i :: 0 <= i < |Closed(p, 7)| ==>
      |Rows(p, 7)[i]| == 8 && Rows(p, 7)[i][7] == Span(BAR, Plain)
    ensures |Open(p, 7)| > 0 ==>
      |Rows(p, 7)[|Rows(p, 7)| - 1]| == 7 && Rows(p, 7)[|Rows(p, 7)| - 1][6] == Span(BOX_END, Plain)
  {
    var rows := Rows(p, 7);
    var closed := Closed(p, 7);
    ClosedRows(p, 7);
    forall i | 0 <= i < |closed|
      ensures |rows[i]| == 8 && rows[i][7] == Span(BAR, Plain)
    {
      assert rows[i] == closed[i];
    }
  }

  /** The grid of `n` cells has ceil(n / 7) rows. */
  lemma {:induction false} RowCount(p: Line)
    ensures |Closed(p, 7)| == |p| / 7
    ensures |Open(p, 7)| == |p| % 7
    ensures |Rows(p, 7)| == (|p| + 6) / 7
    decreases |p|
  {
    if |p| >= 7 {
      RowCount(p[7..]);
    }
  }

  /** `x` is drawn in line `row`, column `col` of `grid`. */
  predicate At(grid: seq<Line>, row: int, col: int, x: Span) {
    0 <= row < |grid| && 0 <= col < |grid[row]| && grid[row][col] == x
  }

  /** Below a two-line header, the k-th cell sits in line 2 + k/7, column k%7. */
  lemma HeadedPosition(head: seq<Line>, p: Line, k: nat)
    requires |head| == 2 && k < |p|
    ensures At(head + Rows(p, 7), 2 + k / 7, k % 7, p[k])
  {
    Position(p, k);
    assert (head + Rows(p, 7))[2 + k / 7] == Rows(p, 7)[k / 7];
  }

  lemma HeadedShape(head: seq<Line>, p: Line)
    requires |head| == 2
    ensures |head + Rows(p, 7)| == 2 + (|p| + 6) / 7
    ensures forall i :: 2 <= i < 2 + |p| / 7 ==>
      |(head + Rows(p, 7))[i]| == 8 && (head + Rows(p, 7))[i][7] == Span(BAR, Plain)
    ensures |p| % 7 != 0 ==>
      var grid := head + Rows(p, 7);
      |grid[|grid| - 1]| == 7 && grid[|grid| - 1][6] == Span(BOX_END, Plain)
  {
    var rows := Rows(p, 7);
    var grid := head + rows;
    RowCount(p);
    RowShapes(p);
    forall i | 2 <= i < 2 + |p| / 7
      ensures |grid[i]| == 8 && grid[i][7] == Span(BAR, Plain)
    {
      assert grid[i] == rows[i - 2];
    }
    if |p| % 7 != 0 {
      assert grid[|grid| - 1] == rows[|rows| - 1];
    }
  }

  /**
   * With a first row of capacity 8 (a first weekday of 0) the first row holds
   * 8 cells and a bar: one cell more than the weekday header has columns.
   */
  lemma WideFirstRow(p: Line)
    requires |p| >= 8
    ensures |Rows(p, 8)[0]| == 9
  {
    RowsUnfold(p, 8);
    ClosedRows(p, 8);
  }
}
