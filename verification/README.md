# crust: calendar dates, agenda files and the terminal calendar, in Dafny

crust is a terminal calendar and agenda tool. Each day's agenda is a TOML file named
`dd-mm-yyyy.toml` in the cache directory. The file holds `[[day]]` tables (full-day events) and
`[[timestamp]]` tables (timed events). The interface shows three month calendars, the agenda of
the chosen date and the agenda of the next date that has an entry. The arrow keys move the chosen
date one day at a time.

This project models the core of the program:

- the date algebra of `Date`: weekday by Zeller's congruence, leap years, month lengths,
  validation, increment, decrement, `add_days`, the first of the next month, file names, titles
  and the ordering;
- the first generation's free functions in `date_conversions`;
- reading, listing and writing agenda files, for both generations (`file::parser` and the older
  `agenda_parser`);
- the "next non-empty date" pick of both user interfaces;
- the month-grid layout of both calendar renderers;
- the agenda line lists of both agenda renderers;
- the day-shift state of the window's event loop.

Rust's truncating `/` and `%` are written out (`RustOps`). Integers are unbounded, except where
the source's `i32` to `usize` cast matters (`UiConfig`). The ratatui styles become style tags and
spans become (text, tag) pairs. The directory, the files, the key events and the entry dates
are parameters or a `Directory` object holding a map from file name to text.

Module by module:

- **Dates** (`src/date/date.rs`): `Date` is a `Copy` struct that the program only mutates on
  private copies, so it is a value. `add_days` keeps its two counting loops and is proved equal
  to the recursive `Shifted`.
- **DateConversions**: the free functions, each proved to compute what the `Date` method
  computes.
- **FileParser**: `parse_agenda_toml` and `get_agenda` sort the timed events with an insertion
  sort (`Sorting`), proved sorted and a permutation. `get_agenda_entries` is a loop that keeps the
  valid dates of matching names. `write_entry` appends to a `Directory` (`EntryStore`), whose
  `open` and `write` may fail and whose `write` may take only part of its text.
- **AgendaParser**, **EntrySearch**, **AgendaEntry**: the older loader, directory scan and entry
  writer. They panic on every failure, keep invalid dates, and use a derived day-first order.
- **WeekGrid**: the grid both calendar renderers draw, stated as a function of the cell stream.
  **Calendar** and **CalendarRender** keep the source loops and prove them equal to that grid.
- **AgendaView** and **AgendaRender**: the two agenda renderers. **Window** is the event loop.
  **Ui** and **UiConfig** are the two user interfaces without their layout.

Where the source's doc comments and its code disagree, the model follows the code:

- `day_of_week` can return 0, though its doc comment (`src/date/date.rs:45`) promises 1 to 7;
- `decrement` is not the inverse of `increment` on 31 December, though its doc comment
  (`src/date/date.rs:180-183`) promises the previous day;
- `next_nonempty` returns the reference date when exactly one later entry exists;
- the older interface's `next_nonempty` (`src/ui/ui_config.rs:229-246`) compares dates in the
  derived day-first order, so it can pick a past date.

Each of these is listed under Findings.

## Model

| member | source | states |
|---|---|---|
| RustOps.DivRem | src/date/date.rs:56-75 | Rust's truncating `/` and `%` for a positive divisor: `a == b*q + r`, the remainder takes the sign of `a`, and the quotient has magnitude `abs(a)/b` |
| RustOps.RemZeroLeapModuli | src/date/date.rs:83-101 | divisibility tested with Rust's `%` agrees with mathematical divisibility by 4, 100 and 400 |
| RustOps.AgreesWhenNonNegative | src/date/date.rs:56-75 | for a non-negative dividend Rust's `/` and `%` agree with the Euclidean ones |
| RustOps.NatToString | src/date/date.rs:259-280 | the decimal text is non-empty, all digits, and has no leading zero from 10 on |
| RustOps.NatToStringRoundTrip | src/date/date.rs:259-280 | the decimal text of a number reads back as that number |
| RustOps.NatToStringLength | src/date/date.rs:259-280 | one digit below 10, exactly two digits for 10..99, four digits for 1000..9999 |
| Dates.DayOfWeek | src/date/date.rs:43-76 | `day_of_week` as written lies in 0..7 and equals the true weekday except that some Sundays come out as 0 |
| Dates.RustWeekday | src/date/date.rs:56-75 | the source's final reduction of any Zeller sum lies in 0..7 and equals the true weekday, except 0 where the true weekday is Sunday |
| Dates.ZellerDaysApart | src/date/date.rs:43-76 | within one month the Zeller sum of day d is that of the 1st plus d-1 |
| Dates.DayOfWeekFixed | src/date/date.rs:43-76 | the weekday with a Euclidean final reduction always lies in 1..7 |
| Dates.DayOfWeekFixedAdvances | src/date/date.rs:43-76 | from each valid date to the next, the corrected weekday advances by one, Sunday wrapping to Monday |
| Dates.DayOfWeekFixedShifted | src/date/date.rs:43-76 | moving n days forward moves the corrected weekday n places around the week |
| Dates.ShiftedWeekdays | src/date/date.rs:43-76 | the corrected weekday n days after a date is that date's weekday advanced n times by one, Sunday wrapping to Monday |
| Dates.WeekdayAfterClosed | src/date/date.rs:43-76 | advancing a weekday n times by one lands n places further round the week |
| Dates.ZellerStep | src/date/date.rs:43-76 | the Zeller sum of consecutive valid dates differs by 1 modulo 7, across month, February and century boundaries |
| Dates.WeekdayExamples | src/date/date.rs:43-76 | 1 Jan 2000 is Saturday (6), 16 Sep 2001 is Sunday (7), and 4 Mar 2001 comes out as 0 though it is a Sunday |
| Dates.ValidEdges | src/date/date.rs:126-150 | 29 February is valid exactly in leap years, day 31 exactly in the seven long months, day 30 in every month but February, the 1st in every month 1..12, day 0 never, and all only for a positive year |
| Dates.IsLeapYear | src/date/date.rs:83-101 | a year is leap iff divisible by 4 and not by 100 unless by 400 |
| Dates.MaxDay | src/date/date.rs:108-124 | February has 28 or 29 days by the leap rule; April, June, September and November have 30; the other months have 31 |
| Dates.Cmp | src/date/date.rs:369-412 | `cmp` is Equal exactly on equal dates, Less exactly when the first date is chronologically earlier and Greater exactly when it is later |
| Dates.LeIsTotalOrder | src/date/date.rs:377-412 | the `<=` derived from `cmp` is total, antisymmetric and transitive |
| Dates.Increment | src/date/date.rs:157-178 | `increment` yields a chronologically later date and keeps dates valid |
| Dates.Decrement | src/date/date.rs:185-202 | `decrement` as written yields an earlier date, at most one year back, valid for valid inputs after 1 Jan of year 1 |
| Dates.DecrementAfterIncrement | src/date/date.rs:157-202 | on a valid date, decrement after increment returns the date iff it is not 31 December |
| Dates.IncrementAfterDecrement | src/date/date.rs:157-202 | on a valid date, increment after decrement returns the date iff it is not 1 January |
| Dates.DecrementSkipsDecember | src/date/date.rs:185-202 | 1 January becomes 30 November of the previous year, so one day forward and back from 31 December lands on 30 November |
| Dates.DecrementFixed | src/date/date.rs:185-202 | the corrected decrement yields an earlier date and keeps dates valid |
| Dates.DecrementFixedInverse | src/date/date.rs:157-202 | the corrected decrement is the two-sided inverse of increment on valid dates |
| Dates.AddDays | src/date/date.rs:209-227 | the two counting loops of `add_days` apply increment n times for n > 0 and decrement -n times for n < 0 |
| Dates.ShiftedForward | src/date/date.rs:209-227 | moving forward from a valid date keeps it valid and reaches a strictly later date |
| Dates.ShiftedBackward | src/date/date.rs:209-227 | moving back n days from a valid date after year n keeps it valid and reaches a strictly earlier date |
| Dates.ShiftedWithinMonth | src/date/date.rs:209-227 | moving forward within a month adds to the day number only |
| Dates.ShiftedFixedValid | src/date/date.rs:209-227 | with the corrected decrement, moving n days keeps a date valid while it stays after year 0 |
| Dates.ShiftedFixedRoundTrip | src/date/date.rs:209-227 | with the corrected decrement, moving n days then -n days returns the original date, in both directions |
| Dates.FirstOfNextMonth | src/date/date.rs:232-247 | `first_of_next_month` is the 1st of a later month, the day after the month's last day, and valid for valid dates |
| Dates.MonthString | src/date/date.rs:291-301 | the month's name for 1..12, the error text otherwise |
| Dates.DayStringNamesWeekday | src/date/date.rs:307-318 | `day_string` names the true weekday unless `day_of_week` reports 0, and gives the error text exactly then |
| Dates.TitlesNameTheDate | src/date/date.rs:320-348 | the calendar title is the month's name and the year; the agenda title is the weekday's name, the month's name, the day with its suffix and the year, with the error text for a Sunday reported as 0 |
| Dates.OrdinalSuffix | src/date/date.rs:328-348 | for days 1..31 the suffix is "st" exactly for 1, 21, 31, "nd" exactly for 2, 22, and "th" otherwise |
| DateConversions.DateToDayOfTheWeek | src/calendar_logic/date_conversions.rs:1-32 | the free function computes exactly `Date::day_of_week`, including the Sunday reported as 0 |
| DateConversions.IsLeapYearFlag | src/calendar_logic/date_conversions.rs:34-62 | 1 exactly for Gregorian leap years, 0 otherwise |
| DateConversions.MonthToDaysInMonth | src/calendar_logic/date_conversions.rs:63-79 | the month length equals `Date::max_day`, between 28 and 31 for months 1..12 |
| FileNames.PatternExamples | src/file/parser.rs:132-134 | the pattern checks the shape only: month 13 and day 39 match, a one-digit day, day 40, month 20, a five-digit year or another extension do not |
| FileNames.ParseEntryName | src/file/parser.rs:131-186 | the three capture groups of a matching name parse to a day 0..39, a month 0..19 and a year 0..9999 |
| FileNames.FileNameRoundTrip | src/date/date.rs:250-285 | the file name of a valid date matches the scan's pattern and parses back to the same date iff its year has four digits |
| FileNames.ParseEntryNameRoundTrip | src/file/parser.rs:131-186 | a matching name is the file name of the date it parses to iff its year does not start with '0' |
| FileNames.FileNameShape | src/date/date.rs:250-285 | for a four-digit year the file name is the two-digit day, a dash, the two-digit month, a dash, the four year digits and ".toml" |
| FileNames.FileNameLength | src/date/date.rs:250-285 | a file name is 11 characters plus the year's digits |
| FileParser.StrLeTotal | src/file/parser.rs:25-30 | the derived string order is total |
| FileParser.StrLeTransitive | src/file/parser.rs:25-30 | the derived string order is transitive |
| FileParser.TimedEventLeTotalOrder | src/file/parser.rs:25-30 | the derived order on (start, end, event) is a total order |
| FileParser.WithDefaults | src/file/parser.rs:38-58 | a table missing from the file takes the default agenda's single empty event, a present one is kept |
| FileParser.ParseAgendaToml | src/file/parser.rs:65-100 | `None` exactly when opening, reading, parsing or converting fails; otherwise the full-day events with defaults and the timed events sorted and a permutation of the file's |
| FileParser.GetAgenda | src/date/date.rs:356-366 | an agenda exactly when the file exists and parses, with the same guarantees |
| FileParser.ScanEntries | src/file/parser.rs:142-197 | the listed dates are valid and at most one per directory item |
| FileParser.ScanEntriesMembership | src/file/parser.rs:142-197 | a date is listed iff some item is a readable, UTF-8, matching name that parses to it |
| FileParser.ScanEntriesAppend | src/file/parser.rs:143-196 | scanning a listing in two parts gives the concatenation of the parts' dates, in listing order |
| FileParser.ListedIffFilePresent | src/file/parser.rs:108-198 | a valid four-digit-year date is listed iff its own file name is in the directory |
| FileParser.GetAgendaEntries | src/file/parser.rs:108-198 | no cache directory or an unreadable one gives no dates; otherwise the loop's result is the scan of the listing |
| FileParser.InvalidNamesSkipped | src/file/parser.rs:186-190 | month 13 and 31 February are skipped, 29 February 2024 is kept |
| FileParser.EntryBlock | src/file/parser.rs:221-242 | the table begins with its `[[day]]` or `[[timestamp]]` header, a timed table continues with the start and end lines, and every table ends with the event line |
| FileParser.WriteEntry | src/file/parser.rs:201-244 | a failed open panics with the open message and changes nothing; otherwise only the day's file, created if missing, changes: it gains the part of the entry's table the write takes, and a failed write panics with the write message |
| EntryStore.Written | src/file/parser.rs:221-242 | a write stores a prefix of its text: nothing when it fails, all of it when it takes at least its length, exactly the count taken otherwise |
| EntryStore.StoredComplete | src/agenda_entry/entry.rs:20-36 | when every write of a run takes its whole text, the run stores all its pieces joined |
| EntryStore.StoredUpToFailure | src/agenda_entry/entry.rs:20-36 | when the j-th write fails after whole writes, the run stores exactly the first j pieces, a prefix of the whole |
| EntryStore.RunStep | src/agenda_entry/entry.rs:20-36 | a failed write ends the run with what it stored in the file and not every write accepted; an accepted one extends the stored text by its part |
| EntryStore.Directory.Open | src/file/parser.rs:206-217 | the open succeeds as the system decides, and on success a missing file is created empty; nothing else changes |
| EntryStore.Directory.Write | src/file/parser.rs:221-242 | the part of the text the system takes goes to the end of the open file, and the call reports its length or the failure |
| AgendaEntry.HandleAgendaEntry | src/agenda_entry/entry.rs:6-38 | a failed open panics on the `unwrap` and changes nothing; otherwise the day's file gains what the separate writes store, the call completes iff every write is accepted, and a failed write panics with the `expect` message |
| AgendaEntry.WritePiece | src/agenda_entry/entry.rs:22-23 | one write and its `expect`: it panics with the `expect` message iff the write fails, leaving the run's stored text in the file; otherwise the file gains the piece's part |
| AgendaEntry.WriteDayTable | src/agenda_entry/entry.rs:20-25 | the header and the event line are written in turn, stopping with the `expect` panic at the first failed write |
| AgendaEntry.WriteTimedTable | src/agenda_entry/entry.rs:26-36 | the header and the start, end and event lines are written in turn, stopping with the `expect` panic at the first failed write |
| AgendaEntry.PiecesMakeBlock | src/agenda_entry/entry.rs:20-36 | joined, the separate writes' texts are the table `write_entry` appends in one write |
| AgendaEntry.CompleteWritesStoreBlock | src/agenda_entry/entry.rs:20-36 | when every write takes its whole text, the file gains exactly the table `write_entry` appends |
| AgendaEntry.FailedWriteLeavesPrefix | src/agenda_entry/entry.rs:20-36 | when a write fails after whole writes, the file gains a prefix of that table |
| AgendaEntry.LoneTimestampHeader | src/agenda_entry/entry.rs:29-32 | a timed entry whose second write fails leaves a lone `[[timestamp]]` header |
| AgendaParser.DateToFiledir | src/agenda_parser/parser.rs:29-52 | the older path names the same file as `to_filepath` |
| AgendaParser.DateToFiledirFields | src/agenda_parser/parser.rs:29-52 | day and month are two digits with a leading zero, followed by the unpadded year and ".toml" |
| AgendaParser.ParseAgendaToml | src/agenda_parser/parser.rs:54-64 | the strict loader succeeds iff the file parses with both tables present, and panics otherwise |
| EntrySearch.LeIsTotalOrder | src/agenda_parser/entry_search.rs:5-10 | the derived order on (day, month, year) is a total order |
| EntrySearch.OrderIsNotChronological | src/agenda_parser/entry_search.rs:5-10 | 1 Feb 2025 sorts before 15 Jan 2024 under the derived order |
| EntrySearch.OrderAgreesWithinMonth | src/agenda_parser/entry_search.rs:5-10 | between dates of one month and year the derived order is chronological |
| EntrySearch.Scan | src/agenda_parser/entry_search.rs:26-39 | when the scan completes it lists at most one date per item, each with a day 0..39, a month 0..19 and a year 0..9999 |
| EntrySearch.ScanPanics | src/agenda_parser/entry_search.rs:23-39 | the scan panics iff some directory item is unreadable or not UTF-8 |
| EntrySearch.ScanThenValidate | src/agenda_parser/entry_search.rs:12-41 | when the older scan succeeds, keeping its valid dates gives the newer scan's list |
| EntrySearch.ScanMatchingName | src/agenda_parser/entry_search.rs:27-38 | every matching name appends its parsed date, valid or not |
| EntrySearch.InvalidNamesKept | src/agenda_parser/entry_search.rs:27-38 | 31 Feb 2024 and 00-00-0000 are listed although invalid |
| EntrySearch.GetAgendaEntries | src/agenda_parser/entry_search.rs:12-41 | an unreadable directory panics with the source's message; otherwise the loop's result is the scan of the listing |
| EntrySearch.ScanPanicPersists | src/agenda_parser/entry_search.rs:23-39 | once a prefix of the listing panics, the whole scan panics the same way |
| EntrySearch.IsBetweenDates | src/agenda_parser/entry_search.rs:43-49 | true iff the date lies strictly between the bounds in the derived order |
| Sorting.Sort | src/file/parser.rs:98 | the sorted sequence is ordered and a permutation of the input |
| Sorting.SortedUnique | src/file/parser.rs:98 | under a total order two sorted permutations of one multiset are equal, so the unstable sort's result is determined |
| Sorting.Insert | src/file/parser.rs:98 | inserting into a sorted sequence keeps it sorted and adds exactly the one element |
| Selection.Candidates | src/ui/ui.rs:137-140 | the candidates are exactly the entries on or after the reference |
| Selection.NextNonempty | src/ui/ui.rs:143-153 | with fewer than two candidates the reference, otherwise the least candidate other than the reference; always on or after the reference and either the reference or an entry |
| Selection.OneLaterEntryIgnored | src/ui/ui.rs:150-152 | a single later entry is a single candidate, so the pick as written shows the reference |
| Selection.NextNonemptyFixed | src/ui/ui.rs:143-153 | the intended pick: the least candidate other than the reference whenever one exists |
| Selection.CandidatesMultiplicity | src/ui/ui.rs:137-140 | filtering never duplicates an entry: each value occurs among the candidates at most as often as among the entries |
| Selection.LaterExcludesReference | src/ui/ui.rs:137-148 | when the reference is listed at most once, setting it aside leaves no copy of it among the candidates |
| WeekGrid.Boxes | src/ui/calendar.rs:56-66 | n placeholder cells |
| WeekGrid.DayLabelWidth | src/ui/calendar.rs:94-104 | every day label of a month is as wide as a placeholder box |
| WeekGrid.CellStyle | src/ui/calendar.rs:75-92 | a cell is selected iff it is the given date, marked iff it is another entry date, plain otherwise |
| WeekGrid.PadRow | src/ui/calendar.rs:115-134 | the last row gets a box for each weekday after the counter, then the end box |
| WeekGrid.Snoc | src/ui/calendar.rs:69-113 | one more cell joins the open row, or closes it with a bar when it reaches its capacity |
| WeekGrid.DrawStep | src/ui/calendar.rs:106-112 | each drawn day either extends the open row or, once the counter passes 7, closes the row with a bar and restarts the counter at 1; either way the text stays the grid of the cells drawn so far |
| WeekGrid.ClosedRows | src/ui/calendar.rs:106-112 | every closed row holds a full week of cells followed by the bar |
| WeekGrid.Position | src/ui/calendar.rs:69-113 | in 7-cell rows the k-th cell of the stream sits in row k/7, column k%7 |
| WeekGrid.RowCount | src/ui/calendar.rs:69-134 | n cells make ceil(n/7) rows, n/7 of them closed |
| WeekGrid.HeadedPosition | src/ui/calendar.rs:20-137 | below two header lines, the k-th cell of the stream sits in line 2 + k/7, column k%7 |
| WeekGrid.HeadedShape | src/ui/calendar.rs:20-137 | below two header lines, every closed row has 7 cells and a bar, and a partial last row has 7 cells ending in the end box |
| WeekGrid.WideFirstRow | src/ui/calendar.rs:56-113 | with a first weekday of 0 the first row has 8 cells and a bar, one column too many |
| Calendar.MonthCells | src/ui/calendar.rs:69-104 | one labelled cell per day, styled against the given date and the entries |
| Calendar.Render | src/ui/calendar.rs:20-137 | the loops draw exactly the grid of the month's cell stream below a blank line and the weekday header |
| Calendar.ColumnIsWeekday | src/ui/calendar.rs:56-113 | counting columns from the 1st's weekday puts each day on its own weekday |
| Calendar.DayCell | src/ui/calendar.rs:69-104 | the cell for day d carries d's label and the style of that date against the given date and the entries |
| Calendar.CellPosition | src/ui/calendar.rs:20-137 | the k-th cell of the month's stream is drawn in line 2 + k/7, column k%7 of the calendar |
| Calendar.DayInWeekdayColumn | src/ui/calendar.rs:20-137 | with w the 1st's weekday, day d is cell w-2+d of the stream, that cell is d's label with its style, and its column plus one is d's true weekday |
| Calendar.LeadingBoxes | src/ui/calendar.rs:56-66 | the cells before the 1st in the first row are boxes |
| Calendar.GridShape | src/ui/calendar.rs:20-137 | the calendar has 2 + ceil((w-1+days)/7) lines, with full rows closed by a bar and the last row padded to the end box |
| Calendar.April2001FirstRowTooWide | src/ui/calendar.rs:56-113 | April 2001 starts on a Sunday reported as 0, so its first row is 9 spans wide |
| CalendarRender.CreateCalendarText | src/ui/calendar_render.rs:10-124 | the older loops draw exactly the grid of the month's cell stream below a one-space line and the weekday header |
| CalendarRender.ToDatesMembership | src/agenda_parser/entry_search.rs:5-10 | converting the older dates keeps membership in both directions |
| CalendarRender.SameCells | src/ui/calendar_render.rs:40-93 | both generations label and style every day's cell alike |
| CalendarRender.SameWeeksAsCalendar | src/ui/calendar_render.rs:10-124 | both renderers produce the same week rows for a month; only the first line differs |
| AgendaView.Render | src/ui/agenda.rs:13-47 | the loops produce the full-day lines, then the timed lines, each in order and without the events whose text is empty |
| AgendaView.DayLinesMembership | src/ui/agenda.rs:18-28 | a full-day event is shown iff it is in the agenda and its text is not empty |
| AgendaView.DayLineInjective | src/ui/agenda.rs:18-28 | distinct full-day events give distinct lines |
| AgendaView.LineStyles | src/ui/agenda.rs:13-47 | every full-day line comes before every timed line, each a single span of its style |
| AgendaView.EmptyEventsHidden | src/ui/agenda.rs:31-44 | a timed event without text is hidden even with a start and end, and the default agenda shows nothing |
| AgendaRender.CreateAgendaText | src/ui/agenda_render.rs:8-32 | one line per event, full-day first, none filtered out |
| AgendaRender.AgreesWithoutPlaceholders | src/ui/agenda_render.rs:8-32 | on agendas without empty events both renderers show the same lines |
| AgendaRender.PlaceholdersShown | src/ui/agenda_render.rs:14-29 | the default agenda gets two placeholder lines here and none in the later renderer |
| Window.NetShiftCounts | src/ui/window.rs:50-83 | after any event sequence the counter has moved by the number of Next minus the number of Previous |
| Window.NetShiftAppend | src/ui/window.rs:50-83 | the counter's moves add up over consecutive event runs |
| Window.NextThenPreviousRestores | src/ui/window.rs:59-80 | Next then Previous restores the counter and so the shown date |
| Window.Window.constructor | src/ui/window.rs:15-51 | the loop starts running, with counter 0, showing the original date |
| Window.Window.HandleEvent | src/ui/window.rs:54-82 | Quit alone stops the loop; Next and Previous move the counter by one and show the original date shifted by it; other events change nothing |
| Window.Window.Run | src/ui/window.rs:50-83 | the loop stops at the first Quit, and the shown date is always the original shifted by the counter |
| Ui.ConsecutiveMonths | src/ui/ui.rs:60-61 | the three calendars are of three consecutive months, the later two from their 1st |
| Ui.Calendars | src/ui/ui.rs:106-109 | the three calendars are the grids of those months, all styled against the given date |
| Ui.NextNonempty | src/ui/ui.rs:134-153 | the pick is never before the given date; with two candidates or more it is the least other than the given date, and strictly later when the date is listed at most once |
| Ui.NoticeIsNotAnAgenda | src/ui/ui.rs:204-223 | no agenda renders to the "No entry" notice |
| Ui.AgendaPanel | src/ui/ui.rs:204-213 | the rendered agenda, or the notice when there is none |
| Ui.AgendaPanels | src/ui/ui.rs:134-223 | a panel shows the notice exactly when its date has no file that parses |
| UiConfig.AsUsize | src/ui/ui_config.rs:61-71 | the `as usize` cast keeps non-negative values and sends negative ones above every `i32` |
| UiConfig.GetNextMonthAndYear | src/ui/ui_config.rs:44-59 | for months 1..12 the result is a month 1..12, and its 1st is the first of the next month |
| UiConfig.Lookup | src/ui/ui_config.rs:61-71 | the `<=` guard with the `usize` cast yields the entry for 1..len, an indexing panic for len+1 whose text gives the length and the index, and the guard's panic for the rest |
| UiConfig.GetMonthString | src/ui/ui_config.rs:61-71 | a name exactly for 1..12, the same as `month_string`; month 13 panics with "index out of bounds: the len is 12 but the index is 12" |
| UiConfig.GetDayString | src/ui/ui_config.rs:79-89 | a name exactly for 1..7; 8 panics with "index out of bounds: the len is 7 but the index is 7" and 0 on the guard |
| UiConfig.IndexMessages | src/ui/ui_config.rs:61-89 | the index panics of the month and day lookups read "index out of bounds: the len is 12 but the index is 12" and "... len is 7 but the index is 7" |
| UiConfig.GetMonthYearString | src/ui/ui_config.rs:73-77 | for months 1..12 the same title as `calendar_title`, otherwise a panic |
| UiConfig.GetAgendaEntryTitle | src/ui/ui_config.rs:91-109 | succeeds iff the month is 1..12 and the weekday is not reported as 0, which panics with the guard's message |
| UiConfig.DayEndAgrees | src/ui/ui_config.rs:91-109 | the older ordinal suffix is the one `agenda_title` uses for days 1..31 |
| UiConfig.TitleAgrees | src/ui/ui_config.rs:91-109 | where it succeeds, the title is the one `agenda_title` draws |
| UiConfig.SundayTitlePanics | src/ui/ui_config.rs:91-109 | the preview title of 4 March 2001 panics |
| UiConfig.PanelMonthsAgree | src/ui/ui_config.rs:157-162 | the three panel months are the month and the next two, as in the later interface |
| UiConfig.CalendarPanels | src/ui/ui_config.rs:157-205 | the three calendars are the older renderer's grids of those months |
| UiConfig.NextNonempty | src/ui/ui_config.rs:229-246 | the pick is the given date or an entry, never before the given date in the day-first order, and with two candidates or more the least one other than the given date in that order |
| UiConfig.PastEntryPicked | src/ui/ui_config.rs:229-246 | for 10 Jan 2024 and entries 20 Jan 2024, 15 Mar 2023, 16 Mar 2023 the pick is 15 Mar 2023, a past date |
| UiConfig.LeastIsUnique | src/ui/ui_config.rs:229-246 | under the day-first total order the least candidate is unique, so the pick is determined |
| UiConfig.PreviewText | src/ui/ui_config.rs:298-332 | the notice when the file is missing; otherwise the strict loader's panic, or all the agenda's lines unfiltered |

## Left out

- Terminal handling (raw mode, alternate screen, drawing, layout, blocks, colours) is left out, and so is key polling. Key events are a sequence parameter, and the loop stops when the sequence runs out.
- `open_editor` and `remove_file` (`src/file/parser.rs:247-279`) are left out: they spawn an external editor and delete a file.
- Argument parsing and `src/main.rs`, including its `add_days_to_date`, are not part of this model.
- The home and cache directory lookup is left out. The directory is the `Directory` object, or a listing or map parameter. TOML decoding is the `FileRead` outcome.
- `Vec::sort` is a library call. It is modelled by an insertion sort on sequences. Equal elements are identical values here, so stability does not matter.
- Window.Window.Run: the source blocks for the next key forever; the model also stops when no events are left.
- UiConfig.Lookup: `i32` subtraction overflow is modelled as the debug-build panic only.
- UiConfig.AsUsize: the cast assumes a 64-bit `usize`.
- Panic messages of `expect` and `unwrap` on an `Err` leave out the `: <error>` text Rust appends, since the error values of the operating system are not modelled.
- The `eprintln!` of the error before each panic in `write_entry` is left out: it prints to standard error and changes no state.
- Whether an `open` or a `write` succeeds, and how much a `write` takes, are parameters chosen by the operating system. A partial write is counted in characters, not bytes, so a write that splits a multi-byte UTF-8 character is not modelled.

## Findings

| source | as written | input that shows it | evidently intended | confidence | as-written member | corrected member |
|---|---|---|---|---|---|---|
| src/date/date.rs:185-202 | on the 1st of January, `decrement` wraps to 31 December and then steps the month back again | 1 January 2024 becomes 30 November 2023 | 31 December 2023, as the doc comment says | high, proved; not executed | Dates.DecrementSkipsDecember | Dates.DecrementFixedInverse |
| src/date/date.rs:43-76 | the final reduction uses Rust's `%`, which keeps the sign of a negative Zeller sum | 4 March 2001 and 1 April 2001 give 0 | 7 (Sunday); the doc comment promises 1..7 | high, proved; not executed | Dates.WeekdayExamples | Dates.DayOfWeekFixedShifted |
| src/ui/ui.rs:143-153 | with fewer than two candidates the reference date is shown | reference 5 Jan 2024 and the single entry 10 Jan 2024 show 5 Jan 2024 | the single later entry, 10 Jan 2024 | medium, proved; not executed | Selection.OneLaterEntryIgnored | Selection.NextNonemptyFixed |
| src/ui/ui_config.rs:229-246 | "on or after" and the sort use the derived day-first order of `entry_search::Date` | reference 10 Jan 2024 with entries 20 Jan 2024, 15 Mar 2023, 16 Mar 2023 picks 15 Mar 2023 | a chronological order, as the later `Ord for Date` gives | high, proved; not executed | UiConfig.PastEntryPicked | Ui.NextNonempty |

The interface modules keep the as-written operations, so that they model the source.
The corrected definitions stand beside them with their intended properties proved:

- **Weekday** (`DayOfWeekFixed`): the calendar's columns are proved to be the true weekdays, given a 1st whose weekday is not reported as 0.
- **Decrement and day shift** (`DecrementFixed`, `ShiftedFixed`): moving n days and back returns to the start.
- **Next-entry pick** (`NextNonemptyFixed`): it returns the least later entry whenever one exists.

The Sunday reported as 0 also widens the first calendar row (`Calendar.April2001FirstRowTooWide`). It also makes the older preview title panic (`UiConfig.SundayTitlePanics`).
