/**
 * `src/ui/agenda.rs`: the lines shown for one day's agenda.  Full-day events
 * come first, then timed events, each in file order; an event whose text is
 * empty (the placeholder of the default agenda) is not shown.
 */
module AgendaView {
  import opened WeekGrid
  import opened FileParser

  const DAY_MARK: string := "\U{F10D4} \U{F01D9} "
  const TIME_SEPARATOR: string := " \U{F45B}  "
  const EVENT_MARK: string := " \U{F01D9} "

  /** The line of a full-day event. */
  function DayLine(e: DayEvent): Line {
    [Span(DAY_MARK + e.event, FullDayEvent)]
  }

  /** The line of a timed event: start, end, event. */
  function TimedLine(t: TimedEvent): Line {
    [Span(t.start + TIME_SEPARATOR + t.end + EVENT_MARK + t.event, Style.TimedEvent)]
  }

  /** The lines of the full-day events with a non-empty text, in order. */
  function DayLines(days: seq<DayEvent>): (r: seq<Line>)
    ensures |r| <= |days|
  {
    if |days| == 0 then []
    else
      var last := days[|days| - 1];
      DayLines(days[..|days| - 1]) + (if last.event != "" then [DayLine(last)] else [])
  }

  /** The lines of the timed events with a non-empty event text, in order. */
  function TimedLines(times: seq<TimedEvent>): (r: seq<Line>)
    ensures |r| <= |times|
  {
    if |times| == 0 then []
    else
      var last := times[|times| - 1];
      TimedLines(times[..|times| - 1]) + (if last.event != "" then [TimedLine(last)] else [])
  }

  /** Everything `render` shows for an agenda. */
  function AgendaLines(agenda: Agenda): seq<Line> {
    DayLines(agenda.day) + TimedLines(agenda.timestamp)
  }

  /** `render`: two loops, each pushing the line of every event with a non-empty text. */
  method Render(agenda: Agenda) returns (agendaText: seq<Line>)
    ensures agendaText == AgendaLines(agenda)
  {
    agendaText := [];
    for i := 0 to |agenda.day|
      invariant agendaText == DayLines(agenda.day[..i])
    {
      var dayEvent := agenda.day[i];
      if dayEvent.event != "" {
        agendaText := agendaText + [DayLine(dayEvent)];
      }
      assert agenda.day[..i + 1][..i] == agenda.day[..i];
    }
    assert agenda.day[..|agenda.day|] == agenda.day;
    for i := 0 to |agenda.timestamp|
      invariant agendaText == DayLines(agenda.day) + TimedLines(agenda.timestamp[..i])
    {
      var timedEvent := agenda.timestamp[i];
      if timedEvent.event != "" {
        agendaText := agendaText + [TimedLine(timedEvent)];
      }
      assert agenda.timestamp[..i + 1][..i] == agenda.timestamp[..i];
    }
    assert agenda.timestamp[..|agenda.timestamp|] == agenda.timestamp;
  }

  lemma DayLineInjective(a: DayEvent, b: DayEvent)
    requires DayLine(a) == DayLine(b)
    ensures a == b
  {
    assert a.event == (DAY_MARK + a.event)[|DAY_MARK|..];
    assert b.event == (DAY_MARK + b.event)[|DAY_MARK|..];
  }

  /** A full-day event is shown exactly when it is in the agenda with a non-empty text. */
  lemma {:induction false} DayLinesMembership(days: seq<DayEvent>, e: DayEvent)
    ensures DayLine(e) in DayLines(days) <==> e in days && e.event != ""
  {
    if |days| > 0 {
      var init, last := days[..|days| - 1], days[|days| - 1];
      assert days == init + [last];
      DayLinesMembership(init, e);
      if DayLine(e) == DayLine(last) {
        DayLineInjective(e, last);
      }
    }
  }

  /** Every line before the timed events is a full-day line, every line after is a timed line. */
  lemma {:induction false} LineStyles(agenda: Agenda)
    ensures forall i :: 0 <= i < |DayLines(agenda.day)| ==>
      |AgendaLines(agenda)[i]| == 1 && AgendaLines(agenda)[i][0].style == FullDayEvent
    ensures forall i :: |DayLines(agenda.day)| <= i < |AgendaLines(agenda)| ==>
      |AgendaLines(agenda)[i]| == 1 && AgendaLines(agenda)[i][0].style == Style.TimedEvent
  {
    DayLineStyles(agenda.day);
    TimedLineStyles(agenda.timestamp);
    var d := DayLines(agenda.day);
    forall i | |d| <= i < |AgendaLines(agenda)|
      ensures |AgendaLines(agenda)[i]| == 1 && AgendaLines(agenda)[i][0].style == Style.TimedEvent
    {
      assert AgendaLines(agenda)[i] == TimedLines(agenda.timestamp)[i - |d|];
    }
  }

  lemma {:induction false} DayLineStyles(days: seq<DayEvent>)
    ensures forall i :: 0 <= i < |DayLines(days)| ==> |DayLines(days)[i]| == 1 && DayLines(days)[i][0].style == FullDayEvent
  {
    if |days| > 0 {
      DayLineStyles(days[..|days| - 1]);
    }
  }

  lemma {:induction false} TimedLineStyles(times: seq<TimedEvent>)
    ensures forall i :: 0 <= i < |TimedLines(times)| ==> |TimedLines(times)[i]| == 1 && TimedLines(times)[i][0].style == Style.TimedEvent
  {
    if |times| > 0 {
      TimedLineStyles(times[..|times| - 1]);
    }
  }

  /**
   * Only the event text decides: a timed event with a start and an end but no
   * text is hidden, and the default agenda shows no line at all.
   */
  lemma EmptyEventsHidden()
    ensures TimedLines([FileParser.TimedEvent("09:00", "10:00", "")]) == []
    ensures AgendaLines(DEFAULT_AGENDA) == []
  {
    var t := [FileParser.TimedEvent("09:00", "10:00", "")];
    assert t[..0] == [];
    var d := DEFAULT_AGENDA;
    assert d.day[..0] == [] && d.timestamp[..0] == [];
  }
}
