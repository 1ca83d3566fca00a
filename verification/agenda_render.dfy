/**
 * `src/ui/agenda_render.rs`: the first generation's agenda lines.  The line
 * formats are those of `AgendaView`, but every event is shown, the empty
 * placeholders included.
 */
module AgendaRender {
  import opened WeekGrid
  import opened FileParser
  import AgendaView

  /** The line of every full-day event, in order. */
  function AllDayLines(days: seq<DayEvent>): (r: seq<Line>)
    ensures |r| == |days|
    ensures forall i :: 0 <= i < |days| ==> r[i] == AgendaView.DayLine(days[i])
  {
    if |days| == 0 then [] else AllDayLines(days[..|days| - 1]) + [AgendaView.DayLine(days[|days| - 1])]
  }

  /** The line of every timed event, in order. */
  function AllTimedLines(times: seq<TimedEvent>): (r: seq<Line>)
    ensures |r| == |times|
    ensures forall i :: 0 <= i < |times| ==> r[i] == AgendaView.TimedLine(times[i])
  {
    if |times| == 0 then [] else AllTimedLines(times[..|times| - 1]) + [AgendaView.TimedLine(times[|times| - 1])]
  }

  /** `create_agenda_text`: one line per full-day event, then one per timed event. */
  method CreateAgendaText(agenda: Agenda) returns (agendaText: seq<Line>)
    ensures |agendaText| == |agenda.day| + |agenda.timestamp|
    ensures agendaText == AllDayLines(agenda.day) + AllTimedLines(agenda.timestamp)
  {
    agendaText := [];
    for i := 0 to |agenda.day|
      invariant agendaText == AllDayLines(agenda.day[..i])
    {
      agendaText := agendaText + [AgendaView.DayLine(agenda.day[i])];
      assert agenda.day[..i + 1][..i] == agenda.day[..i];
    }
    assert agenda.day[..|agenda.day|] == agenda.day;
    for i := 0 to |agenda.timestamp|
      invariant agendaText == AllDayLines(agenda.day) + AllTimedLines(agenda.timestamp[..i])
    {
      agendaText := agendaText + [AgendaView.TimedLine(agenda.timestamp[i])];
      assert agenda.timestamp[..i + 1][..i] == agenda.timestamp[..i];
    }
    assert agenda.timestamp[..|agenda.timestamp|] == agenda.timestamp;
  }

  lemma {:induction false} SameDayLines(days: seq<DayEvent>)
    requires forall i :: 0 <= i < |days| ==> days[i].event != ""
    ensures AgendaView.DayLines(days) == AllDayLines(days)
  {
    if |days| > 0 {
      SameDayLines(days[..|days| - 1]);
    }
  }

  lemma {:induction false} SameTimedLines(times: seq<TimedEvent>)
    requires forall i :: 0 <= i < |times| ==> times[i].event != ""
    ensures AgendaView.TimedLines(times) == AllTimedLines(times)
  {
    if |times| > 0 {
      SameTimedLines(times[..|times| - 1]);
    }
  }

  /**
   * On an agenda without empty events both generations show the same lines;
   * they differ only in the placeholders, which the later one hides: the
   * default agenda gets two lines here and none there.
   */
  lemma AgreesWithoutPlaceholders(agenda: Agenda)
    requires forall i :: 0 <= i < |agenda.day| ==> agenda.day[i].event != ""
    requires forall i :: 0 <= i < |agenda.timestamp| ==> agenda.timestamp[i].event != ""
    ensures AgendaView.AgendaLines(agenda) == AllDayLines(agenda.day) + AllTimedLines(agenda.timestamp)
  {
    SameDayLines(agenda.day);
    SameTimedLines(agenda.timestamp);
  }

  /** The default agenda: two placeholder lines here, none in the later renderer. */
  lemma PlaceholdersShown()
    ensures AllDayLines(DEFAULT_AGENDA.day) + AllTimedLines(DEFAULT_AGENDA.timestamp)
            == [AgendaView.DayLine(DayEvent("")), AgendaView.TimedLine(FileParser.TimedEvent("", "", ""))]
    ensures AgendaView.AgendaLines(DEFAULT_AGENDA) == []
  {
    AgendaView.EmptyEventsHidden();
  }
}
