/**
 * `src/ui/window.rs`: the event loop of the terminal window, reduced to its
 * state.  The window keeps the date it was opened on, a `run` flag and a day
 * shift counter; after every Next or Previous it redraws for the original
 * date moved by the counter, always starting again from the original.
 *
 * Key events arrive as a sequence instead of being polled from the terminal;
 * the loop stops at Quit or when the sequence is used up.
 */
module Window {
  import opened Dates

  datatype KeyEvent = NoEvent | Quit | Next | Previous

  /** The counter change of one event. */
  function Shift(e: KeyEvent): int {
    match e
    case Next => 1
    case Previous => -1
    case _ => 0
  }

  /** The counter change of a run of events. */
  function NetShift(events: seq<KeyEvent>): int {
    if |events| == 0 then 0 else NetShift(events[..|events| - 1]) + Shift(events[|events| - 1])
  }

  /** The counter moves by the number of Next events minus the number of Previous events. */
  lemma {:induction false} NetShiftCounts(events: seq<KeyEvent>)
    ensures NetShift(events) == multiset(events)[Next] as int - multiset(events)[Previous] as int
  {
    if |events| > 0 {
      var init := events[..|events| - 1];
      assert events == init + [events[|events| - 1]];
      NetShiftCounts(init);
    }
  }

  lemma {:induction false} NetShiftAppend(a: seq<KeyEvent>, b: seq<KeyEvent>)
    ensures NetShift(a + b) == NetShift(a) + NetShift(b)
  {
    if |b| > 0 {
      assert (a + b)[..|a + b| - 1] == a + b[..|b| - 1];
      NetShiftAppend(a, b[..|b| - 1]);
    } else {
      assert a + b == a;
    }
  }

  /**
   * Next followed by Previous leaves the counter, and so the displayed date,
   * where it was, even across a month or year boundary.  Stepping the shown
   * date itself one day forward and back would not: from 31 December that
   * lands on 30 November (`Dates.DecrementSkipsDecember`).
   */
  lemma NextThenPreviousRestores(events: seq<KeyEvent>, original: Date)
    ensures NetShift(events + [Next, Previous]) == NetShift(events)
    ensures Shifted(original, NetShift(events + [Next, Previous])) == Shifted(original, NetShift(events))
  {
    NetShiftAppend(events, [Next, Previous]);
    assert [Next, Previous][..1] == [Next];
    assert [Next][..0] == [];
  }

  class Window {
    const original: Date
    var run: bool
    var dayShiftCounter: int
    /** The date the interface is currently drawn for. */
    var displayed: Date

    /** The drawn date is the original moved by the counter. */
    ghost predicate Valid()
      reads this
    {
      displayed == Shifted(original, dayShiftCounter)
    }

    /** The loop state before the first event: running, no shift, the original date drawn. */
    constructor(date: Date)
      ensures original == date && run && dayShiftCounter == 0 && displayed == date
      ensures Valid()
    {
      original := date;
      run := true;
      dayShiftCounter := 0;
      displayed := date;
    }

    /**
     * One pass of the loop body: Quit clears `run`, Next and Previous move the
     * counter and redraw for a shifted copy of the original date, anything else
     * changes nothing.
     */
    method HandleEvent(keyEvent: KeyEvent)
      requires Valid()
      modifies this
      ensures Valid()
      ensures run == (old(run) && keyEvent != Quit)
      ensures dayShiftCounter == old(dayShiftCounter) + Shift(keyEvent)
      ensures keyEvent !in {Next, Previous} ==> displayed == old(displayed)
    {
      match keyEvent {
        case Quit =>
          run := false;
        case Next =>
          dayShiftCounter := dayShiftCounter + 1;
          displayed := AddDays(original, dayShiftCounter);
        case Previous =>
          dayShiftCounter := dayShiftCounter - 1;
          displayed := AddDays(original, dayShiftCounter);
        case NoEvent =>
      }
    }

    /**
     * `while run`: handles events until Quit, which is the only event that ends
     * the loop, or until none are left.  Returns how many events were handled.
     */
    method Run(events: seq<KeyEvent>) returns (handled: nat)
      requires Valid() && run
      modifies this
      ensures handled <= |events|
      ensures Valid()
      ensures run <==> Quit !in events[..handled]
      ensures run ==> handled == |events|
      ensures !run ==> handled >= 1 && events[handled - 1] == Quit && Quit !in events[..handled - 1]
      ensures dayShiftCounter == old(dayShiftCounter) + NetShift(events[..handled])
    {
      handled := 0;
      while run && handled < |events|
        invariant handled <= |events|
        invariant Valid()
        invariant run <==> Quit !in events[..handled]
        invariant !run ==> handled >= 1 && events[handled - 1] == Quit && Quit !in events[..handled - 1]
        invariant dayShiftCounter == old(dayShiftCounter) + NetShift(events[..handled])
        decreases |events| - handled
      {
        HandleEvent(events[handled]);
        assert events[..handled + 1] == events[..handled] + [events[handled]];
        assert events[..handled + 1][..handled] == events[..handled];
        handled := handled + 1;
      }
    }
  }
}
