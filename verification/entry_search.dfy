/**
 * `src/agenda_parser/entry_search.rs`, the first generation's directory scan.
 *
 * Its `Date` derives `Ord`, which compares the fields in declaration order:
 * day first, then month, then year.  The scan keeps every name that matches
 * the pattern without validating the date, and panics (`unwrap`/`expect`) on
 * an unreadable directory, an unreadable item or a name that is not UTF-8.
 */
module EntrySearch {
  import opened Wrappers
  import Dates
  import opened FileNames
  import opened FileParser
  import Sorting

  datatype Date = Date(day: int, month: int, year: int)

  /** The derived `<`: lexicographic on (day, month, year). */
  predicate Lt(a: Date, b: Date) {
    a.day < b.day
    || (a.day == b.day && a.month < b.month)
    || (a.day == b.day && a.month == b.month && a.year < b.year)
  }

  /** The derived `<=`. */
  predicate Le(a: Date, b: Date) {
    a == b || Lt(a, b)
  }

  lemma LeIsTotalOrder()
    ensures Sorting.TotalOrder(Le)
  {
  }

  function ToDate(d: Date): Dates.Date {
    Dates.Date(d.day, d.month, d.year)
  }

  /** The derived order is not chronological: 1 February 2025 sorts before 15 January 2024. */
  lemma OrderIsNotChronological()
    ensures Lt(Date(1, 2, 2025), Date(15, 1, 2024))
    ensures Dates.Before(Dates.Date(15, 1, 2024), Dates.Date(1, 2, 2025))
  {
  }

  /** The derived order agrees with the calendar only between dates that share month and year. */
  lemma OrderAgreesWithinMonth(a: Date, b: Date)
    requires a.month == b.month && a.year == b.year
    ensures Lt(a, b) <==> Dates.Before(ToDate(a), ToDate(b))
  {
  }

  /** The dates of a listing as the loop builds them, or the panic that stops it. */
  function Scan(paths: seq<DirEntry>): (r: Outcome<seq<Date>>)
    ensures r.Done? ==> |r.value| <= |paths|
    ensures r.Done? ==> forall i :: 0 <= i < |r.value| ==>
      0 <= r.value[i].day <= 39 && 0 <= r.value[i].month <= 19 && 0 <= r.value[i].year <= 9999
  {
    if |paths| == 0 then Done([])
    else
      var prefix := Scan(paths[..|paths| - 1]);
      if prefix.Panic? then prefix
      else
        match paths[|paths| - 1]
        case Unreadable => Panic("called `Result::unwrap()` on an `Err` value")
        case NonUtf8Name => Panic("called `Option::unwrap()` on a `None` value")
        case Named(filename) =>
          if MatchesEntryPattern(filename) then
            var d := ParseEntryName(filename);
            Done(prefix.value + [Date(d.day, d.month, d.year)])
          else prefix
  }

  /** The scan panics exactly when some item of the listing is unreadable or not UTF-8. */
  lemma {:induction false} ScanPanics(paths: seq<DirEntry>)
    ensures Scan(paths).Panic? <==> exists i :: 0 <= i < |paths| && !paths[i].Named?
  {
    if |paths| > 0 {
      var init := paths[..|paths| - 1];
      ScanPanics(init);
      if exists i :: 0 <= i < |init| && !init[i].Named? {
        var i :| 0 <= i < |init| && !init[i].Named?;
        assert paths[i] == init[i];
      }
      if exists i :: 0 <= i < |paths| && !paths[i].Named? {
        var i :| 0 <= i < |paths| && !paths[i].Named?;
        if i < |init| {
          assert init[i] == paths[i];
        }
      }
    }
  }

  /** The calendar dates among `ds`, in order: what validating each would keep. */
  function ValidOnly(ds: seq<Date>): (r: seq<Dates.Date>)
    ensures forall i :: 0 <= i < |r| ==> Dates.Valid(r[i])
  {
    if |ds| == 0 then []
    else
      var last := ToDate(ds[|ds| - 1]);
      ValidOnly(ds[..|ds| - 1]) + (if Dates.Valid(last) then [last] else [])
  }

  /**
   * When the old scan does not panic, validating its dates gives exactly the
   * second generation's scan of the same listing.
   */
  lemma {:induction false} ScanThenValidate(paths: seq<DirEntry>)
    requires Scan(paths).Done?
    ensures ValidOnly(Scan(paths).value) == ScanEntries(paths)
  {
    if |paths| > 0 {
      var init := paths[..|paths| - 1];
      ScanThenValidate(init);
      var prev := Scan(init).value;
      if Scan(paths).value != prev {
        assert Scan(paths).value[..|prev|] == prev;
      }
    }
  }

  lemma ScanMatchingName(paths: seq<DirEntry>, n: string)
    requires Scan(paths).Done? && MatchesEntryPattern(n)
    ensures Scan(paths + [Named(n)])
         == Done(Scan(paths).value + [Date(ParseEntryName(n).day, ParseEntryName(n).month, ParseEntryName(n).year)])
  {
    assert (paths + [Named(n)])[..|paths|] == paths;
  }

  /** Invalid dates are kept: `31-02-2024.toml` and `00-00-0000.toml` are both returned. */
  lemma InvalidNamesKept()
    ensures Scan([Named("31-02-2024.toml"), Named("00-00-0000.toml")])
         == Done([Date(31, 2, 2024), Date(0, 0, 0)])
    ensures !Dates.Valid(ToDate(Date(31, 2, 2024))) && !Dates.Valid(ToDate(Date(0, 0, 0)))
  {
    var a := "31-02-2024.toml";
    var b := "00-00-0000.toml";
    assert MatchesEntryPattern(a) && ParseEntryName(a) == Dates.Date(31, 2, 2024);
    assert MatchesEntryPattern(b) && ParseEntryName(b) == Dates.Date(0, 0, 0);
    assert Scan([]) == Done([]);
    ScanMatchingName([], a);
    assert [] + [Named(a)] == [Named(a)];
    assert [] + [Date(31, 2, 2024)] == [Date(31, 2, 2024)];
    ScanMatchingName([Named(a)], b);
    assert [Named(a)] + [Named(b)] == [Named(a), Named(b)];
    assert [Date(31, 2, 2024)] + [Date(0, 0, 0)] == [Date(31, 2, 2024), Date(0, 0, 0)];
  }

  /**
   * `get_agenda_entries`: panics when the directory cannot be listed, else
   * walks the listing.
   */
  method GetAgendaEntries(listing: Option<seq<DirEntry>>) returns (r: Outcome<seq<Date>>)
    ensures listing.None? ==> r == Panic("Unable to get list of agenda entries.")
    ensures listing.Some? ==> r == Scan(listing.value)
  {
    if listing.None? {
      return Panic("Unable to get list of agenda entries.");
    }
    var paths := listing.value;
    var validFiles: seq<Date> := [];
    for i := 0 to |paths|
      invariant Scan(paths[..i]) == Done(validFiles)
    {
      assert paths[..i + 1][..i] == paths[..i];
      match paths[i] {
        case Unreadable =>
          ScanPanicPersists(paths, i + 1);
          return Panic("called `Result::unwrap()` on an `Err` value");
        case NonUtf8Name =>
          ScanPanicPersists(paths, i + 1);
          return Panic("called `Option::unwrap()` on a `None` value");
        case Named(filename) =>
          if MatchesEntryPattern(filename) {
            var d := ParseEntryName(filename);
            validFiles := validFiles + [Date(d.day, d.month, d.year)];
          }
      }
    }
    assert paths[..|paths|] == paths;
    r := Done(validFiles);
  }

  /** Once the walk has panicked, the items after it are never looked at. */
  lemma {:induction false} ScanPanicPersists(paths: seq<DirEntry>, j: int)
    requires 0 <= j <= |paths| && Scan(paths[..j]).Panic?
    ensures Scan(paths) == Scan(paths[..j])
    decreases |paths| - j
  {
    if j < |paths| {
      assert paths[..j + 1][..j] == paths[..j];
      ScanPanicPersists(paths, j + 1);
    } else {
      assert paths[..j] == paths;
    }
  }

  /** `is_between_dates`: strictly after `lower` and strictly before `upper`, in the derived order. */
  function IsBetweenDates(checkDate: Date, lowerDate: Date, upperDate: Date): (r: bool)
    ensures r ==> checkDate != lowerDate && checkDate != upperDate
    ensures r ==> Lt(lowerDate, upperDate)
    ensures r <==> Lt(lowerDate, checkDate) && Lt(checkDate, upperDate)
  {
    if Lt(lowerDate, checkDate) && Lt(checkDate, upperDate) then true else false
  }
}
