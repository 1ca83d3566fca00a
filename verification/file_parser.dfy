/**
 * `src/file/parser.rs`: the agenda records, reading one day's agenda file,
 * listing the days that have one, and adding entries.
 *
 * Reading a file and parsing TOML belong to the standard library and the
 * `toml`/`serde` crates; their result enters the model as a `FileRead` value.
 * The cache directory lookup and the directory listing enter as parameters.
 */
module FileParser {
  import opened Wrappers
  import opened Dates
  import opened FileNames
  import opened EntryStore
  import Sorting

  datatype DayEvent = DayEvent(event: string)

  /** Derives `Ord`: compared by `start`, then `end`, then `event`. */
  datatype TimedEvent = TimedEvent(start: string, end: string, event: string)

  datatype Agenda = Agenda(day: seq<DayEvent>, timestamp: seq<TimedEvent>)

  /** `Agenda::default`: one empty full-day event and one empty timed event. */
  const DEFAULT_AGENDA: Agenda :=
    Agenda([DayEvent("")], [TimedEvent("", "", "")])

  // ---------------------------------------------------------------------------
  // Ordering of timed events
  // ---------------------------------------------------------------------------

  /** `String`'s `Ord`: lexicographic by character, a prefix first. */
  predicate StrLe(a: string, b: string) {
    |a| == 0 || (|b| > 0 && (a[0] < b[0] || (a[0] == b[0] && StrLe(a[1..], b[1..]))))
  }

  lemma {:induction false} StrLeTotal(a: string, b: string)
    ensures StrLe(a, b) || StrLe(b, a)
  {
    if |a| > 0 && |b| > 0 && a[0] == b[0] {
      StrLeTotal(a[1..], b[1..]);
    }
  }

  lemma {:induction false} StrLeAntisymmetric(a: string, b: string)
    requires StrLe(a, b) && StrLe(b, a)
    ensures a == b
  {
    if |a| > 0 {
      StrLeAntisymmetric(a[1..], b[1..]);
      assert a == [a[0]] + a[1..] && b == [b[0]] + b[1..];
    }
  }

  lemma {:induction false} StrLeTransitive(a: string, b: string, c: string)
    requires StrLe(a, b) && StrLe(b, c)
    ensures StrLe(a, c)
  {
    if |a| > 0 && a[0] == b[0] && b[0] == c[0] {
      StrLeTransitive(a[1..], b[1..], c[1..]);
    }
  }

  /** The derived `Ord` of `TimedEvent`, as `<=`. */
  predicate TimedEventLe(x: TimedEvent, y: TimedEvent) {
    if x.start != y.start then StrLe(x.start, y.start)
    else if x.end != y.end then StrLe(x.end, y.end)
    else StrLe(x.event, y.event)
  }

  /** The order `Vec::sort` uses on timed events is a total order. */
  lemma TimedEventLeTotalOrder()
    ensures Sorting.TotalOrder(TimedEventLe)
  {
    forall x: TimedEvent, y: TimedEvent
      ensures TimedEventLe(x, y) || TimedEventLe(y, x)
    {
      StrLeTotal(x.start, y.start);
      StrLeTotal(x.end, y.end);
      StrLeTotal(x.event, y.event);
    }
    forall x: TimedEvent, y: TimedEvent | TimedEventLe(x, y) && TimedEventLe(y, x)
      ensures x == y
    {
      if x.start != y.start {
        StrLeAntisymmetric(x.start, y.start);
      } else if x.end != y.end {
        StrLeAntisymmetric(x.end, y.end);
      } else {
        StrLeAntisymmetric(x.event, y.event);
      }
    }
    forall x: TimedEvent, y: TimedEvent, z: TimedEvent | TimedEventLe(x, y) && TimedEventLe(y, z)
      ensures TimedEventLe(x, z)
    {
      TimedEventLeTransitive(x, y, z);
    }
  }

  lemma TimedEventLeTransitive(x: TimedEvent, y: TimedEvent, z: TimedEvent)
    requires TimedEventLe(x, y) && TimedEventLe(y, z)
    ensures TimedEventLe(x, z)
  {
    if x.start != y.start && y.start != z.start {
      StrLeTransitive(x.start, y.start, z.start);
      if x.start == z.start {
        StrLeAntisymmetric(x.start, y.start);
      }
    } else if x.start != y.start || y.start != z.start {
    } else if x.end != y.end && y.end != z.end {
      StrLeTransitive(x.end, y.end, z.end);
      if x.end == z.end {
        StrLeAntisymmetric(x.end, y.end);
      }
    } else if x.end != y.end || y.end != z.end {
    } else {
      StrLeTransitive(x.event, y.event, z.event);
    }
  }

  // ---------------------------------------------------------------------------
  // Reading one agenda file
  // ---------------------------------------------------------------------------

  /** A deserialized file: a field the TOML text does not supply is absent. */
  datatype RawAgenda = RawAgenda(day: Option<seq<DayEvent>>, timestamp: Option<seq<TimedEvent>>)

  /** What opening, reading, parsing and converting one file produced. */
  datatype FileRead =
    | OpenFailed
    | ReadFailed
    | TomlInvalid
    | ConversionFailed
    | Parsed(raw: RawAgenda)

  /** `#[serde(default)]`: a missing field takes its value from `Agenda::default`. */
  function WithDefaults(raw: RawAgenda): (a: Agenda)
    ensures raw.day.Some? ==> a.day == raw.day.value
    ensures raw.day.None? ==> a.day == DEFAULT_AGENDA.day
    ensures raw.timestamp.Some? ==> a.timestamp == raw.timestamp.value
    ensures raw.timestamp.None? ==> a.timestamp == DEFAULT_AGENDA.timestamp
  {
    Agenda(
      if raw.day.Some? then raw.day.value else DEFAULT_AGENDA.day,
      if raw.timestamp.Some? then raw.timestamp.value else DEFAULT_AGENDA.timestamp)
  }

  /**
   * `parse_agenda_toml`: `None` on any failure, otherwise the agenda with its
   * defaults filled in and its timed events sorted.
   */
  method ParseAgendaToml(file: FileRead) returns (r: Option<Agenda>)
    ensures r.Some? <==> file.Parsed?
    ensures r.Some? ==> r.value.day == WithDefaults(file.raw).day
    ensures r.Some? ==> Sorting.SortedBy(r.value.timestamp, TimedEventLe)
    ensures r.Some? ==> multiset(r.value.timestamp) == multiset(WithDefaults(file.raw).timestamp)
  {
    match file {
      case OpenFailed => return None;
      case ReadFailed => return None;
      case TomlInvalid => return None;
      case ConversionFailed => return None;
      case Parsed(raw) =>
        var tomlStruct := WithDefaults(raw);
        TimedEventLeTotalOrder();
        var sorted := Sorting.Sort(tomlStruct.timestamp, TimedEventLe);
        return Some(tomlStruct.(timestamp := sorted));
    }
  }

  /** `Date::get_agenda`: the day's agenda when its file exists, else `None`. */
  method GetAgenda(d: Date, fileExists: bool, file: FileRead) returns (r: Option<Agenda>)
    ensures r.Some? <==> fileExists && file.Parsed?
    ensures r.Some? ==> r.value.day == WithDefaults(file.raw).day
    ensures r.Some? ==> Sorting.SortedBy(r.value.timestamp, TimedEventLe)
    ensures r.Some? ==> multiset(r.value.timestamp) == multiset(WithDefaults(file.raw).timestamp)
  {
    if fileExists {
      r := ParseAgendaToml(file);
    } else {
      r := None;
    }
  }

  // ---------------------------------------------------------------------------
  // Listing the days that have an agenda file
  // ---------------------------------------------------------------------------

  /** One item of `read_dir`: an I/O error, a name that is not UTF-8, or a name. */
  datatype DirEntry = Unreadable | NonUtf8Name | Named(name: string)

  /** The entry names the file of the valid date `d`. */
  predicate Lists(e: DirEntry, d: Date) {
    e.Named? && MatchesEntryPattern(e.name) && ParseEntryName(e.name) == d && Valid(d)
  }

  /** The date one directory item contributes: skipped on any error or invalid date. */
  function EntryDate(e: DirEntry): Option<Date> {
    match e
    case Unreadable => None
    case NonUtf8Name => None
    case Named(name) =>
      if MatchesEntryPattern(name) && Valid(ParseEntryName(name)) then Some(ParseEntryName(name))
      else None
  }

  /** The dates of a directory listing, in listing order. */
  function ScanEntries(paths: seq<DirEntry>): (r: seq<Date>)
    ensures |r| <= |paths|
    ensures forall i :: 0 <= i < |r| ==> Valid(r[i])
  {
    if |paths| == 0 then []
    else
      var e := EntryDate(paths[|paths| - 1]);
      ScanEntries(paths[..|paths| - 1]) + (if e.Some? then [e.value] else [])
  }

  /** A date is listed exactly when some directory item names its file. */
  lemma {:induction false} ScanEntriesMembership(paths: seq<DirEntry>, d: Date)
    ensures d in ScanEntries(paths) <==> exists i :: 0 <= i < |paths| && Lists(paths[i], d)
  {
    if |paths| > 0 {
      ScanEntriesMembership(paths[..|paths| - 1], d);
      ScanEntriesLast(paths, d);
      ListedSplit(paths, paths[..|paths| - 1], d);
    }
  }

  /** An item of a listing that names `d` is the last one or one before it. */
  lemma ListedSplit(paths: seq<DirEntry>, init: seq<DirEntry>, d: Date)
    requires |paths| > 0 && init == paths[..|paths| - 1]
    ensures (exists i :: 0 <= i < |paths| && Lists(paths[i], d))
        <==> (exists i :: 0 <= i < |init| && Lists(init[i], d)) || Lists(paths[|paths| - 1], d)
  {
    if exists i :: 0 <= i < |init| && Lists(init[i], d) {
      var i :| 0 <= i < |init| && Lists(init[i], d);
      assert paths[i] == init[i];
    }
    if exists i :: 0 <= i < |paths| && Lists(paths[i], d) {
      var i :| 0 <= i < |paths| && Lists(paths[i], d);
      if i < |init| {
        assert init[i] == paths[i];
      }
    }
  }

  /** The last item of a listing adds its date, if it names a valid one, after the others. */
  lemma ScanEntriesLast(paths: seq<DirEntry>, d: Date)
    requires |paths| > 0
    ensures d in ScanEntries(paths) <==> d in ScanEntries(paths[..|paths| - 1]) || Lists(paths[|paths| - 1], d)
  {
  }

  /** Listing a directory in two parts lists the dates of each part in turn. */
  lemma {:induction false} ScanEntriesAppend(a: seq<DirEntry>, b: seq<DirEntry>)
    ensures ScanEntries(a + b) == ScanEntries(a) + ScanEntries(b)
    decreases |b|
  {
    if |b| > 0 {
      var b' := b[..|b| - 1];
      assert (a + b)[..|a + b| - 1] == a + b';
      assert (a + b)[|a + b| - 1] == b[|b| - 1];
      ScanEntriesAppend(a, b');
    } else {
      assert a + b == a;
    }
  }

  /**
   * For a valid date with a four-digit year, the date is listed exactly when
   * the file `to_filepath` names for it is in the directory.
   */
  lemma ListedIffFilePresent(paths: seq<DirEntry>, d: Date)
    requires Valid(d) && 1000 <= d.year <= 9999
    ensures d in ScanEntries(paths) <==> Named(FileName(d)) in paths
  {
    ScanEntriesMembership(paths, d);
    FileNameRoundTrip(d);
    if d in ScanEntries(paths) {
      var i :| 0 <= i < |paths| && Lists(paths[i], d);
      var n := paths[i].name;
      ParseEntryNameRoundTrip(n);
      assert n[6] != '0';
      assert paths[i] == Named(FileName(d));
    }
    if Named(FileName(d)) in paths {
      var i :| 0 <= i < |paths| && paths[i] == Named(FileName(d));
      assert Lists(paths[i], d);
    }
  }

  /**
   * `get_agenda_entries`: the valid dates named by the files of
   * `$HOME/.cache/crust/`, or none at all when the cache directory is unknown
   * or cannot be listed.  (Compiling the constant pattern cannot fail.)
   */
  method GetAgendaEntries(cacheDirFound: bool, listing: Option<seq<DirEntry>>)
    returns (validEntries: seq<Date>)
    ensures !cacheDirFound || listing.None? ==> validEntries == []
    ensures cacheDirFound && listing.Some? ==> validEntries == ScanEntries(listing.value)
  {
    validEntries := [];
    if !cacheDirFound {
      return;
    }
    if listing.None? {
      return;
    }
    var paths := listing.value;
    for i := 0 to |paths|
      invariant validEntries == ScanEntries(paths[..i])
    {
      assert paths[..i + 1][..i] == paths[..i];
      match paths[i] {
        case Unreadable =>
        case NonUtf8Name =>
        case Named(filename) =>
          if MatchesEntryPattern(filename) {
            var fileDate := ParseEntryName(filename);
            if Valid(fileDate) {
              validEntries := validEntries + [fileDate];
            }
          }
      }
    }
    assert paths[..|paths|] == paths;
  }

  /** Scanning `05-13-2024.toml` and `31-02-2024.toml` yields nothing: month 13 and 31 February are invalid. */
  lemma InvalidNamesSkipped()
    ensures ScanEntries([Named("05-13-2024.toml"), Named("31-02-2024.toml"), Named("29-02-2024.toml")])
         == [Date(29, 2, 2024)]
  {
    ExampleEntryDates();
    var paths := [Named("05-13-2024.toml"), Named("31-02-2024.toml"), Named("29-02-2024.toml")];
    assert paths[..2][..1] == [Named("05-13-2024.toml")];
    assert paths[..2] == [Named("05-13-2024.toml"), Named("31-02-2024.toml")];
  }

  /** What each of the three example names contributes on its own. */
  lemma ExampleEntryDates()
    ensures EntryDate(Named("05-13-2024.toml")) == None
    ensures EntryDate(Named("31-02-2024.toml")) == None
    ensures EntryDate(Named("29-02-2024.toml")) == Some(Date(29, 2, 2024))
  {
    assert ParseEntryName("05-13-2024.toml") == Date(5, 13, 2024);
    assert ParseEntryName("31-02-2024.toml") == Date(31, 2, 2024);
    assert ParseEntryName("29-02-2024.toml") == Date(29, 2, 2024);
  }

  // ---------------------------------------------------------------------------
  // Adding entries
  // ---------------------------------------------------------------------------

  /** One `key = 'value'` line of an entry table. */
  function KeyLine(key: string, value: string): string {
    key + " = '" + value + "'\n"
  }

  /**
   * The TOML table `write_entry` appends for one entry: its header, then the
   * start and end lines of a timed entry, and last the event line.
   */
  function EntryBlock(fullDay: bool, start: string, end: string, entry: string): (r: string)
    ensures (if fullDay then "[[day]]\n" else "[[timestamp]]\n") <= r
    ensures !fullDay ==> ("[[timestamp]]\n" + KeyLine("start", start) + KeyLine("end", end)) <= r
    ensures |KeyLine("event", entry)| <= |r| && r[|r| - |KeyLine("event", entry)|..] == KeyLine("event", entry)
  {
    if fullDay then "[[day]]\n" + KeyLine("event", entry)
    else "[[timestamp]]\n" + KeyLine("start", start) + KeyLine("end", end) + KeyLine("event", entry)
  }

  /**
   * `write_entry`: open the file of `date` for appending, creating it when
   * missing, and append the entry's table in a single write.  A failed open
   * or write panics; a write that takes only part of the table is not
   * noticed.  No other file changes.
   */
  method WriteEntry(dir: Directory, date: Date, fullDay: bool, start: string, end: string, entry: string,
                    openOk: bool, w: WriteOutcome) returns (r: Outcome<()>)
    modifies dir
    ensures !openOk ==> r == Panic("Error when attempting to open or create file.") && dir.files == old(dir.files)
    ensures openOk ==> dir.files == old(dir.files)[FileName(date) := Contents(old(dir.files), FileName(date))
                                                   + Written(EntryBlock(fullDay, start, end, entry), w)]
    ensures openOk ==> r == if w.Refused? then Panic("Error when attempting to write to file.") else Done(())
  {
    var filedir := FileName(date);
    var isOpen := dir.Open(filedir, openOk);
    if !isOpen {
      return Panic("Error when attempting to open or create file.");
    }
    var count;
    if fullDay {
      count := dir.Write(filedir, "[[day]]\n" + KeyLine("event", entry), w);
    } else {
      count := dir.Write(filedir, "[[timestamp]]\n" + KeyLine("start", start) + KeyLine("end", end) + KeyLine("event", entry), w);
    }
    if count.None? {
      return Panic("Error when attempting to write to file.");
    }
    return Done(());
  }
}
