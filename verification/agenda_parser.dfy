/**
 * `src/agenda_parser/parser.rs`, the first generation's file helpers: the
 * path of a day's agenda file below the cache directory, and a strict
 * loader that panics on any failure.  Its `DayEvent`, `TimedEvent` and
 * `Agenda` structs have the same fields as those of `FileParser` and are
 * represented by them (they derive no ordering and no `serde(default)`).
 */
module AgendaParser {
  import opened RustOps
  import opened Wrappers
  import opened Dates
  import opened FileParser

  /** `date_to_filedir`, relative to the cache directory: the same file `to_filepath` names. */
  function DateToFiledir(day: int, month: int, year: int): (p: string)
    ensures p == "crust/" + FileName(Date(day, month, year))
  {
    var dayStr := if day < 10 then "0" + IntToString(day) else IntToString(day);
    var monthStr := if month < 10 then "0" + IntToString(month) else IntToString(month);
    var yearStr := IntToString(year);
    PrefixedPath("crust/", dayStr, monthStr, yearStr);
    "crust/" + dayStr + "-" + monthStr + "-" + yearStr + ".toml"
  }

  /** Writing the directory in front of the pieces puts it in front of the whole file name. */
  lemma PrefixedPath(dir: string, dayStr: string, monthStr: string, yearStr: string)
    ensures dir + dayStr + "-" + monthStr + "-" + yearStr + ".toml"
            == dir + (dayStr + "-" + monthStr + "-" + yearStr + ".toml")
  {
  }

  /** A single-digit day or month is written with a leading zero, anything else as is. */
  lemma DateToFiledirFields(day: int, month: int, year: int)
    requires 0 <= day < 100 && 0 <= month < 100
    ensures DateToFiledir(day, month, year)[6..8] == [DigitChar(day / 10), DigitChar(day % 10)]
    ensures DateToFiledir(day, month, year)[9..11] == [DigitChar(month / 10), DigitChar(month % 10)]
    ensures DateToFiledir(day, month, year)[12..] == IntToString(year) + ".toml"
  {
    FileNames.Pad2Digits(day);
    FileNames.Pad2Digits(month);
    PathSlices("crust/", Pad2(day), Pad2(month), IntToString(year));
  }

  /** Where the pieces of a path with a six-character directory and two-character fields lie. */
  lemma PathSlices(dir: string, dayStr: string, monthStr: string, yearStr: string)
    requires |dir| == 6 && |dayStr| == 2 && |monthStr| == 2
    ensures var p := dir + (dayStr + "-" + monthStr + "-" + yearStr + ".toml");
      p[6..8] == dayStr && p[9..11] == monthStr && p[12..] == yearStr + ".toml"
  {
    var p := dir + (dayStr + "-" + monthStr + "-" + yearStr + ".toml");
    assert p == dir + dayStr + "-" + monthStr + "-" + (yearStr + ".toml");
  }

  /**
   * `parse_agenda_toml`: every failure panics, and without `serde(default)` a
   * missing table is a conversion failure; nothing is sorted.
   */
  function ParseAgendaToml(file: FileRead): (r: Outcome<Agenda>)
    ensures r.Done? <==> file.Parsed? && file.raw.day.Some? && file.raw.timestamp.Some?
    ensures r.Done? ==> r.value.day == file.raw.day.value && r.value.timestamp == file.raw.timestamp.value
    ensures r.Done? ==> r.value == WithDefaults(file.raw)
  {
    match file
    case OpenFailed => Panic("Unable to open file")
    case ReadFailed => Panic("Unable to read file")
    case TomlInvalid => Panic("Error while parsing TOML file")
    case ConversionFailed => Panic("Unable to parse TOML into Agenda struct")
    case Parsed(raw) =>
      if raw.day.Some? && raw.timestamp.Some? then Done(Agenda(raw.day.value, raw.timestamp.value))
      else Panic("Unable to parse TOML into Agenda struct")
  }
}
