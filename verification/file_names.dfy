/**
 * Agenda file names `dd-mm-yyyy.toml`.
 *
 * Both directory scans (`src/file/parser.rs` and the older
 * `src/agenda_parser/entry_search.rs`) keep a file only when its name matches
 * `^([0-3][0-9])-([0-1][0-9])-([0-9]{4})\.toml$` and then parse the three
 * capture groups as `i32`.  A capture of two or four ASCII digits always
 * parses, so the parse is total here.  File names are written by
 * `Date::to_filepath` (and the older `date_to_filedir`), modelled by
 * `Dates.FileName`.
 */
module FileNames {
  import opened RustOps
  import opened Dates

  /** The anchored regular expression of the directory scans. */
  predicate MatchesEntryPattern(n: string) {
    |n| == 15
    && '0' <= n[0] <= '3' && IsDigit(n[1]) && n[2] == '-'
    && '0' <= n[3] <= '1' && IsDigit(n[4]) && n[5] == '-'
    && IsDigit(n[6]) && IsDigit(n[7]) && IsDigit(n[8]) && IsDigit(n[9])
    && n[10..] == ".toml"
  }

  /**
   * The pattern checks the shape only: month 13 and day 39 pass, while a
   * one-digit day, day 40, month 20, a five-digit year or another
   * extension do not.
   */
  lemma PatternExamples()
    ensures MatchesEntryPattern("05-13-2024.toml") && MatchesEntryPattern("39-19-0000.toml")
    ensures !MatchesEntryPattern("5-01-2024.toml") && !MatchesEntryPattern("40-01-2024.toml")
    ensures !MatchesEntryPattern("01-20-2024.toml") && !MatchesEntryPattern("01-01-12024.toml")
    ensures !MatchesEntryPattern("01-01-2024.json")
  {
  }

  /** The date read from a matching name: each capture group parsed as a decimal number. */
  function ParseEntryName(n: string): (d: Date)
    requires MatchesEntryPattern(n)
    ensures 0 <= d.day <= 39 && 0 <= d.month <= 19 && 0 <= d.year <= 9999
  {
    Date(
      10 * DigitValue(n[0]) + DigitValue(n[1]),
      10 * DigitValue(n[3]) + DigitValue(n[4]),
      1000 * DigitValue(n[6]) + 100 * DigitValue(n[7]) + 10 * DigitValue(n[8]) + DigitValue(n[9]))
  }

  lemma DigitCharValue(k: nat)
    requires k < 10
    ensures IsDigit(DigitChar(k)) && DigitValue(DigitChar(k)) == k
  {
  }

  lemma DigitValueChar(c: char)
    requires IsDigit(c)
    ensures DigitChar(DigitValue(c)) == c
  {
  }

  /** Numbers below 100 print through `Pad2` as exactly two digits. */
  lemma Pad2Digits(x: int)
    requires 0 <= x < 100
    ensures Pad2(x) == [DigitChar(x / 10), DigitChar(x % 10)]
  {
    NatToStringLength(x);
  }

  /** Only four-digit years print with four characters. */
  lemma {:induction false} NatToStringWidth(n: nat)
    ensures n < 100 ==> |NatToString(n)| <= 2
    ensures n < 1000 ==> |NatToString(n)| <= 3
    ensures n >= 100 ==> |NatToString(n)| >= 3
    ensures n >= 1000 ==> |NatToString(n)| >= 4
    ensures n >= 10000 ==> |NatToString(n)| >= 5
  {
    if n >= 10 {
      assert |NatToString(n)| == |NatToString(n / 10)| + 1;
      assert n < 1000 ==> n / 10 < 100;
      assert n >= 100 ==> n / 10 >= 10;
      assert n >= 1000 ==> n / 10 >= 100;
      assert n >= 10000 ==> n / 10 >= 1000;
      NatToStringWidth(n / 10);
    }
  }

  /** The name built from two-digit day and month fields and a four-digit year. */
  lemma FileNameShape(d: Date)
    requires 0 <= d.day < 100 && 0 <= d.month < 100 && 1000 <= d.year <= 9999
    ensures FileName(d) == [DigitChar(d.day / 10), DigitChar(d.day % 10), '-',
                            DigitChar(d.month / 10), DigitChar(d.month % 10), '-',
                            DigitChar(d.year / 1000), DigitChar(d.year / 100 % 10),
                            DigitChar(d.year / 10 % 10), DigitChar(d.year % 10),
                            '.', 't', 'o', 'm', 'l']
  {
    Pad2Digits(d.day);
    Pad2Digits(d.month);
    NatToStringLength(d.year);
  }

  /** Any such name matches the pattern and parses back to its fields. */
  lemma ShapeMatches(a: nat, b: nat, c: nat, e: nat, y0: nat, y1: nat, y2: nat, y3: nat)
    requires a <= 3 && b < 10 && c <= 1 && e < 10 && y0 < 10 && y1 < 10 && y2 < 10 && y3 < 10
    ensures var n := [DigitChar(a), DigitChar(b), '-', DigitChar(c), DigitChar(e), '-',
                      DigitChar(y0), DigitChar(y1), DigitChar(y2), DigitChar(y3),
                      '.', 't', 'o', 'm', 'l'];
      MatchesEntryPattern(n)
      && ParseEntryName(n) == Date(10 * a + b, 10 * c + e, 1000 * y0 + 100 * y1 + 10 * y2 + y3)
  {
    DigitCharValue(a);
    DigitCharValue(b);
    DigitCharValue(c);
    DigitCharValue(e);
    DigitCharValue(y0);
    DigitCharValue(y1);
    DigitCharValue(y2);
    DigitCharValue(y3);
  }

  lemma Recompose(day: int, month: int, year: int)
    requires 0 <= day < 100 && 0 <= month < 100 && 1000 <= year <= 9999
    ensures 10 * (day / 10) + day % 10 == day
    ensures 10 * (month / 10) + month % 10 == month
    ensures 1000 * (year / 1000) + 100 * (year / 100 % 10) + 10 * (year / 10 % 10) + year % 10 == year
  {
    var a, b := year / 1000, year % 1000;
    var c, e := b / 100, b % 100;
    var f, g := e / 10, e % 10;
    DivUnique(year, 100, 10 * a + c, e);
    DivUnique(10 * a + c, 10, a, c);
    DivUnique(year, 10, 100 * a + 10 * c + f, g);
    DivUnique(100 * a + 10 * c + f, 10, 10 * a + c, f);
  }

  lemma Decompose(a: nat, b: nat, c: nat, e: nat, y0: nat, y1: nat, y2: nat, y3: nat)
    requires a < 10 && b < 10 && c < 10 && e < 10 && y0 < 10 && y1 < 10 && y2 < 10 && y3 < 10
    ensures (10 * a + b) / 10 == a && (10 * a + b) % 10 == b
    ensures (10 * c + e) / 10 == c && (10 * c + e) % 10 == e
    ensures var y := 1000 * y0 + 100 * y1 + 10 * y2 + y3;
      y / 1000 == y0 && y / 100 % 10 == y1 && y / 10 % 10 == y2 && y % 10 == y3
  {
    var y := 1000 * y0 + 100 * y1 + 10 * y2 + y3;
    DivUnique(10 * a + b, 10, a, b);
    DivUnique(10 * c + e, 10, c, e);
    DivUnique(y, 1000, y0, 100 * y1 + 10 * y2 + y3);
    DivUnique(y, 100, 10 * y0 + y1, 10 * y2 + y3);
    DivUnique(10 * y0 + y1, 10, y0, y1);
    DivUnique(y, 10, 100 * y0 + 10 * y1 + y2, y3);
    DivUnique(100 * y0 + 10 * y1 + y2, 10, 10 * y0 + y1, y2);
  }

  /** The name of a date whose year does not have four digits is not 15 characters long. */
  lemma FileNameLength(d: Date)
    requires 0 <= d.day < 100 && 0 <= d.month < 100 && 0 <= d.year
    ensures |FileName(d)| == 11 + |NatToString(d.year)|
  {
    Pad2Digits(d.day);
    Pad2Digits(d.month);
  }

  /**
   * A valid date's file name is listed by the scan, and parses back to the
   * date, exactly when the year has four digits.
   */
  lemma FileNameRoundTrip(d: Date)
    requires Valid(d)
    ensures MatchesEntryPattern(FileName(d)) && ParseEntryName(FileName(d)) == d
        <==> 1000 <= d.year <= 9999
  {
    if 1000 <= d.year <= 9999 {
      FileNameShape(d);
      ShapeMatches(d.day / 10, d.day % 10, d.month / 10, d.month % 10,
                   d.year / 1000, d.year / 100 % 10, d.year / 10 % 10, d.year % 10);
      Recompose(d.day, d.month, d.year);
    } else {
      FileNameLength(d);
      NatToStringWidth(d.year);
    }
  }

  /**
   * Conversely, printing the date parsed from a matching name gives the name
   * back unless the year starts with '0' (`to_string` drops leading zeros).
   */
  lemma ParseEntryNameRoundTrip(n: string)
    requires MatchesEntryPattern(n)
    ensures FileName(ParseEntryName(n)) == n <==> n[6] != '0'
  {
    var d := ParseEntryName(n);
    if n[6] != '0' {
      FileNameShape(d);
      Decompose(DigitValue(n[0]), DigitValue(n[1]), DigitValue(n[3]), DigitValue(n[4]),
                DigitValue(n[6]), DigitValue(n[7]), DigitValue(n[8]), DigitValue(n[9]));
      DigitValueChar(n[0]);
      DigitValueChar(n[1]);
      DigitValueChar(n[3]);
      DigitValueChar(n[4]);
      DigitValueChar(n[6]);
      DigitValueChar(n[7]);
      DigitValueChar(n[8]);
      DigitValueChar(n[9]);
      assert n[10..] == ".toml";
      assert n == [n[0], n[1], '-', n[3], n[4], '-', n[6], n[7], n[8], n[9],
                   '.', 't', 'o', 'm', 'l'];
    } else {
      FileNameLength(d);
      NatToStringWidth(d.year);
    }
  }
}
