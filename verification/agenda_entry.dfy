/**
 * `src/agenda_entry/entry.rs`: the first generation's `handle_agenda_entry`,
 * which appends one entry to the day's file in two or four separate writes.
 */
module AgendaEntry {
  import opened Wrappers
  import opened Dates
  import opened EntryStore
  import opened FileParser

  /** The texts of the separate writes of a full-day entry: the table header, then its line. */
  function DayPieces(entry: string): seq<string> {
    ["[[day]]\n", KeyLine("event", entry)]
  }

  /** The texts of the separate writes of a timed entry: the table header, then its three lines. */
  function TimedPieces(start: string, end: string, entry: string): seq<string> {
    ["[[timestamp]]\n", KeyLine("start", start), KeyLine("end", end), KeyLine("event", entry)]
  }

  /** The texts of the separate writes, in order. */
  function EntryPieces(fullDay: bool, start: string, end: string, entry: string): (r: seq<string>)
    ensures |r| == if fullDay then 2 else 4
  {
    if fullDay then DayPieces(entry) else TimedPieces(start, end, entry)
  }

  /** Joined, the separate writes' texts are the table `write_entry` appends in one write. */
  lemma PiecesMakeBlock(fullDay: bool, start: string, end: string, entry: string)
    ensures Concat(EntryPieces(fullDay, start, end, entry)) == EntryBlock(fullDay, start, end, entry)
  {
    var p := EntryPieces(fullDay, start, end, entry);
    if fullDay {
      assert Concat(p) == p[0] + Concat(p[1..]);
      assert Concat(p[1..]) == p[1] + Concat(p[2..]);
    } else {
      assert Concat(p) == p[0] + Concat(p[1..]);
      assert Concat(p[1..]) == p[1] + Concat(p[2..]);
      assert Concat(p[2..]) == p[2] + Concat(p[3..]);
      assert Concat(p[3..]) == p[3] + Concat(p[4..]);
    }
  }

  /**
   * `handle_agenda_entry`: opens the file of the given day for appending
   * (`unwrap` panics when that fails), then writes the entry's table in
   * separate writes.  `writes` says what the system does with each write.
   */
  method HandleAgendaEntry(dir: Directory, day: int, month: int, year: int,
                           fullDay: bool, start: string, end: string, entry: string,
                           openOk: bool, writes: seq<WriteOutcome>) returns (r: Outcome<()>)
    requires |writes| >= |EntryPieces(fullDay, start, end, entry)|
    modifies dir
    ensures !openOk ==> r == Panic("called `Result::unwrap()` on an `Err` value") && dir.files == old(dir.files)
    ensures openOk ==> dir.files == old(dir.files)[FileName(Date(day, month, year)) :=
              Contents(old(dir.files), FileName(Date(day, month, year)))
              + Stored(EntryPieces(fullDay, start, end, entry), writes)]
    ensures openOk ==> (r.Done? <==> forall i :: 0 <= i < |EntryPieces(fullDay, start, end, entry)| ==> writes[i].Accepted?)
    ensures openOk && r.Panic? ==> r.message == "Error when writing to file."
  {
    var filedir := FileName(Date(day, month, year));
    var isOpen := dir.Open(filedir, openOk);
    if !isOpen {
      return Panic("called `Result::unwrap()` on an `Err` value");
    }
    ghost var afterOpen := dir.files;
    if fullDay {
      r := WriteDayTable(dir, filedir, entry, writes);
    } else {
      r := WriteTimedTable(dir, filedir, start, end, entry, writes);
    }
    OpenThenRun(old(dir.files), afterOpen, dir.files, filedir, Stored(EntryPieces(fullDay, start, end, entry), writes));
  }

  /**
   * One write of a run on the open file `filedir`, followed by its `expect`:
   * the k-th piece's part is appended; a failed write ends the run with the
   * panic, an accepted one extends it.
   */
  method WritePiece(dir: Directory, filedir: string, ghost before: map<string, string>,
                    ghost pieces: seq<string>, writes: seq<WriteOutcome>, k: nat, ghost acc: string, text: string)
    returns (r: Outcome<()>)
    requires |writes| >= |pieces| && k < |pieces| && text == pieces[k]
    requires RunAt(before, dir.files, filedir, pieces, writes, k, acc)
    modifies dir
    ensures r.Panic? <==> writes[k].Refused?
    ensures r.Panic? ==> r.message == "Error when writing to file."
    ensures r.Panic? ==> && dir.files == before[filedir := Contents(before, filedir) + Stored(pieces, writes)]
                         && !(forall i :: 0 <= i < |pieces| ==> writes[i].Accepted?)
    ensures r.Done? ==> RunAt(before, dir.files, filedir, pieces, writes, k + 1, acc + Written(pieces[k], writes[k]))
  {
    ghost var prev := dir.files;
    var count := dir.Write(filedir, text, writes[k]);
    RunStep(before, prev, dir.files, filedir, pieces, writes, k, acc);
    if count.None? {
      return Panic("Error when writing to file.");
    }
    return Done(());
  }

  /**
   * The full-day branch of `handle_agenda_entry`: the `[[day]]` header and
   * the event line, each written on the open file and followed by an
   * `expect` that panics when the write fails.
   */
  method WriteDayTable(dir: Directory, filedir: string, entry: string, writes: seq<WriteOutcome>)
    returns (r: Outcome<()>)
    requires filedir in dir.files && |writes| >= 2
    modifies dir
    ensures dir.files == old(dir.files)[filedir := Contents(old(dir.files), filedir) + Stored(DayPieces(entry), writes)]
    ensures r.Done? <==> forall i :: 0 <= i < |DayPieces(entry)| ==> writes[i].Accepted?
    ensures r.Panic? ==> r.message == "Error when writing to file."
  {
    // `acc` is what the writes so far have stored.
    ghost var pieces := DayPieces(entry);
    assert dir.files == old(dir.files)[filedir := Contents(old(dir.files), filedir)];
    RunStart(old(dir.files), dir.files, filedir, pieces, writes);
    ghost var acc := "";
    r := WritePiece(dir, filedir, old(dir.files), pieces, writes, 0, acc, "[[day]]\n");
    if r.Panic? {
      return;
    }
    acc := acc + Written(pieces[0], writes[0]);
    r := WritePiece(dir, filedir, old(dir.files), pieces, writes, 1, acc, KeyLine("event", entry));
    if r.Panic? {
      return;
    }
    acc := acc + Written(pieces[1], writes[1]);
    RunEnd(old(dir.files), dir.files, filedir, pieces, writes, acc);
    return Done(());
  }

  /**
   * The timed branch of `handle_agenda_entry`: the `[[timestamp]]` header
   * and the start, end and event lines, each written on the open file and
   * followed by an `expect` that panics when the write fails.
   */
  method WriteTimedTable(dir: Directory, filedir: string, start: string, end: string, entry: string,
                         writes: seq<WriteOutcome>) returns (r: Outcome<()>)
    requires filedir in dir.files && |writes| >= 4
    modifies dir
    ensures dir.files == old(dir.files)[filedir := Contents(old(dir.files), filedir) + Stored(TimedPieces(start, end, entry), writes)]
    ensures r.Done? <==> forall i :: 0 <= i < |TimedPieces(start, end, entry)| ==> writes[i].Accepted?
    ensures r.Panic? ==> r.message == "Error when writing to file."
  {
    // `acc` is what the writes so far have stored.
    ghost var pieces := TimedPieces(start, end, entry);
    assert dir.files == old(dir.files)[filedir := Contents(old(dir.files), filedir)];
    RunStart(old(dir.files), dir.files, filedir, pieces, writes);
    ghost var acc := "";
    r := WritePiece(dir, filedir, old(dir.files), pieces, writes, 0, acc, "[[timestamp]]\n");
    if r.Panic? {
      return;
    }
    acc := acc + Written(pieces[0], writes[0]);
    r := WritePiece(dir, filedir, old(dir.files), pieces, writes, 1, acc, KeyLine("start", start));
    if r.Panic? {
      return;
    }
    acc := acc + Written(pieces[1], writes[1]);
    r := WritePiece(dir, filedir, old(dir.files), pieces, writes, 2, acc, KeyLine("end", end));
    if r.Panic? {
      return;
    }
    acc := acc + Written(pieces[2], writes[2]);
    r := WritePiece(dir, filedir, old(dir.files), pieces, writes, 3, acc, KeyLine("event", entry));
    if r.Panic? {
      return;
    }
    acc := acc + Written(pieces[3], writes[3]);
    RunEnd(old(dir.files), dir.files, filedir, pieces, writes, acc);
    return Done(());
  }

  /** When every write takes its whole text, the file gains exactly the table `write_entry` appends. */
  lemma CompleteWritesStoreBlock(fullDay: bool, start: string, end: string, entry: string, writes: seq<WriteOutcome>)
    requires |writes| >= |EntryPieces(fullDay, start, end, entry)|
    requires Complete(EntryPieces(fullDay, start, end, entry), writes)
    ensures Stored(EntryPieces(fullDay, start, end, entry), writes) == EntryBlock(fullDay, start, end, entry)
  {
    StoredComplete(EntryPieces(fullDay, start, end, entry), writes);
    PiecesMakeBlock(fullDay, start, end, entry);
  }

  /**
   * When the writes before the j-th are whole and the j-th fails, the file
   * gains the first part of the table, and for j < |pieces| not all of it.
   */
  lemma FailedWriteLeavesPrefix(fullDay: bool, start: string, end: string, entry: string,
                                writes: seq<WriteOutcome>, j: nat)
    requires j < |EntryPieces(fullDay, start, end, entry)| <= |writes|
    requires Complete(EntryPieces(fullDay, start, end, entry)[..j], writes[..j]) && writes[j].Refused?
    ensures Stored(EntryPieces(fullDay, start, end, entry), writes) <= EntryBlock(fullDay, start, end, entry)
  {
    StoredUpToFailure(EntryPieces(fullDay, start, end, entry), writes, j);
    PiecesMakeBlock(fullDay, start, end, entry);
  }

  /** A timed entry whose second write fails leaves a lone `[[timestamp]]` header in the file. */
  lemma LoneTimestampHeader(start: string, end: string, entry: string)
    ensures Stored(EntryPieces(false, start, end, entry), [Accepted(14), Refused, Refused, Refused]) == "[[timestamp]]\n"
  {
    var p := EntryPieces(false, start, end, entry);
    var w := [Accepted(14), Refused, Refused, Refused];
    assert |p[0]| == 14;
    assert Stored(p, w) == p[0] + Stored(p[1..], w[1..]);
  }
}
