/**
 * The agenda directory `$HOME/.cache/crust/`, seen as the files it holds:
 * file name to text.  Opening with `create(true).append(true)` creates a
 * missing file empty; each `write` then appends to it.
 *
 * Whether an `open` succeeds and what a `write` does are decided by the
 * operating system; they enter the model as parameters.  A `write` may
 * fail, or succeed after storing only the first part of its text: it
 * returns the number of characters taken, which the callers ignore.
 */
module EntryStore {
  import opened Wrappers

  /** The text of a file, or the empty text a freshly created file starts with. */
  function Contents(files: map<string, string>, name: string): string {
    if name in files then files[name] else ""
  }

  /** What the operating system does with one `write`: take its first `count` characters, or fail. */
  datatype WriteOutcome = Accepted(count: nat) | Refused

  /** The part of `text` that one `write` stores. */
  function Written(text: string, w: WriteOutcome): (r: string)
    ensures r <= text
    ensures w.Refused? ==> r == ""
    ensures w.Accepted? && w.count >= |text| ==> r == text
    ensures w.Accepted? && w.count < |text| ==> |r| == w.count
  {
    match w
    case Refused => ""
    case Accepted(n) => if n >= |text| then text else text[..n]
  }

  /** The texts of several writes, joined. */
  function Concat(pieces: seq<string>): string {
    if |pieces| == 0 then "" else pieces[0] + Concat(pieces[1..])
  }

  /**
   * What a run of writes, one per piece, stores: each write's part, up to
   * the first refused write, where the caller's `expect` stops the program.
   */
  function Stored(pieces: seq<string>, writes: seq<WriteOutcome>): string
    requires |writes| >= |pieces|
  {
    if |pieces| == 0 || writes[0].Refused? then ""
    else Written(pieces[0], writes[0]) + Stored(pieces[1..], writes[1..])
  }

  /** Every write of the run stored its whole text. */
  predicate Complete(pieces: seq<string>, writes: seq<WriteOutcome>)
    requires |writes| >= |pieces|
  {
    forall i :: 0 <= i < |pieces| ==> writes[i].Accepted? && writes[i].count >= |pieces[i]|
  }

  /** One step of a run of writes: the k-th write either stops the run or adds its part. */
  lemma StoredStep(pieces: seq<string>, writes: seq<WriteOutcome>, k: nat)
    requires |writes| >= |pieces| && k < |pieces|
    ensures Stored(pieces[k..], writes[k..])
            == if writes[k].Refused? then "" else Written(pieces[k], writes[k]) + Stored(pieces[k + 1..], writes[k + 1..])
  {
    assert pieces[k..][1..] == pieces[k + 1..];
    assert writes[k..][1..] == writes[k + 1..];
  }

  /** When every write takes its whole text, the run stores all the pieces. */
  lemma {:induction false} StoredComplete(pieces: seq<string>, writes: seq<WriteOutcome>)
    requires |writes| >= |pieces| && Complete(pieces, writes)
    ensures Stored(pieces, writes) == Concat(pieces)
  {
    if |pieces| > 0 {
      assert writes[0].Accepted? && writes[0].count >= |pieces[0]|;
      StoredComplete(pieces[1..], writes[1..]);
    }
  }

  /**
   * When the writes before the j-th take their whole texts and the j-th
   * fails, the run stores exactly the first j pieces: a prefix of the whole.
   */
  lemma {:induction false} StoredUpToFailure(pieces: seq<string>, writes: seq<WriteOutcome>, j: nat)
    requires |writes| >= |pieces| && j < |pieces|
    requires Complete(pieces[..j], writes[..j]) && writes[j].Refused?
    ensures Stored(pieces, writes) == Concat(pieces[..j])
    ensures Concat(pieces[..j]) <= Concat(pieces)
  {
    if j == 0 {
      assert pieces[..0] == [];
    } else {
      assert writes[0].Accepted? && writes[0].count >= |pieces[0]| by {
        assert pieces[..j][0] == pieces[0] && writes[..j][0] == writes[0];
      }
      assert pieces[1..][..j - 1] == pieces[..j][1..];
      assert writes[1..][..j - 1] == writes[..j][1..];
      StoredUpToFailure(pieces[1..], writes[1..], j - 1);
      assert pieces[..j][0] == pieces[0];
    }
  }

  /**
   * A run of writes to `name` after its first k writes: the file holds its
   * text before the run followed by `acc`, what those writes stored, and
   * none of them failed.
   */
  ghost predicate RunAt(before: map<string, string>, files: map<string, string>, name: string,
                        pieces: seq<string>, writes: seq<WriteOutcome>, k: nat, acc: string)
    requires |writes| >= |pieces| && k <= |pieces|
  {
    && files == before[name := Contents(before, name) + acc]
    && Stored(pieces, writes) == acc + Stored(pieces[k..], writes[k..])
    && forall i :: 0 <= i < k ==> writes[i].Accepted?
  }

  /** Opening the file starts the run. */
  lemma RunStart(before: map<string, string>, files: map<string, string>, name: string,
                 pieces: seq<string>, writes: seq<WriteOutcome>)
    requires |writes| >= |pieces|
    requires files == before[name := Contents(before, name)]
    ensures RunAt(before, files, name, pieces, writes, 0, "")
  {
    assert Contents(before, name) + "" == Contents(before, name);
    assert pieces[0..] == pieces && writes[0..] == writes;
  }

  /** The k-th write of a run either ends it with the run's text stored, or extends it. */
  lemma RunStep(before: map<string, string>, prev: map<string, string>, files: map<string, string>, name: string,
                pieces: seq<string>, writes: seq<WriteOutcome>, k: nat, acc: string)
    requires |writes| >= |pieces| && k < |pieces|
    requires RunAt(before, prev, name, pieces, writes, k, acc)
    requires files == prev[name := prev[name] + Written(pieces[k], writes[k])]
    ensures writes[k].Refused? ==>
              && files == before[name := Contents(before, name) + Stored(pieces, writes)]
              && !(forall i :: 0 <= i < |pieces| ==> writes[i].Accepted?)
    ensures writes[k].Accepted? ==> RunAt(before, files, name, pieces, writes, k + 1, acc + Written(pieces[k], writes[k]))
  {
    var part := Written(pieces[k], writes[k]);
    FileGrows(before, prev, files, name, acc, part);
    StoredStep(pieces, writes, k);
    if writes[k].Refused? {
      assert part == "" && acc + part == acc;
    } else {
      StoredRegroup(Stored(pieces, writes), acc, part, Stored(pieces[k + 1..], writes[k + 1..]));
    }
  }

  /** Opening a file (creating it empty) and then appending `text` appends `text` to the original. */
  lemma OpenThenRun(before: map<string, string>, afterOpen: map<string, string>, files: map<string, string>,
                    name: string, text: string)
    requires afterOpen == before[name := Contents(before, name)]
    requires files == afterOpen[name := Contents(afterOpen, name) + text]
    ensures files == before[name := Contents(before, name) + text]
  {
    assert before[name := Contents(before, name)][name := Contents(before, name) + text]
           == before[name := Contents(before, name) + text];
  }

  /** A file holding `before`'s text and `acc` that gains `part` holds `before`'s text and `acc + part`. */
  lemma FileGrows(before: map<string, string>, prev: map<string, string>, files: map<string, string>,
                  name: string, acc: string, part: string)
    requires prev == before[name := Contents(before, name) + acc]
    requires files == prev[name := prev[name] + part]
    ensures files == before[name := Contents(before, name) + (acc + part)]
  {
    var c := Contents(before, name);
    assert prev[name] + part == c + (acc + part);
    assert before[name := c + acc][name := c + (acc + part)] == before[name := c + (acc + part)];
  }

  lemma StoredRegroup(total: string, acc: string, part: string, rest: string)
    requires total == acc + (part + rest)
    ensures total == (acc + part) + rest
  {
  }

  /** After its last write the run has stored its whole text, and no write failed. */
  lemma RunEnd(before: map<string, string>, files: map<string, string>, name: string,
               pieces: seq<string>, writes: seq<WriteOutcome>, acc: string)
    requires |writes| >= |pieces|
    requires RunAt(before, files, name, pieces, writes, |pieces|, acc)
    ensures files == before[name := Contents(before, name) + Stored(pieces, writes)]
    ensures forall i :: 0 <= i < |pieces| ==> writes[i].Accepted?
  {
    assert pieces[|pieces|..] == [];
    assert acc + "" == acc;
  }

  class Directory {
    var files: map<string, string>

    constructor(initial: map<string, string>)
      ensures files == initial
    {
      files := initial;
    }

    /**
     * `OpenOptions::new().create(true).write(true).append(true).open(name)`:
     * `ok` says whether the system lets it succeed; on success a missing
     * file is created empty, and nothing else changes either way.
     */
    method Open(name: string, ok: bool) returns (isOpen: bool)
      modifies this
      ensures isOpen == ok
      ensures files == if ok then old(files)[name := Contents(old(files), name)] else old(files)
    {
      isOpen := ok;
      if ok {
        files := files[name := Contents(files, name)];
      }
    }

    /**
     * `file.write(text)` on the opened file: the part of `text` the system
     * takes goes to the end of the file, and the call reports its length,
     * or `None` when the write fails.
     */
    method Write(name: string, text: string, w: WriteOutcome) returns (count: Option<nat>)
      requires name in files
      modifies this
      ensures files == old(files)[name := old(files)[name] + Written(text, w)]
      ensures count == if w.Refused? then None else Some(|Written(text, w)|)
    {
      var part := Written(text, w);
      files := files[name := files[name] + part];
      count := if w.Refused? then None else Some(|part|);
    }
  }
}
