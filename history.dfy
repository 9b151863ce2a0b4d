/**
  `HistoryStore` (homelab_brain/history.py): a JSONL file of metric
  snapshots, one record per line. The file is modelled as its lines without
  their terminating newlines, or `None` while it does not exist. Decoding a
  line and reading its timestamp are library code and enter as a function
  from the stripped line to its outcome.
 */
module History {
  import opened Wrappers
  import opened Text

  /** What `json.loads(line.strip())` followed by
      `datetime.fromisoformat(snapshot['timestamp'])` gives for one line: a
      timestamp, one of the three caught errors, or any other exception. */
  datatype Parsed = Stamped(time: int) | Malformed | Crash

  /** The outcome of `prune_old_data`: the number of records removed, or an
      exception that escaped the read loop. */
  datatype PruneResult = Removed(count: nat) | Raised

  /** The outcome of the read loop for `line`. */
  function Outcome(line: string, parse: string -> Parsed): Parsed {
    parse(Strip(line))
  }

  /** A well-formed record at or after the cutoff: it is kept. */
  predicate Recent(line: string, cutoff: int, parse: string -> Parsed) {
    var p := Outcome(line, parse);
    p.Stamped? && p.time >= cutoff
  }

  /** A well-formed record before the cutoff: it is removed and counted. */
  predicate Older(line: string, cutoff: int, parse: string -> Parsed) {
    var p := Outcome(line, parse);
    p.Stamped? && p.time < cutoff
  }

  /** Some line raises an exception the loop does not catch. */
  predicate Crashes(lines: seq<string>, parse: string -> Parsed) {
    exists i :: 0 <= i < |lines| && Outcome(lines[i], parse).Crash?
  }

  /** The kept records, stripped, in file order. */
  function Kept(lines: seq<string>, cutoff: int, parse: string -> Parsed): (r: seq<string>)
    ensures |r| <= |lines|
  {
    if lines == [] then []
    else
      var last := lines[|lines| - 1];
      Kept(lines[..|lines| - 1], cutoff, parse) + (if Recent(last, cutoff, parse) then [Strip(last)] else [])
  }

  /** The number of well-formed records before the cutoff. */
  function OlderCount(lines: seq<string>, cutoff: int, parse: string -> Parsed): nat {
    if lines == [] then 0
    else
      OlderCount(lines[..|lines| - 1], cutoff, parse)
      + (if Older(lines[|lines| - 1], cutoff, parse) then 1 else 0)
  }

  /** The number of lines whose decoding fails with a caught error. */
  function MalformedCount(lines: seq<string>, parse: string -> Parsed): nat {
    if lines == [] then 0
    else
      MalformedCount(lines[..|lines| - 1], parse)
      + (if Outcome(lines[|lines| - 1], parse).Malformed? then 1 else 0)
  }

  /** `get_snapshot_count`: 0 for a missing file, else its number of lines. */
  function SnapshotCount(file: Option<seq<string>>): nat {
    match file
    case None => 0
    case Some(lines) => |lines|
  }

  /** One line as `for line in f` yields it from a file opened in text mode:
      universal newlines end a line at `'\n'` and at `'\r'`, so it holds
      neither. */
  predicate IsLine(line: string) {
    '\n' !in line && '\r' !in line
  }

  /** The store, bound to one history file. */
  class HistoryStore {
    var file: Option<seq<string>>

    /** No line holds a line terminator: each is one record of the JSONL file. */
    predicate Valid()
      reads this
    {
      file.Some? ==> forall line <- file.value :: IsLine(line)
    }

    /** `HistoryStore(history_file)`: a store over a file with the given lines,
        or over one that does not exist yet. */
    constructor(initial: Option<seq<string>>)
      requires initial.Some? ==> forall line <- initial.value :: IsLine(line)
      ensures file == initial && Valid()
    {
      file := initial;
    }

    /** `append_snapshot`: the serialised snapshot becomes one more line at the
        end, creating the file when it is absent; `json.dumps` escapes every
        control character, so the record holds no raw `'\n'` or `'\r'`. */
    method AppendSnapshot(record: string)
      requires Valid() && IsLine(record)
      modifies this
      ensures Valid()
      ensures file == Some(old(file).GetOr([]) + [record])
    {
      file := Some(file.GetOr([]) + [record]);
    }

    /** `prune_old_data`: a missing file removes nothing and stays missing; a
        line that raises an uncaught exception aborts before the rewrite and
        leaves the file as it was; otherwise the file is rewritten with the
        kept records and the older ones are counted. */
    method PruneOldData(cutoff: int, parse: string -> Parsed) returns (r: PruneResult)
      requires Valid()
      modifies this
      ensures Valid()
      ensures old(file).None? ==> r == Removed(0) && file == old(file)
      ensures old(file).Some? && Crashes(old(file).value, parse) ==> r == Raised && file == old(file)
      ensures old(file).Some? && !Crashes(old(file).value, parse) ==>
        r == Removed(OlderCount(old(file).value, cutoff, parse))
        && file == Some(Kept(old(file).value, cutoff, parse))
    {
      if file.None? {
        return Removed(0);
      }
      var lines := file.value;
      var kept: seq<string> := [];
      var removed := 0;
      var i := 0;
      while i < |lines|
        invariant 0 <= i <= |lines|
        invariant kept == Kept(lines[..i], cutoff, parse)
        invariant removed == OlderCount(lines[..i], cutoff, parse)
        invariant !Crashes(lines[..i], parse)
        invariant file == old(file)
      {
        var line := lines[i];
        KeptStep(lines, i, cutoff, parse);
        OlderStep(lines, i, cutoff, parse);
        CrashStep(lines, i, parse);
        var outcome := Outcome(line, parse);
        match outcome {
          case Crash =>
            return Raised;
          case Malformed =>
            assert !Recent(lines[i], cutoff, parse) && !Older(lines[i], cutoff, parse);
          case Stamped(t) =>
            if t >= cutoff {
              assert Recent(lines[i], cutoff, parse) && !Older(lines[i], cutoff, parse);
              kept := kept + [Strip(line)];
            } else {
              assert Older(lines[i], cutoff, parse) && !Recent(lines[i], cutoff, parse);
              removed := removed + 1;
            }
        }
        i := i + 1;
      }
      assert lines[..i] == lines;
      KeptSingleLine(lines, cutoff, parse);
      assert forall line <- kept :: IsLine(line);
      file := Some(kept);
      r := Removed(removed);
    }

    /** `get_snapshot_count`: counts the lines one by one without decoding them. */
    method GetSnapshotCount() returns (count: nat)
      ensures count == SnapshotCount(file)
    {
      if file.None? {
        return 0;
      }
      var lines := file.value;
      count := 0;
      while count < |lines|
        invariant count <= |lines|
      {
        count := count + 1;
      }
    }
  }

  // ------------------------------------------------------------ properties

  /** One more line of the read loop: the kept records grow by that line's
      stripped text when it is recent. */
  lemma KeptStep(lines: seq<string>, i: nat, cutoff: int, parse: string -> Parsed)
    requires i < |lines|
    ensures Kept(lines[..i + 1], cutoff, parse)
      == Kept(lines[..i], cutoff, parse) + (if Recent(lines[i], cutoff, parse) then [Strip(lines[i])] else [])
  {
    var pre := lines[..i + 1];
    assert pre[..|pre| - 1] == lines[..i];
    assert pre[|pre| - 1] == lines[i];
  }

  /** One more line of the read loop: the removed count grows by one when the
      line is older than the cutoff. */
  lemma OlderStep(lines: seq<string>, i: nat, cutoff: int, parse: string -> Parsed)
    requires i < |lines|
    ensures OlderCount(lines[..i + 1], cutoff, parse)
      == OlderCount(lines[..i], cutoff, parse) + (if Older(lines[i], cutoff, parse) then 1 else 0)
  {
    var pre := lines[..i + 1];
    assert pre[..|pre| - 1] == lines[..i];
    assert pre[|pre| - 1] == lines[i];
  }

  /** One more line of the read loop crashes exactly when an earlier one did
      or this one does. */
  lemma CrashStep(lines: seq<string>, i: nat, parse: string -> Parsed)
    requires i < |lines|
    ensures Crashes(lines[..i + 1], parse) <==> Crashes(lines[..i], parse) || Outcome(lines[i], parse).Crash?
  {
    var pre := lines[..i + 1];
    if Crashes(pre, parse) {
      var k :| 0 <= k < |pre| && Outcome(pre[k], parse).Crash?;
      if k < i {
        assert lines[..i][k] == pre[k];
      }
    }
    if Crashes(lines[..i], parse) {
      var k :| 0 <= k < i && Outcome(lines[..i][k], parse).Crash?;
      assert pre[k] == lines[..i][k];
    }
    if Outcome(lines[i], parse).Crash? {
      assert pre[i] == lines[i];
    }
  }

  /** The kept records are single lines when the file's lines are. */
  lemma {:induction false} KeptSingleLine(lines: seq<string>, cutoff: int, parse: string -> Parsed)
    requires forall line <- lines :: IsLine(line)
    ensures forall line <- Kept(lines, cutoff, parse) :: IsLine(line)
  {
    if lines != [] {
      var init := lines[..|lines| - 1];
      assert forall line <- init :: line in lines;
      KeptSingleLine(init, cutoff, parse);
      var last := lines[|lines| - 1];
      assert last in lines;
      StripKeepsCharacters(last);
    }
  }

  /** Line `i` is a recent record whose stripped text is `x`. */
  predicate KeptFrom(lines: seq<string>, i: int, cutoff: int, parse: string -> Parsed, x: string) {
    0 <= i < |lines| && Recent(lines[i], cutoff, parse) && x == Strip(lines[i])
  }

  /** Every kept record comes from a recent line. */
  lemma {:induction false} KeptComesFromRecent(lines: seq<string>, cutoff: int, parse: string -> Parsed, x: string)
    requires x in Kept(lines, cutoff, parse)
    ensures exists i :: KeptFrom(lines, i, cutoff, parse, x)
  {
    var n := |lines| - 1;
    var init := lines[..n];
    assert Kept(lines, cutoff, parse)
      == Kept(init, cutoff, parse) + (if Recent(lines[n], cutoff, parse) then [Strip(lines[n])] else []);
    if x in Kept(init, cutoff, parse) {
      KeptComesFromRecent(init, cutoff, parse, x);
      var i :| KeptFrom(init, i, cutoff, parse, x);
      assert KeptFrom(lines, i, cutoff, parse, x);
    } else {
      assert KeptFrom(lines, n, cutoff, parse, x);
    }
  }

  /** Every recent line is kept. */
  lemma {:induction false} RecentIsKept(lines: seq<string>, i: int, cutoff: int, parse: string -> Parsed, x: string)
    requires KeptFrom(lines, i, cutoff, parse, x)
    ensures x in Kept(lines, cutoff, parse)
  {
    var n := |lines| - 1;
    var init := lines[..n];
    var tail := if Recent(lines[n], cutoff, parse) then [Strip(lines[n])] else [];
    assert Kept(lines, cutoff, parse) == Kept(init, cutoff, parse) + tail;
    if i == n {
      assert tail == [x];
    } else {
      assert init[i] == lines[i];
      RecentIsKept(init, i, cutoff, parse, x);
      assert x in Kept(init, cutoff, parse) + tail;
    }
  }

  /** A record is kept exactly when it is a well-formed line at or after the
      cutoff; it is kept stripped. */
  lemma KeptExactly(lines: seq<string>, cutoff: int, parse: string -> Parsed, x: string)
    ensures x in Kept(lines, cutoff, parse) <==> exists i :: KeptFrom(lines, i, cutoff, parse, x)
  {
    if x in Kept(lines, cutoff, parse) {
      KeptComesFromRecent(lines, cutoff, parse, x);
    }
    if exists i :: KeptFrom(lines, i, cutoff, parse, x) {
      var i :| KeptFrom(lines, i, cutoff, parse, x);
      RecentIsKept(lines, i, cutoff, parse, x);
    }
  }

  /** When no record predates the cutoff, pruning removes nothing. */
  lemma {:induction false} NothingOlderNothingRemoved(lines: seq<string>, cutoff: int, parse: string -> Parsed)
    requires forall line <- lines :: Outcome(line, parse).Stamped? ==> Outcome(line, parse).time >= cutoff
    ensures OlderCount(lines, cutoff, parse) == 0
  {
    if lines != [] {
      var init := lines[..|lines| - 1];
      assert forall line <- init :: line in lines;
      assert lines[|lines| - 1] in lines;
      NothingOlderNothingRemoved(init, cutoff, parse);
    }
  }

  /** Every line is kept, counted as removed, counted as malformed, or crashes:
      kept plus removed plus malformed is the line count. */
  lemma {:induction false} PruneAccounts(lines: seq<string>, cutoff: int, parse: string -> Parsed)
    requires !Crashes(lines, parse)
    ensures |Kept(lines, cutoff, parse)| + OlderCount(lines, cutoff, parse) + MalformedCount(lines, parse) == |lines|
  {
    if lines != [] {
      var init := lines[..|lines| - 1];
      forall k | 0 <= k < |init| ensures !Outcome(init[k], parse).Crash? {
        assert init[k] == lines[k];
      }
      PruneAccounts(init, cutoff, parse);
      assert !Outcome(lines[|lines| - 1], parse).Crash?;
    }
  }

  /** After a prune the file has at most as many lines as removed records
      fewer than before, and exactly that many when no line was malformed. */
  lemma PruneShrinksFile(lines: seq<string>, cutoff: int, parse: string -> Parsed)
    requires !Crashes(lines, parse)
    ensures |Kept(lines, cutoff, parse)| + OlderCount(lines, cutoff, parse) <= |lines|
    ensures |Kept(lines, cutoff, parse)| + OlderCount(lines, cutoff, parse) == |lines|
        <==> MalformedCount(lines, parse) == 0
  {
    PruneAccounts(lines, cutoff, parse);
  }

  /** Every kept record decodes to a timestamp at or after the cutoff. */
  lemma {:induction false} KeptAreRecent(lines: seq<string>, cutoff: int, parse: string -> Parsed)
    ensures forall line <- Kept(lines, cutoff, parse) :: Recent(line, cutoff, parse)
  {
    if lines != [] {
      KeptAreRecent(lines[..|lines| - 1], cutoff, parse);
      StripIdempotent(lines[|lines| - 1]);
    }
  }

  /** A kept file does not crash the read loop. */
  lemma NoCrashInKept(lines: seq<string>, cutoff: int, parse: string -> Parsed)
    ensures !Crashes(Kept(lines, cutoff, parse), parse)
  {
    var kept := Kept(lines, cutoff, parse);
    KeptAreRecent(lines, cutoff, parse);
    forall i | 0 <= i < |kept| ensures !Outcome(kept[i], parse).Crash? {
      assert kept[i] in kept;
    }
  }

  /** Lines that are all recent are kept unchanged when already stripped. */
  lemma {:induction false} RecentStrippedKept(lines: seq<string>, cutoff: int, parse: string -> Parsed)
    requires forall line <- lines :: Recent(line, cutoff, parse) && IsStripped(line)
    ensures Kept(lines, cutoff, parse) == lines
    ensures OlderCount(lines, cutoff, parse) == 0
  {
    if lines != [] {
      var init := lines[..|lines| - 1];
      var last := lines[|lines| - 1];
      forall line <- init ensures Recent(line, cutoff, parse) && IsStripped(line) {
        assert line in lines;
      }
      RecentStrippedKept(init, cutoff, parse);
      assert last in lines;
      StrippedIsFixed(last);
      assert Kept(lines, cutoff, parse) == init + [last];
      assert init + [last] == lines;
    }
  }

  /** Pruning twice with the same cutoff: the second pass removes nothing and
      leaves the file as the first pass wrote it. */
  lemma PruneIdempotent(lines: seq<string>, cutoff: int, parse: string -> Parsed)
    ensures !Crashes(Kept(lines, cutoff, parse), parse)
    ensures Kept(Kept(lines, cutoff, parse), cutoff, parse) == Kept(lines, cutoff, parse)
    ensures OlderCount(Kept(lines, cutoff, parse), cutoff, parse) == 0
  {
    var kept := Kept(lines, cutoff, parse);
    NoCrashInKept(lines, cutoff, parse);
    KeptAreRecent(lines, cutoff, parse);
    forall line <- kept ensures IsStripped(line) {
      KeptExactly(lines, cutoff, parse, line);
      var i :| KeptFrom(lines, i, cutoff, parse, line);
    }
    RecentStrippedKept(kept, cutoff, parse);
  }

  /** Appending a snapshot raises the count by one, whether or not the file
      existed. */
  lemma AppendCounts(file: Option<seq<string>>, record: string)
    ensures SnapshotCount(Some(file.GetOr([]) + [record])) == SnapshotCount(file) + 1
  {
  }
}
