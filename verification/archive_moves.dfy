/**
 * The move journal of tools/clearwright_archive.py: planned renames, a completion log that a crash
 * can tear, and runs that are resumed forward only.
 */
module ArchiveMoves {
  import opened Wrappers

  type Path = string
  type Content = string

  /** SHA-256 as a free term, so that it is injective. */
  datatype Digest = Sha(content: Content)

  datatype Item = Item(id: string, kind: string, src: Path, dst: Path, sha: Digest)

  type Files = map<Path, Content>

  // ---- The completion log -------------------------------------------------------------------

  /** A line that parses, or one whose parts were written by two appends and never parses. */
  datatype LogLine = Entry(dst: Path) | Garbage

  /** What follows the last newline: nothing, a part of a record, or a record without its newline. */
  datatype Tail = NoTail | Partial | Unterminated(dst: Path)

  datatype Log = Log(lines: seq<LogLine>, tail: Tail)

  const EMPTY_LOG := Log([], NoTail)

  /** `_completed_rel_paths`: a record counts with or without its newline. */
  function Completed(log: Log): set<Path> {
    (set i | 0 <= i < |log.lines| && log.lines[i].Entry? :: log.lines[i].dst)
    + (if log.tail.Unterminated? then {log.tail.dst} else {})
  }

  /** `_append_completion`: a record appended to an unterminated tail spoils both. */
  function Appended(log: Log, dst: Path): Log {
    Log(log.lines + [if log.tail.NoTail? then Entry(dst) else Garbage], NoTail)
  }

  /** How far an interrupted append got. */
  datatype Tear = Unstarted | Part | AllButNewline

  function TornAppend(log: Log, dst: Path, tear: Tear): Log {
    match tear
    case Unstarted => log
    case Part => log.(tail := Partial)
    case AllButNewline => log.(tail := if log.tail.NoTail? then Unterminated(dst) else Partial)
  }

  /**
   * What counts as logged after an append, whole or torn.  A record that is complete up to its newline
   * counts at once; the next append then spoils it together with its own record.
   */
  lemma LoggedIff(log: Log, dst: Path, tear: Tear, p: Path)
    ensures p in Completed(Appended(log, dst)) <==> Entry(p) in log.lines || (log.tail.NoTail? && p == dst)
    ensures p in Completed(TornAppend(log, dst, tear)) <==>
              || Entry(p) in log.lines
              || (tear.Unstarted? && log.tail == Unterminated(p))
              || (tear.AllButNewline? && log.tail.NoTail? && p == dst)
  {
    var after := Appended(log, dst);
    assert Entry(p) in log.lines ==> p in Completed(log) && p in Completed(TornAppend(log, dst, tear)) by {
      if Entry(p) in log.lines {
        var i :| 0 <= i < |log.lines| && log.lines[i] == Entry(p);
        assert after.lines[i] == Entry(p);
      }
    }
    if p in Completed(after) {
      var i :| 0 <= i < |after.lines| && after.lines[i] == Entry(p);
      assert i < |log.lines| ==> log.lines[i] == Entry(p);
    }
    if log.tail.NoTail? && p == dst {
      assert after.lines[|log.lines|] == Entry(p);
    }
    if Entry(p) in log.lines {
      var i :| 0 <= i < |log.lines| && log.lines[i] == Entry(p);
      assert after.lines[i] == Entry(p);
    }
  }

  // ---- execute_journal -----------------------------------------------------------------------

  datatype Disk = Disk(files: Files, log: Log)

  datatype Verdict = Movable | Moved | Stuck

  function Check(files: Files, item: Item): Verdict {
    if item.src in files && item.dst in files then Stuck
    else if item.dst in files then (if Sha(files[item.dst]) == item.sha then Moved else Stuck)
    else if item.src in files then (if Sha(files[item.src]) == item.sha then Movable else Stuck)
    else Stuck
  }

  function Renamed(files: Files, src: Path, dst: Path): Files
    requires src in files
  {
    (files - {src})[dst := files[src]]
  }

  datatype Crash = Crash(after: nat, tear: Tear)
  datatype Ending = Success | Halted | Crashed
  datatype Outcome = Outcome(disk: Disk, ending: Ending, fuse: Option<Crash>)

  predicate Now(fuse: Option<Crash>) {
    fuse.Some? && fuse.value.after == 0
  }

  function Burn(fuse: Option<Crash>): Option<Crash>
    requires !Now(fuse)
  {
    match fuse case None => None case Some(c) => Some(Crash(c.after - 1, c.tear))
  }

  /** The loop from item i on; `completed` was read from the log when the run started. */
  function MoveFrom(d: Disk, items: seq<Item>, i: nat, completed: set<Path>, fuse: Option<Crash>): Outcome
    requires i <= |items|
    decreases |items| - i, 1
  {
    if i == |items| then Outcome(d, Success, fuse)
    else if items[i].dst in completed then MoveFrom(d, items, i + 1, completed, fuse)
    else
      match Check(d.files, items[i])
      case Stuck => Outcome(d, Halted, fuse)
      case Moved => LogFrom(d, items, i, completed, fuse)
      case Movable =>
        if Now(fuse) then Outcome(d, Crashed, None)
        else LogFrom(d.(files := Renamed(d.files, items[i].src, items[i].dst)), items, i, completed, Burn(fuse))
  }

  /** The loop from the completion record of item i on. */
  function LogFrom(d: Disk, items: seq<Item>, i: nat, completed: set<Path>, fuse: Option<Crash>): Outcome
    requires i < |items|
    decreases |items| - i, 0
  {
    if Now(fuse) then Outcome(d.(log := TornAppend(d.log, items[i].dst, fuse.value.tear)), Crashed, None)
    else MoveFrom(d.(log := Appended(d.log, items[i].dst)), items, i + 1, completed, Burn(fuse))
  }

  function Execute(d: Disk, items: seq<Item>, fuse: Option<Crash>): Outcome {
    MoveFrom(d, items, 0, Completed(d.log), fuse)
  }

  // ---- Conservation, for any plan on any disk -------------------------------------------------

  /** The paths that hold given bytes. */
  function Holding(files: Files, c: Content): set<Path> {
    set p | p in files && files[p] == c
  }

  /** Every content is held by as many files as before. */
  ghost predicate Conserves(f: Files, g: Files) {
    forall c :: |Holding(f, c)| == |Holding(g, c)|
  }

  lemma RenameConserves(files: Files, src: Path, dst: Path)
    requires src in files && dst !in files
    ensures Conserves(files, Renamed(files, src, dst))
  {
    var g := Renamed(files, src, dst);
    forall c ensures |Holding(files, c)| == |Holding(g, c)| {
      if c == files[src] {
        assert Holding(g, c) == Holding(files, c) - {src} + {dst};
      } else {
        assert Holding(g, c) == Holding(files, c);
      }
    }
  }

  /** No run deletes, overwrites or changes the bytes of any file, whatever it is asked to move. */
  lemma {:induction false} RunConserves(d: Disk, items: seq<Item>, i: nat, completed: set<Path>, fuse: Option<Crash>)
    requires i <= |items|
    ensures Conserves(d.files, MoveFrom(d, items, i, completed, fuse).disk.files)
    decreases |items| - i
  {
    if i < |items| {
      if items[i].dst in completed {
        RunConserves(d, items, i + 1, completed, fuse);
      } else if !Check(d.files, items[i]).Stuck? {
        var move := Check(d.files, items[i]).Movable?;
        if !(move && Now(fuse)) {
          if move {
            RenameConserves(d.files, items[i].src, items[i].dst);
          }
          var d1 := if move then d.(files := Renamed(d.files, items[i].src, items[i].dst)) else d;
          var f1 := if move then Burn(fuse) else fuse;
          if !Now(f1) {
            RunConserves(d1.(log := Appended(d1.log, items[i].dst)), items, i + 1, completed, Burn(f1));
          }
        }
      }
    }
  }

  // ---- Plans ------------------------------------------------------------------------------------

  /**
   * Sources are under the queue root and destinations under the archive, and a destination is named
   * after its source.  One file may be listed more than once.
   */
  predicate Separate(items: seq<Item>) {
    && (forall i, j :: 0 <= i < |items| && 0 <= j < |items| ==> items[i].src != items[j].dst)
    && (forall i, j :: 0 <= i < |items| && 0 <= j < |items| ==>
        (items[i].src == items[j].src <==> items[i].dst == items[j].dst))
  }

  /** The planned bytes are at exactly one of the two places. */
  predicate Placed(files: Files, item: Item) {
    && (item.src in files || item.dst in files)
    && !(item.src in files && item.dst in files)
    && Sha(files[if item.src in files then item.src else item.dst]) == item.sha
  }

  /** Item j, or the log, accounts for the j-th planned file. */
  predicate Accounted(files: Files, items: seq<Item>, completed: set<Path>, j: nat)
    requires j < |items|
  {
    items[j].dst in completed || Placed(files, items[j])
  }

  /**
   * A run that is not interrupted succeeds exactly when every planned file that is not logged is at
   * one of its two places, not at both, with the planned hash.
   */
  lemma {:induction false} SucceedsIff(d: Disk, items: seq<Item>, i: nat, completed: set<Path>)
    requires Separate(items) && i <= |items|
    ensures MoveFrom(d, items, i, completed, None).ending == Success
            <==> forall j {:trigger Accounted(d.files, items, completed, j)} ::
                   i <= j < |items| ==> Accounted(d.files, items, completed, j)
    ensures MoveFrom(d, items, i, completed, None).ending != Crashed
    decreases |items| - i
  {
    if i < |items| {
      if items[i].dst in completed {
        SucceedsIff(d, items, i + 1, completed);
        assert Accounted(d.files, items, completed, i);
      } else if Placed(d.files, items[i]) {
        var move := Check(d.files, items[i]).Movable?;
        var files := if move then Renamed(d.files, items[i].src, items[i].dst) else d.files;
        forall j | i <= j < |items|
          ensures Accounted(files, items, completed, j) <==> Accounted(d.files, items, completed, j)
        {
        }
        SucceedsIff(Disk(files, Appended(d.log, items[i].dst)), items, i + 1, completed);
      } else {
        assert !Accounted(d.files, items, completed, i);
      }
    }
  }

  // ---- Safety over crashed and resumed runs -------------------------------------------------------

  /** The plan as it was made: every source exists with its hash, no destination exists. */
  predicate Planned(base: Files, items: seq<Item>) {
    && Separate(items)
    && forall i :: 0 <= i < |items| ==>
         items[i].src in base && items[i].dst !in base && items[i].sha == Sha(base[items[i].src])
  }

  /** The planned bytes are at exactly one of their two places, unchanged. */
  predicate AtOne(base: Files, files: Files, item: Item)
    requires item.src in base
  {
    (item.src in files) != (item.dst in files)
    && files[if item.src in files then item.src else item.dst] == base[item.src]
  }

  predicate IsEnd(items: seq<Item>, p: Path) {
    exists i :: 0 <= i < |items| && (items[i].src == p || items[i].dst == p)
  }

  ghost predicate Moving(base: Files, items: seq<Item>, d: Disk)
    requires Planned(base, items)
  {
    && (forall i :: 0 <= i < |items| ==> AtOne(base, d.files, items[i]))
    && (forall p :: !IsEnd(items, p) ==> Get(d.files, p) == Get(base, p))
    && (forall i :: 0 <= i < |items| && items[i].dst in Completed(d.log) ==> items[i].dst in d.files)
  }

  ghost predicate AllMoved(items: seq<Item>, files: Files) {
    forall i :: 0 <= i < |items| ==> items[i].dst in files && items[i].src !in files
  }

  lemma LogKeepsMoving(base: Files, items: seq<Item>, d: Disk, i: nat, tear: Tear)
    requires Planned(base, items) && Moving(base, items, d) && i < |items| && items[i].dst in d.files
    ensures Moving(base, items, d.(log := Appended(d.log, items[i].dst)))
    ensures Moving(base, items, d.(log := TornAppend(d.log, items[i].dst, tear)))
  {
  }

  /** Renaming a file that is still at its source. */
  lemma RenameKeepsMoving(base: Files, items: seq<Item>, d: Disk, i: nat)
    requires Planned(base, items) && Moving(base, items, d) && i < |items| && Check(d.files, items[i]).Movable?
    ensures var e := d.(files := Renamed(d.files, items[i].src, items[i].dst));
            && Moving(base, items, e) && items[i].dst in e.files
            && forall j :: 0 <= j < |items| && items[j].dst in d.files ==> items[j].dst in e.files
  {
    assert AtOne(base, d.files, items[i]);
  }

  /** One run from a moving disk: it never halts, and if it is not interrupted everything has moved. */
  lemma {:induction false} RunIsSafe(base: Files, items: seq<Item>, d: Disk, i: nat, completed: set<Path>,
                                     fuse: Option<Crash>)
    requires Planned(base, items) && Moving(base, items, d) && i <= |items|
    requires forall j :: 0 <= j < |items| && (j < i || items[j].dst in completed) ==> items[j].dst in d.files
    ensures var out := MoveFrom(d, items, i, completed, fuse);
            && Moving(base, items, out.disk)
            && (if out.ending == Success then AllMoved(items, out.disk.files) else out.ending == Crashed && fuse.Some?)
    decreases |items| - i
  {
    if i < |items| {
      if items[i].dst in completed {
        RunIsSafe(base, items, d, i + 1, completed, fuse);
      } else {
        assert AtOne(base, d.files, items[i]);
        var move := Check(d.files, items[i]).Movable?;
        if move {
          RenameKeepsMoving(base, items, d, i);
        }
        if !(move && Now(fuse)) {
          var d1 := if move then d.(files := Renamed(d.files, items[i].src, items[i].dst)) else d;
          var f1 := if move then Burn(fuse) else fuse;
          LogKeepsMoving(base, items, d1, i, if Now(f1) then f1.value.tear else Unstarted);
          if !Now(f1) {
            RunIsSafe(base, items, d1.(log := Appended(d1.log, items[i].dst)), i + 1, completed, Burn(f1));
          }
        }
      }
    } else {
      forall j | 0 <= j < |items| ensures items[j].src !in d.files {
        assert AtOne(base, d.files, items[j]);
      }
    }
  }

  /** Runs of one journal, each cut off or not. */
  function Runs(d: Disk, items: seq<Item>, fuses: seq<Option<Crash>>): Disk
    decreases |fuses|
  {
    if fuses == [] then d else Runs(Execute(d, items, fuses[0]).disk, items, fuses[1..])
  }

  lemma {:induction false} RunsAreSafe(base: Files, items: seq<Item>, d: Disk, fuses: seq<Option<Crash>>)
    requires Planned(base, items) && Moving(base, items, d)
    ensures Moving(base, items, Runs(d, items, fuses))
    decreases |fuses|
  {
    if fuses != [] {
      RunIsSafe(base, items, d, 0, Completed(d.log), fuses[0]);
      RunsAreSafe(base, items, Execute(d, items, fuses[0]).disk, fuses[1..]);
    }
  }

  /** The disk with every planned file moved. */
  ghost predicate Relocated(base: Files, items: seq<Item>, files: Files)
    requires Planned(base, items)
  {
    && (forall i :: 0 <= i < |items| ==>
          items[i].src !in files && items[i].dst in files && files[items[i].dst] == base[items[i].src])
    && (forall p :: !IsEnd(items, p) ==> Get(files, p) == Get(base, p))
  }

  /**
   * Archive move safety.  After any number of runs that crash at any step, torn log appends included,
   * the planned bytes are each at exactly one of their two places and nothing else has changed, every
   * logged destination holds its bytes, and one more run that is not interrupted moves them all.
   */
  lemma MovesAreSafe(base: Files, items: seq<Item>, fuses: seq<Option<Crash>>)
    requires Planned(base, items)
    ensures var d := Runs(Disk(base, EMPTY_LOG), items, fuses);
            && Moving(base, items, d)
            && Execute(d, items, None).ending == Success
            && Relocated(base, items, Execute(d, items, None).disk.files)
  {
    var d0 := Disk(base, EMPTY_LOG);
    RunsAreSafe(base, items, d0, fuses);
    var d := Runs(d0, items, fuses);
    RunIsSafe(base, items, d, 0, Completed(d.log), None);
    forall i | 0 <= i < |items| ensures AtOne(base, Execute(d, items, None).disk.files, items[i]) {
    }
  }
}
