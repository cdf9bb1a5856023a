/** The archive of tools/clearwright_archive.py as mutable state, against ArchiveMoves and ArchiveIndex. */
module ArchiveTrees {
  import opened Wrappers
  import opened ArchiveMoves
  import opened ArchiveIndex

  class ArchiveTree {
    var files: Files
    var logs: map<OpId, Log>
    var pending: map<OpId, seq<Item>>
    var done: map<OpId, seq<Item>>
    var manifests: map<OpId, seq<Row>>
    var index: Index

    /** The value of the whole tree. */
    function State(): Archive
      reads this
    {
      Archive(files, logs, pending, done, manifests, index)
    }

    constructor (files: Files)
      ensures State() == Fresh(files)
    {
      this.files := files;
      logs, pending, done, manifests, index := map[], map[], map[], map[], map[];
    }

    function LogOf(op: OpId): Log
      reads this
    {
      GetOr(logs, op, EMPTY_LOG)
    }

    /** `_append_completion`, cut off if its turn has come. */
    method AppendCompletion(op: OpId, dst: Path, fuse: Option<Crash>) returns (crashed: bool)
      modifies `logs
      ensures crashed == Now(fuse)
      ensures logs == old(logs)[op := if crashed then TornAppend(old(LogOf(op)), dst, fuse.value.tear)
                                else Appended(old(LogOf(op)), dst)]
    {
      var log := LogOf(op);
      crashed := Now(fuse);
      logs := logs[op := if crashed then TornAppend(log, dst, fuse.value.tear) else Appended(log, dst)];
    }

    /** The loop of `execute_journal`. */
    method ExecuteJournal(op: OpId, items: seq<Item>, fuse: Option<Crash>) returns (ending: Ending, left: Option<Crash>)
      modifies `files, `logs
      ensures var out := Execute(Disk(old(files), old(LogOf(op))), items, fuse);
              && files == out.disk.files && logs == old(logs)[op := out.disk.log]
              && ending == out.ending && left == out.fuse
    {
      logs := logs[op := LogOf(op)];
      left := fuse;
      var completed := Completed(LogOf(op));
      for i := 0 to |items|
        invariant op in logs && logs == old(logs)[op := LogOf(op)]
        invariant Execute(Disk(old(files), old(LogOf(op))), items, fuse)
                  == MoveFrom(Disk(files, LogOf(op)), items, i, completed, left)
      {
        var item := items[i];
        if item.dst in completed {
          continue;
        }
        var srcExists, dstExists := item.src in files, item.dst in files;
        if srcExists && dstExists {
          return Halted, left;
        }
        if !srcExists && dstExists {
          if Sha(files[item.dst]) != item.sha {
            return Halted, left;
          }
        } else {
          if !srcExists {
            return Halted, left;
          }
          if Sha(files[item.src]) != item.sha {
            return Halted, left;
          }
          if Now(left) {
            return Crashed, None;
          }
          left := Burn(left);
          files := Renamed(files, item.src, item.dst);
        }
        var crashed := AppendCompletion(op, item.dst, left);
        if crashed {
          return Crashed, None;
        }
        left := Burn(left);
      }
      return Success, left;
    }

    /** The loop of `_merge_manifest_into_index`. */
    method MergeManifest(rows: seq<Row>)
      modifies `index
      ensures index == Merge(old(index), rows)
    {
      for i := 0 to |rows|
        invariant index == Merge(old(index), rows[..i])
      {
        assert rows[..i + 1][..i] == rows[..i];
        var entry := GetOr(index, rows[i].id, IndexEntry(rows[i].kind, []));
        if rows[i].path !in entry.paths {
          index := index[rows[i].id := entry.(paths := entry.paths + [rows[i].path])];
        }
      }
      assert rows[..|rows|] == rows;
    }

    method FinalizeJournal(op: OpId, fuse: Option<Crash>) returns (ending: Ending, left: Option<Crash>)
      requires op in pending
      modifies `manifests, `index, `pending, `done
      ensures Finalize(old(State()), op, fuse) == Result(State(), ending, left)
    {
      if Now(fuse) {
        return Crashed, None;
      }
      var rows := RowsOf(pending[op]);
      manifests := manifests[op := rows];
      left := Burn(fuse);
      if Now(left) {
        return Crashed, None;
      }
      MergeManifest(rows);
      left := Burn(left);
      if Now(left) {
        return Crashed, None;
      }
      pending, done := pending - {op}, done[op := pending[op]];
      return Success, Burn(left);
    }

    method ResumeJournal(op: OpId, fuse: Option<Crash>) returns (ending: Ending, left: Option<Crash>)
      requires op in pending
      modifies this
      ensures Resume(old(State()), op, fuse) == Result(State(), ending, left)
    {
      ending, left := ExecuteJournal(op, pending[op], fuse);
      if ending == Success {
        ending, left := FinalizeJournal(op, left);
      }
    }

    /** The loop of `recover_pending` over the journals it finds. */
    method RecoverPending(listing: seq<OpId>, fuse: Option<Crash>) returns (ending: Ending, left: Option<Crash>)
      modifies this
      ensures Recover(old(State()), listing, fuse) == Result(State(), ending, left)
    {
      left := fuse;
      for i := 0 to |listing|
        invariant Recover(old(State()), listing, fuse) == Recover(State(), listing[i..], left)
      {
        assert listing[i..][0] == listing[i] && listing[i..][1..] == listing[i + 1..];
        if listing[i] in pending {
          ending, left := ResumeJournal(listing[i], left);
          if ending == Crashed {
            return;
          }
        }
      }
      return Success, left;
    }
  }
}
