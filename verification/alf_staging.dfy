/**
 * What recovery cleans up: the payloads of operations that finished, and those of operations that
 * never began.
 */
module AlfStaging {
  import opened Wrappers
  import opened HashChain
  import opened AlfRecords
  import opened AlfJournal

  /** No operation that begins before line n has a staging directory. */
  ghost predicate Cleared(d: Disk, journal: seq<Line<JRecord>>, n: nat)
    requires n <= |journal|
  {
    forall k :: 0 <= k < n && journal[k].payload.OpBegin? ==> journal[k].payload.op !in d.staged
  }

  /** Replaying writes, like everything else in recovery, stages nothing. */
  lemma {:induction false} ReplayClears(d: Disk, op: OpId, es: seq<Entry>, n: nat, rest: Prog, fuse: Option<Crash>)
    returns (e: Disk, f: Option<Crash>)
    requires n <= |es| && Run(d, ReplayProg(op, es, n, rest), fuse).ending == Completed
    ensures e.staged == d.staged && Run(e, rest, f) == Run(d, ReplayProg(op, es, n, rest), fuse)
    decreases |es| - n
  {
    if n == |es| {
      e, f := d, fuse;
    } else {
      var step := ExecCmd(d, Replay(op, n, es[n]));
      assert step.Done? && step.disk.staged == d.staged;
      e, f := ReplayClears(step.disk, op, es, n + 1, rest, Burn(fuse));
    }
  }

  /** Finishing one operation removes its staging directory. */
  lemma FinishClears(d: Disk, op: OpId, rest: Prog, fuse: Option<Crash>) returns (e: Disk, f: Option<Crash>)
    requires Run(d, Cons(JournalAppend(OpCommit(op)), Cons(RemoveStaging(op), rest)), fuse).ending == Completed
    ensures e.staged == d.staged - {op}
    ensures Run(e, rest, f) == Run(d, Cons(JournalAppend(OpCommit(op)), Cons(RemoveStaging(op), rest)), fuse)
  {
    var d1 := AppendJournal(d, OpCommit(op));
    e, f := DropStaging(d1, op), Burn(Burn(fuse));
    assert Run(d1, Cons(RemoveStaging(op), rest), Burn(fuse)) == Run(e, rest, f);
  }

  lemma {:induction false} BeginsClear(d: Disk, journal: seq<Line<JRecord>>, i: nat, fuse: Option<Crash>)
    requires i <= |journal| && Cleared(d, journal, i)
    requires Run(d, BeginsProg(journal, i), fuse).ending == Completed
    ensures Run(d, BeginsProg(journal, i), fuse).disk.staged == map[]
    decreases |journal| - i
  {
    if i == |journal| {
      var known := KnownOps(journal);
      var e := ExecCmd(d, RemoveOrphans(known)).disk;
      assert Run(d, BeginsProg(journal, i), fuse) == Run(e, Nil, Burn(fuse));
      forall op | op in d.staged ensures op !in known {
      }
      assert e.staged == map[];
    } else {
      match journal[i].payload
      case OpCommit(_) => BeginsClear(d, journal, i + 1, fuse);
      case OpBegin(op, writes) =>
        var rest := BeginsProg(journal, i + 1);
        if Committed(journal, op) {
          var e := DropStaging(d, op);
          assert Run(d, BeginsProg(journal, i), fuse) == Run(e, rest, Burn(fuse));
          BeginsClear(e, journal, i + 1, Burn(fuse));
        } else {
          var finish := Cons(JournalAppend(OpCommit(op)), Cons(RemoveStaging(op), rest));
          var d1, f1 := ReplayClears(d, op, writes, 0, finish, fuse);
          var d2, f2 := FinishClears(d1, op, rest, f1);
          BeginsClear(d2, journal, i + 1, f2);
        }
    }
  }

  /**
   * A recovery that completes leaves no staging directory behind, on any disk: neither of operations it
   * has replayed or found finished, nor of operations that crashed before they began.
   */
  lemma RecoveryClearsStaging(d: Disk, fuse: Option<Crash>)
    requires Recover(d, fuse).ending == Completed && (d.journal != [] || d.journalTorn)
    ensures Recover(d, fuse).disk.staged == map[]
  {
    var d1 := d.(journalTorn := false);
    var begins := BeginsProg(d.journal, 0);
    assert Run(d, RecoverProg(d.journal), fuse) == Run(d1, Cons(Authenticate, begins), Burn(fuse));
    assert Run(d1, Cons(Authenticate, begins), Burn(fuse)) == Run(d1, begins, Burn(Burn(fuse)));
    BeginsClear(d1, d.journal, 0, Burn(Burn(fuse)));
  }
}
