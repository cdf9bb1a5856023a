/**
 * When one operation rewrites a file twice with different contents.  Both intents are bound to the
 * bytes the file had before the operation, so either the commit halts on the second one, or it goes
 * through and its replay after a crash halts.
 */
module AlfConflicts {
  import opened Wrappers
  import opened HashChain
  import opened AlfRecords
  import opened AlfJournal
  import opened AlfAtomicity
  import opened AlfRecovery
  import opened AlfCrashes

  /** The writes from j on, applied without a crash. */
  function ApplyFrom(d: Disk, ws: seq<Staged>, j: nat): Exec
    requires j <= |ws|
    decreases |ws| - j
  {
    if j == |ws| then Done(d)
    else
      match ApplyWrite(d, ws[j].entry, ws[j].payload)
      case Halt(h) => Halt(h)
      case Done(h) => ApplyFrom(h, ws, j + 1)
  }

  function CrashAt(step: nat): Option<Crash> {
    Some(Crash(step, Unstarted))
  }

  lemma {:induction false} ApplyRuns(d: Disk, ws: seq<Staged>, j: nat, rest: Prog, extra: nat)
    requires j <= |ws|
    ensures var x := ApplyFrom(d, ws, j);
            && SameButTargets(d, x.disk)
            && (x.Halt? ==> Run(d, ApplyProg(ws, j, rest), None).ending == Halted)
            && (x.Done? ==> Run(d, ApplyProg(ws, j, rest), None) == Run(x.disk, rest, None)
                            && Run(d, ApplyProg(ws, j, rest), CrashAt(|ws| - j + extra))
                                == Run(x.disk, rest, CrashAt(extra)))
    decreases |ws| - j
  {
    if j < |ws| {
      var y := ApplyWrite(d, ws[j].entry, ws[j].payload);
      if y.Done? {
        ApplyRuns(y.disk, ws, j + 1, rest, extra);
      }
    }
  }

  /** d and e differ at most in the store and in the unterminated ends of its files. */
  predicate SameButTargets(d: Disk, e: Disk) {
    e == d.(store := e.store, torn := e.torn)
  }

  function AllPut(d: Disk, id: OpId, ws: seq<Staged>, n: nat): Disk
    requires n <= |ws|
    decreases |ws| - n
  {
    if n == |ws| then d else AllPut(PutStaged(d, id, n, ws[n].payload), id, ws, n + 1)
  }

  lemma {:induction false} StageRuns(d: Disk, id: OpId, ws: seq<Staged>, n: nat, rest: Prog, extra: nat)
    requires n <= |ws|
    requires forall i {:trigger StagedBytes(d, id, i)} :: 0 <= i < n ==> StagedBytes(d, id, i) == Some(ws[i].payload)
    ensures var e := AllPut(d, id, ws, n);
            && e == d.(staged := e.staged) && AllStaged(e, id, ws)
            && Run(d, StageProg(id, ws, n, rest), None) == Run(e, rest, None)
            && Run(d, StageProg(id, ws, n, rest), CrashAt(|ws| - n + extra)) == Run(e, rest, CrashAt(extra))
    decreases |ws| - n
  {
    if n < |ws| {
      var d' := PutStaged(d, id, n, ws[n].payload);
      forall i | 0 <= i < n + 1 ensures StagedBytes(d', id, i) == Some(ws[i].payload) {
        assert i < n ==> StagedBytes(d, id, i) == Some(ws[i].payload);
      }
      StageRuns(d', id, ws, n + 1, rest, extra);
    }
  }

  // ---- The contents one file goes through ---------------------------------------------------

  predicate Rewrites(w: Staged, f: FilePath) {
    w.entry.ReplaceEntry? && w.entry.file == f
  }

  /** Every write to f is bound to e. */
  ghost predicate BoundTo(ws: seq<Staged>, f: FilePath, e: Option<ContentHash>) {
    forall i :: 0 <= i < |ws| && Rewrites(ws[i], f) ==> ws[i].payload.ObjBytes? && ws[i].entry.expected == e
  }

  /** Once f has left the bytes its writes are bound to, only writes of its current bytes get through. */
  lemma {:induction false} OffTheBinding(d: Disk, ws: seq<Staged>, j: nat, f: FilePath, e: Option<ContentHash>)
    requires j <= |ws| && BoundTo(ws, f, e) && ApplyFrom(d, ws, j).Done? && FileHash(d.store, f) != e
    ensures FileHash(ApplyFrom(d, ws, j).disk.store, f) == FileHash(d.store, f)
    ensures forall i :: j <= i < |ws| && Rewrites(ws[i], f) ==> Some(Sha256(ws[i].payload)) == FileHash(d.store, f)
    decreases |ws| - j
  {
    if j < |ws| {
      OffTheBinding(ApplyWrite(d, ws[j].entry, ws[j].payload).disk, ws, j + 1, f, e);
    }
  }

  /** If f ends with the bytes its writes are bound to, all of them wrote these bytes. */
  lemma {:induction false} BackAtTheBinding(d: Disk, ws: seq<Staged>, j: nat, f: FilePath, e: Option<ContentHash>)
    requires j <= |ws| && BoundTo(ws, f, e) && ApplyFrom(d, ws, j).Done?
    requires FileHash(ApplyFrom(d, ws, j).disk.store, f) == e
    ensures forall i :: j <= i < |ws| && Rewrites(ws[i], f) ==> Some(Sha256(ws[i].payload)) == e
    decreases |ws| - j
  {
    if j < |ws| {
      var h := ApplyWrite(d, ws[j].entry, ws[j].payload).disk;
      if FileHash(h.store, f) != e {
        OffTheBinding(h, ws, j + 1, f, e);
      }
      BackAtTheBinding(h, ws, j + 1, f, e);
    }
  }

  /** Writes that go through twice in a row give each file one content. */
  lemma TwiceMeansOnce(d: Disk, ws: seq<Staged>, again: Disk, f: FilePath, e: Option<ContentHash>)
    requires BoundTo(ws, f, e) && ApplyFrom(d, ws, 0).Done?
    requires again.store == ApplyFrom(d, ws, 0).disk.store && ApplyFrom(again, ws, 0).Done?
    ensures forall i, j :: 0 <= i < |ws| && 0 <= j < |ws| && Rewrites(ws[i], f) && Rewrites(ws[j], f)
              ==> ws[i].payload == ws[j].payload
  {
    if FileHash(again.store, f) == e {
      BackAtTheBinding(d, ws, 0, f, e);
    } else {
      OffTheBinding(again, ws, 0, f, e);
    }
  }

  // ---- The operation -------------------------------------------------------------------------

  /** Derived writes are hashed, and the rewrites of a file are bound to its bytes before the operation. */
  lemma DerivedBindings(t: Txn, f: FilePath)
    ensures Hashed(t.Writes())
    ensures BoundTo(t.Writes(), f, FileHash(t.base.store, f))
  {
    var ws := t.Writes();
    var a := StageAppends(t.base.store, Group(t.op.appends));
    var b := StageRewrites(t.base.store, AllRewrites(t.base, t.op));
    StagedAppendsBound(t.base.store, Group(t.op.appends));
    forall i | 0 <= i < |ws|
      ensures ws[i].entry.content == Sha256(ws[i].payload)
      ensures Rewrites(ws[i], f) ==> ws[i].payload.ObjBytes? && ws[i].entry.expected == FileHash(t.base.store, f)
    {
      if i < |a| {
        assert ws[i] == a[i];
      } else {
        assert ws[i] == b[i - |a|];
      }
    }
  }

  /** Each registered rewrite is among the derived writes. */
  lemma DerivedRewrite(t: Txn, i: nat) returns (k: nat)
    requires i < |t.op.rewrites|
    ensures k < |t.Writes()| && Rewrites(t.Writes()[k], t.op.rewrites[i].file)
    ensures t.Writes()[k].payload == ObjBytes(t.op.rewrites[i].obj)
  {
    var rs := AllRewrites(t.base, t.op);
    k := |StageAppends(t.base.store, Group(t.op.appends))| + i;
    assert t.Writes()[k] == StageRewrites(t.base.store, rs)[i] && rs[i] == t.op.rewrites[i];
  }

  /** The step at which the commit appends its op_commit line. */
  function AtCommitLine(t: Txn): Option<Crash> {
    CrashAt(2 * |t.Writes()| + 1)
  }

  /** The commit up to its op_begin line, uninterrupted or with the crash at its op_commit line. */
  lemma BegunCommit(t: Txn) returns (d: Disk)
    requires Commit(t.base, t.op, None).ending == Completed
    ensures d.journal == t.BegunJournal() && d.store == t.base.store && AllStaged(d, t.Id(), t.Writes())
    ensures Commit(t.base, t.op, None) == Run(d, ApplyProg(t.Writes(), 0, CommitTail(t.Id())), None)
    ensures Commit(t.base, t.op, AtCommitLine(t))
            == Run(d, ApplyProg(t.Writes(), 0, CommitTail(t.Id())), CrashAt(|t.Writes()|))
  {
    var ws, id := t.Writes(), t.Id();
    var begin := OpBegin(id, Entries(ws));
    var apply := ApplyProg(ws, 0, CommitTail(id));
    StageRuns(t.base, id, ws, 0, Cons(JournalAppend(begin), apply), |ws| + 1);
    var e := AllPut(t.base, id, ws, 0);
    d := AppendJournal(e, begin);
    StagingUntouched(e, d, id, ws);
    assert Run(e, Cons(JournalAppend(begin), apply), None) == Run(d, apply, None);
    assert Run(e, Cons(JournalAppend(begin), apply), CrashAt(|ws| + 1)) == Run(d, apply, CrashAt(|ws|));
  }

  /** A commit that completes, and the disk a crash on its op_commit line leaves. */
  lemma CompletedCommit(t: Txn) returns (d: Disk)
    requires Commit(t.base, t.op, None).ending == Completed
    ensures d.journal == t.BegunJournal() && d.store == t.base.store && AllStaged(d, t.Id(), t.Writes())
    ensures ApplyFrom(d, t.Writes(), 0).Done?
    ensures Commit(t.base, t.op, AtCommitLine(t)).disk == ApplyFrom(d, t.Writes(), 0).disk
  {
    d := BegunCommit(t);
    ApplyRuns(d, t.Writes(), 0, CommitTail(t.Id()), 0);
  }

  /** Recovering the begun operation completes only if its writes go through once more. */
  lemma ReplayNeeded(t: Txn, d: Disk) returns (again: Disk)
    requires Settled(t.base) && d.journal == t.BegunJournal() && AllStaged(d, t.Id(), t.Writes())
    requires Recover(d, None).ending == Completed
    ensures again.store == d.store && ApplyFrom(again, t.Writes(), 0).Done?
  {
    BeginIsPending(t);
    ChainExtends(t.base.journal, OpBegin(t.Id(), Entries(t.Writes())));
    DerivedBindings(t, ExpectedHeads);
    var ws, id, journal := t.Writes(), t.Id(), t.BegunJournal();
    RecoveryPreamble(d, None);
    var f: Option<Crash>, crashed: bool;
    again, f, crashed := CleanupSteps(journal, d.(journalTorn := false), 0, |t.base.journal|, None);
    StagingUntouched(d, again, id, ws);
    var finish := Cons(JournalAppend(OpCommit(id)), Cons(RemoveStaging(id), BeginsProg(journal, |journal|)));
    assert BeginsProg(journal, |t.base.journal|) == ReplayProg(id, Entries(ws), 0, finish);
    ReplayIsApply(again, id, ws, 0, finish, None);
    ApplyRuns(again, ws, 0, finish, 0);
  }

  /** An operation that commits and whose writes go through again gives each file one content. */
  lemma ReplayedIsConsistent(t: Txn, d: Disk, again: Disk)
    requires d.store == t.base.store && ApplyFrom(d, t.Writes(), 0).Done?
    requires again.store == ApplyFrom(d, t.Writes(), 0).disk.store && ApplyFrom(again, t.Writes(), 0).Done?
    ensures Consistent(t.op.rewrites)
  {
    forall i, j | 0 <= i < |t.op.rewrites| && 0 <= j < |t.op.rewrites| && t.op.rewrites[i].file == t.op.rewrites[j].file
      ensures t.op.rewrites[i].obj == t.op.rewrites[j].obj
    {
      var f := t.op.rewrites[i].file;
      DerivedBindings(t, f);
      var k := DerivedRewrite(t, i);
      var m := DerivedRewrite(t, j);
      TwiceMeansOnce(d, t.Writes(), again, f, FileHash(t.base.store, f));
    }
  }

  lemma RecoveredIsConsistent(t: Txn)
    requires Settled(t.base) && Commit(t.base, t.op, None).ending == Completed
    requires Recover(Commit(t.base, t.op, AtCommitLine(t)).disk, None).ending == Completed
    ensures Consistent(t.op.rewrites)
  {
    var d := CompletedCommit(t);
    var x := ApplyFrom(d, t.Writes(), 0).disk;
    ApplyRuns(d, t.Writes(), 0, Nil, 0);
    StagingUntouched(d, x, t.Id(), t.Writes());
    var again := ReplayNeeded(t, x);
    ReplayedIsConsistent(t, d, again);
  }

  /**
   * The exact condition for atomicity: an operation commits, and survives a crash on its op_commit
   * line, exactly when no two of its rewrites give one file different contents.
   */
  lemma ReplayableIffConsistent(t: Txn)
    requires Settled(t.base)
    requires forall i :: 0 <= i < |t.op.rewrites| ==> t.op.rewrites[i].file != ExpectedHeads
    ensures Consistent(t.op.rewrites) <==>
              Commit(t.base, t.op, None).ending == Completed
              && Recover(Commit(t.base, t.op, AtCommitLine(t)).disk, None).ending == Completed
  {
    if Consistent(t.op.rewrites) {
      CommitPhases(t, None);
      CrashAtomicity(t, AtCommitLine(t), []);
    }
    if Commit(t.base, t.op, None).ending == Completed
       && Recover(Commit(t.base, t.op, AtCommitLine(t)).disk, None).ending == Completed {
      RecoveredIsConsistent(t);
    }
  }
}
