/**
 * The phases of one journaled operation, and the theorems over whole sequences of crashed commits
 * and crashed recoveries.
 */
module AlfRecovery {
  import opened Wrappers
  import opened HashChain
  import opened AlfRecords
  import opened AlfJournal
  import opened AlfAtomicity

  // ---- Settled disks -------------------------------------------------------------------------

  /** The checkpoint recorded in an op id: the content of its last staged write. */
  function CheckpointOf(op: OpId): Option<Checkpoint> {
    if op.contents == [] then None
    else
      var last := op.contents[|op.contents| - 1].bytes;
      if last.ObjBytes? && last.obj.CheckpointObj? then Some(last.obj.checkpoint) else None
  }

  /** An op_begin at journal position n names an operation anchored to a journal of length n. */
  predicate Anchored(record: JRecord, n: nat) {
    && record.OpBegin?
    && CheckpointOf(record.op).Some?
    && CheckpointOf(record.op).value.journal.count == n
    && record.writes != []
    && var last := record.writes[|record.writes| - 1];
       last.ReplaceEntry? && last.file == ExpectedHeads && last.content == record.op.contents[|record.op.contents| - 1]
  }

  /** Every op_begin is followed by its own op_commit. */
  predicate Paired(journal: seq<Line<JRecord>>) {
    || journal == []
    || (var n := |journal|;
        && n >= 2
        && Anchored(journal[n - 2].payload, n - 2)
        && journal[n - 1].payload == OpCommit(journal[n - 2].payload.op)
        && Paired(journal[..n - 2]))
  }

  /** The live checkpoint is the one staged by the last committed operation. */
  function LastCheckpoint(journal: seq<Line<JRecord>>): Option<Checkpoint>
    requires Paired(journal)
  {
    if journal == [] then None else CheckpointOf(journal[|journal| - 2].payload.op)
  }

  predicate HeadHolds<P(==)>(lines: seq<Line<P>>, head: Head<P>) {
    head.count <= |lines| && head.digest == ChainHead(lines[..head.count])
  }

  /** Each head of the checkpoint is found at its recorded position. */
  predicate CheckpointHolds(cp: Checkpoint, s: Store, journal: seq<Line<JRecord>>) {
    && HeadHolds(journal, cp.journal)
    && HeadHolds(Lines(s, Index), cp.index)
    && HeadHolds(Lines(s, Occurrences), cp.occurrences)
    && HeadHolds(Lines(s, Ledger), cp.ledger)
  }

  predicate CheckpointLive(s: Store, journal: seq<Line<JRecord>>)
    requires Paired(journal)
  {
    match LastCheckpoint(journal)
    case None => ExpectedHeads !in s.files
    case Some(cp) => Get(s.files, ExpectedHeads) == Some(CheckpointObj(cp)) && CheckpointHolds(cp, s, journal)
  }

  ghost predicate ChainsOk(s: Store) {
    forall p :: ChainOk(Lines(s, p))
  }

  /** No operation is pending and nothing is torn, except perhaps the end of the journal. */
  ghost predicate Settled(d: Disk) {
    && ChainOk(d.journal)
    && Paired(d.journal)
    && CheckpointLive(d.store, d.journal)
    && ChainsOk(d.store)
    && d.torn == {}
  }

  lemma {:induction false} PairedFacts(journal: seq<Line<JRecord>>, op: OpId)
    requires Paired(journal)
    ensures OnlyCleanup(journal, 0, |journal|)
    ensures Committed(journal, op) ==> Begun(journal, op)
    ensures Begun(journal, op) ==> CheckpointOf(op).Some? && CheckpointOf(op).value.journal.count < |journal|
    decreases |journal|
  {
    if journal != [] {
      var n := |journal|;
      var before := journal[..n - 2];
      PairedFacts(before, op);
      forall k | 0 <= k < n && journal[k].payload.OpBegin? ensures Committed(journal, journal[k].payload.op) {
        if k < n - 2 {
          assert before[k] == journal[k];
          var i :| 0 <= i < n - 2 && before[i].payload == OpCommit(journal[k].payload.op);
          assert journal[i] == before[i];
        } else {
          assert journal[n - 1].payload == OpCommit(journal[k].payload.op);
        }
      }
      if Committed(journal, op) {
        var i :| 0 <= i < n && journal[i].payload == OpCommit(op);
        if i < n - 2 {
          assert before[i] == journal[i];
          var b :| 0 <= b < n - 2 && before[b].payload.OpBegin? && before[b].payload.op == op;
          assert journal[b] == before[b];
        } else {
          assert journal[n - 2].payload.OpBegin? && journal[n - 2].payload.op == op;
        }
      }
      if Begun(journal, op) {
        var b :| 0 <= b < n && journal[b].payload.OpBegin? && journal[b].payload.op == op;
        if b < n - 2 {
          assert before[b] == journal[b];
          assert Begun(before, op);
        }
      }
    }
  }

  // ---- The phases of one operation -----------------------------------------------------------

  /** An operation about to be committed on a disk. */
  datatype Txn = Txn(base: Disk, op: Intents)
  {
    function Writes(): seq<Staged> { Derive(base, op) }

    function Id(): OpId { OpIdOf(op, Writes()) }

    function BeginLine(): Line<JRecord> {
      Chained(OpBegin(Id(), Entries(Writes())), ChainHead(base.journal))
    }

    function BegunJournal(): seq<Line<JRecord>> { base.journal + [BeginLine()] }

    function FinishedJournal(): seq<Line<JRecord>> {
      BegunJournal() + [Chained(OpCommit(Id()), ChainHead(BegunJournal()))]
    }

    /** The store once every write of the operation has taken effect. */
    function Post(): Store { Applied(base.store, Writes(), |Writes()|) }
  }

  ghost predicate Governed(t: Txn) {
    Settled(t.base) && WellFormed(t.op)
  }

  ghost predicate IsBefore(t: Txn, d: Disk) {
    d.journal == t.base.journal && d.store == t.base.store && d.torn == {}
  }

  ghost predicate IsMid(t: Txn, d: Disk) {
    && d.journal == t.BegunJournal()
    && (exists k :: 0 <= k <= |t.Writes()| && d.store == Applied(t.base.store, t.Writes(), k))
    && d.torn <= TargetsFrom(t.Writes(), 0)
    && AllStaged(d, t.Id(), t.Writes())
  }

  ghost predicate IsAfter(t: Txn, d: Disk) {
    d.journal == t.FinishedJournal() && d.store == t.Post() && d.torn == {}
  }

  ghost predicate InPhase(t: Txn, d: Disk) {
    IsBefore(t, d) || IsMid(t, d) || IsAfter(t, d)
  }

  /** The op_begin line is complete on disk. */
  predicate BeginOnDisk(t: Txn, d: Disk) {
    t.BegunJournal() <= d.journal
  }

  /** The op id of a commit on a settled disk is new, so `_collision_check` lets it pass. */
  lemma FreshId(t: Txn)
    requires Settled(t.base)
    ensures !Begun(t.base.journal, t.Id()) && !Committed(t.base.journal, t.Id())
    ensures CheckpointOf(t.Id()) == Some(PreCheckpoint(t.base.store, t.base.journal))
  {
    PairedFacts(t.base.journal, t.Id());
    var ws := t.Writes();
    var rs := AllRewrites(t.base, t.op);
    assert ws[|ws| - 1] == StageRewrites(t.base.store, rs)[|rs| - 1];
    assert Contents(ws)[|ws| - 1] == Sha256(ObjBytes(CheckpointObj(PreCheckpoint(t.base.store, t.base.journal))));
  }

  lemma BeginIsPending(t: Txn)
    requires Settled(t.base)
    ensures OnlyCleanup(t.BegunJournal(), 0, |t.base.journal|)
    ensures !Committed(t.BegunJournal(), t.Id())
    ensures OnlyCleanup(t.FinishedJournal(), 0, |t.FinishedJournal()|)
  {
    FreshId(t);
    var base, begun, fin := t.base.journal, t.BegunJournal(), t.FinishedJournal();
    PairedFacts(base, t.Id());
    forall k | 0 <= k < |base| && base[k].payload.OpBegin?
      ensures Committed(begun, base[k].payload.op) && Committed(fin, base[k].payload.op)
    {
      var i :| 0 <= i < |base| && base[i].payload == OpCommit(base[k].payload.op);
      assert begun[i] == base[i] && fin[i] == base[i];
    }
    assert forall k :: 0 <= k < |base| ==> begun[k] == base[k] && fin[k] == base[k];
    assert fin[|base|] == t.BeginLine() && fin[|base| + 1].payload == OpCommit(t.Id());
  }

  /** A run that never halts: it is cut off by its crash, or it completes and then `done` holds. */
  ghost predicate Ends(out: Outcome, fuse: Option<Crash>, done: bool) {
    if out.ending == Completed then done else out.ending == Crashed && fuse.Some?
  }

  // ---- Commit --------------------------------------------------------------------------------

  /** Wherever a crash strikes, a commit leaves one of the phases; without a crash it completes. */
  lemma CommitPhases(t: Txn, fuse: Option<Crash>)
    requires Governed(t)
    ensures var out := Commit(t.base, t.op, fuse);
            && InPhase(t, out.disk)
            && Ends(out, fuse, IsAfter(t, out.disk))
  {
    FreshId(t);
    DeriveSound(t.base, t.op);
    var ws, id := t.Writes(), t.Id();
    var tail := CommitTail(id);
    var begin := OpBegin(id, Entries(ws));
    var d1, f1, c1 := StageSteps(t.base, id, ws, 0, Cons(JournalAppend(begin), ApplyProg(ws, 0, tail)), fuse);
    if !c1 {
      CommitFromBegin(t, d1, f1);
    }
  }

  /** The op_begin line and what follows it, once every payload is staged. */
  lemma CommitFromBegin(t: Txn, d: Disk, fuse: Option<Crash>)
    requires Governed(t) && Sound(t.base.store, t.Writes())
    requires IsBefore(t, d) && AllStaged(d, t.Id(), t.Writes())
    ensures var begin := OpBegin(t.Id(), Entries(t.Writes()));
            var out := Run(d, Cons(JournalAppend(begin), ApplyProg(t.Writes(), 0, CommitTail(t.Id()))), fuse);
            && InPhase(t, out.disk)
            && Ends(out, fuse, IsAfter(t, out.disk))
  {
    if !(fuse.Some? && fuse.value.after == 0) {
      var d' := AppendJournal(d, OpBegin(t.Id(), Entries(t.Writes())));
      StagingUntouched(d, d', t.Id(), t.Writes());
      CommitAfterBegin(t, d', Burn(fuse));
    }
  }

  lemma CommitAfterBegin(t: Txn, d: Disk, fuse: Option<Crash>)
    requires Governed(t) && Sound(t.base.store, t.Writes())
    requires d.journal == t.BegunJournal() && d.store == t.base.store && d.torn == {}
    requires AllStaged(d, t.Id(), t.Writes())
    ensures var out := Run(d, ApplyProg(t.Writes(), 0, CommitTail(t.Id())), fuse);
            && InPhase(t, out.disk)
            && Ends(out, fuse, IsAfter(t, out.disk))
  {
    var ws, id := t.Writes(), t.Id();
    var e, f, crashed, k := ApplySteps(t.base.store, ws, d, 0, 0, CommitTail(id), fuse);
    StagingUntouched(d, e, id, ws);
    if !crashed {
      FinishSteps(t, e, Nil, f);
    }
  }

  lemma StagingUntouched(d: Disk, e: Disk, id: OpId, ws: seq<Staged>)
    requires AllStaged(d, id, ws) && Get(e.staged, id) == Get(d.staged, id)
    ensures AllStaged(e, id, ws)
  {
    forall i | 0 <= i < |ws| ensures StagedBytes(e, id, i) == Some(ws[i].payload) {
      assert StagedBytes(d, id, i) == Some(ws[i].payload);
    }
  }

  /** op_commit and the removal of the staging directory, with anything harmless after them. */
  lemma FinishSteps(t: Txn, d: Disk, rest: Prog, fuse: Option<Crash>)
    requires IsMid(t, d) && d.store == t.Post() && d.torn == {}
    ensures var prog := Cons(JournalAppend(OpCommit(t.Id())), Cons(RemoveStaging(t.Id()), rest));
            var done := DropStaging(AppendJournal(d, OpCommit(t.Id())), t.Id());
            && IsAfter(t, done)
            && ((Run(d, prog, fuse).ending == Crashed && fuse.Some? && InPhase(t, Run(d, prog, fuse).disk))
                || (exists f :: Run(d, prog, fuse) == Run(done, rest, f) && (fuse.None? ==> f.None?)))
  {
    var prog := Cons(JournalAppend(OpCommit(t.Id())), Cons(RemoveStaging(t.Id()), rest));
    var d1 := AppendJournal(d, OpCommit(t.Id()));
    if fuse.Some? && fuse.value.after == 0 {
      var x := Interrupt(d, JournalAppend(OpCommit(t.Id())), fuse.value.tear);
      StagingUntouched(d, x, t.Id(), t.Writes());
    } else {
      var f1 := Burn(fuse);
      if f1.Some? && f1.value.after == 0 {
        assert Run(d1, prog.tail, f1).ending == Crashed;
      } else {
        assert Run(d, prog, fuse) == Run(DropStaging(d1, t.Id()), rest, Burn(f1));
      }
    }
  }

  // ---- Recovery ------------------------------------------------------------------------------

  /** A recovery heals and authenticates the journal before it looks at any operation. */
  lemma RecoveryPreamble(d: Disk, fuse: Option<Crash>)
    requires ChainOk(d.journal) && (d.journal != [] || d.journalTorn)
    ensures fuse.None? || fuse.value.after > 1 ==>
              Recover(d, fuse) == Run(d.(journalTorn := false), BeginsProg(d.journal, 0),
                                      if fuse.None? then None else Some(Crash(fuse.value.after - 2, fuse.value.tear)))
    ensures fuse.Some? && fuse.value.after <= 1 ==>
              Recover(d, fuse).ending == Crashed
              && Recover(d, fuse).disk == d.(journalTorn := Recover(d, fuse).disk.journalTorn)
  {
    var rest := BeginsProg(d.journal, 0);
    if fuse.None? || fuse.value.after > 0 {
      assert Run(d, RecoverProg(d.journal), fuse)
             == Run(d.(journalTorn := false), Cons(Authenticate, rest), Burn(fuse));
    }
  }

  /** A recovery with nothing pending leaves the store alone. */
  lemma QuietRecovery(d: Disk, fuse: Option<Crash>)
    requires ChainOk(d.journal) && OnlyCleanup(d.journal, 0, |d.journal|)
    ensures var out := Recover(d, fuse);
            && SameButStaging(d, out.disk)
            && Ends(out, fuse, !out.disk.journalTorn)
  {
    if d.journal != [] || d.journalTorn {
      RecoveryPreamble(d, fuse);
      if fuse.None? || fuse.value.after > 1 {
        var f := if fuse.None? then None else Some(Crash(fuse.value.after - 2, fuse.value.tear));
        var e, f', crashed := CleanupSteps(d.journal, d.(journalTorn := false), 0, |d.journal|, f);
      }
    }
  }

  /** The pending operation is replayed from its staged bytes and committed. */
  lemma ReplayPending(t: Txn, d: Disk, fuse: Option<Crash>)
    requires Governed(t) && IsMid(t, d)
    ensures var out := Run(d, BeginsProg(t.BegunJournal(), |t.base.journal|), fuse);
            && InPhase(t, out.disk)
            && Ends(out, fuse, IsAfter(t, out.disk) && !out.disk.journalTorn)
  {
    BeginIsPending(t);
    DeriveSound(t.base, t.op);
    var ws, id, journal := t.Writes(), t.Id(), t.BegunJournal();
    var after := BeginsProg(journal, |journal|);
    var finish := Cons(JournalAppend(OpCommit(id)), Cons(RemoveStaging(id), after));
    assert BeginsProg(journal, |t.base.journal|) == ReplayProg(id, Entries(ws), 0, finish);
    ReplayIsApply(d, id, ws, 0, finish, fuse);
    var m :| 0 <= m <= |ws| && d.store == Applied(t.base.store, ws, m);
    var g, f, crashed, k := ApplySteps(t.base.store, ws, d, 0, m, finish, fuse);
    StagingUntouched(d, g, id, ws);
    if !crashed {
      FinishReplay(t, g, f);
    }
  }

  lemma FinishReplay(t: Txn, g: Disk, fuse: Option<Crash>)
    requires IsMid(t, g) && g.store == t.Post() && g.torn == {}
    ensures var after := BeginsProg(t.BegunJournal(), |t.BegunJournal()|);
            var out := Run(g, Cons(JournalAppend(OpCommit(t.Id())), Cons(RemoveStaging(t.Id()), after)), fuse);
            && InPhase(t, out.disk)
            && Ends(out, fuse, IsAfter(t, out.disk) && !out.disk.journalTorn)
  {
    var after := BeginsProg(t.BegunJournal(), |t.BegunJournal()|);
    var finish := Cons(JournalAppend(OpCommit(t.Id())), Cons(RemoveStaging(t.Id()), after));
    FinishSteps(t, g, after, fuse);
    var done := DropStaging(AppendJournal(g, OpCommit(t.Id())), t.Id());
    if Run(g, finish, fuse).ending != Crashed || !InPhase(t, Run(g, finish, fuse).disk) || fuse.None? {
      var f :| Run(g, finish, fuse) == Run(done, after, f) && (fuse.None? ==> f.None?);
    }
  }

  /** A recovery of a pending operation finishes it, or is itself interrupted in some phase. */
  lemma PendingRecovery(t: Txn, d: Disk, fuse: Option<Crash>)
    requires Governed(t) && IsMid(t, d) && ChainOk(d.journal)
    ensures var out := Recover(d, fuse);
            && InPhase(t, out.disk)
            && Ends(out, fuse, IsAfter(t, out.disk) && !out.disk.journalTorn)
  {
    BeginIsPending(t);
    var ws, id, journal := t.Writes(), t.Id(), t.BegunJournal();
    RecoveryPreamble(d, fuse);
    if fuse.None? || fuse.value.after > 1 {
      var f := if fuse.None? then None else Some(Crash(fuse.value.after - 2, fuse.value.tear));
      var h := d.(journalTorn := false);
      var e, f1, crashed := CleanupSteps(journal, h, 0, |t.base.journal|, f);
      StagingUntouched(d, e, id, ws);
      if !crashed {
        ReplayPending(t, e, f1);
      }
    } else {
      StagingUntouched(d, Recover(d, fuse).disk, id, ws);
    }
  }
}
