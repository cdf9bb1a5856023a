/**
 * Why recovery has to come before the next commit.  `commit` does not look for a pending operation;
 * an op_begin line over a pending one can leave a store on which no recovery ever completes again.
 */
module AlfDiscipline {
  import opened Wrappers
  import opened HashChain
  import opened AlfRecords
  import opened AlfJournal
  import opened AlfAtomicity
  import opened AlfRecovery

  // ---- Checkpoints only get younger ---------------------------------------------------------------------

  function Live(s: Store): Option<Obj> {
    Get(s.files, ExpectedHeads)
  }

  /** The journal length a checkpoint records; -1 without one. */
  function Age(o: Option<Obj>): int {
    if o.Some? && o.value.CheckpointObj? then o.value.checkpoint.journal.count else -1
  }

  /** No checkpoint, or one of a journal shorter than n. */
  predicate OlderThan(o: Option<Obj>, n: nat) {
    o.None? || (o.value.CheckpointObj? && o.value.checkpoint.journal.count < n)
  }

  function BytesOf(hash: Option<ContentHash>): Option<Obj> {
    if hash.Some? && hash.value.bytes.ObjBytes? then Some(hash.value.bytes.obj) else None
  }

  predicate LastReplaces(writes: seq<Entry>) {
    && writes != [] && writes[|writes| - 1].ReplaceEntry? && writes[|writes| - 1].file == ExpectedHeads
    && forall i {:trigger writes[i]} :: 0 <= i < |writes| - 1 && writes[i].ReplaceEntry? ==>
        writes[i].file != ExpectedHeads
  }

  /** The op_begin at journal position n replaces, last of all, a checkpoint older than n by one of age n. */
  predicate Rises(record: JRecord, n: nat) {
    && record.OpBegin? && LastReplaces(record.writes) && Anchored(record, n)
    && var expected := record.writes[|record.writes| - 1].expected;
       (expected.Some? ==> expected.value.bytes.ObjBytes?) && OlderThan(BytesOf(expected), n)
  }

  /** The age of the checkpoint that the operation is bound to. */
  function BoundAge(record: JRecord): int
    requires record.OpBegin? && LastReplaces(record.writes)
  {
    Age(BytesOf(record.writes[|record.writes| - 1].expected))
  }

  predicate Unmet(journal: seq<Line<JRecord>>, n: nat) {
    n < |journal| && journal[n].payload.OpBegin? && !Committed(journal, journal[n].payload.op)
  }

  ghost predicate OpenRises(journal: seq<Line<JRecord>>) {
    forall n: nat {:trigger Unmet(journal, n)} :: Unmet(journal, n) ==> Rises(journal[n].payload, n)
  }

  ghost predicate CommitsBegun(journal: seq<Line<JRecord>>) {
    forall i :: 0 <= i < |journal| && journal[i].payload.OpCommit? ==> Begun(journal, journal[i].payload.op)
  }

  /** What every disk keeps that only commits and recoveries work on. */
  ghost predicate Sane(d: Disk) {
    OpenRises(d.journal) && CommitsBegun(d.journal) && OlderThan(Live(d.store), |d.journal|)
  }

  /** The checkpoint that the pending operation n is bound to is gone, and its own is not there. */
  predicate Stuck(d: Disk, n: nat) {
    Unmet(d.journal, n) && Rises(d.journal[n].payload, n)
    && BoundAge(d.journal[n].payload) < Age(Live(d.store)) != n
  }

  /** Two pending operations are bound to the live checkpoint: only one of them can replace it. */
  predicate Rivals(d: Disk, m: nat, n: nat) {
    && m != n && Unmet(d.journal, m) && Unmet(d.journal, n)
    && Rises(d.journal[m].payload, m) && Rises(d.journal[n].payload, n)
    && BoundAge(d.journal[m].payload) == BoundAge(d.journal[n].payload) == Age(Live(d.store))
  }

  predicate Doomed(d: Disk, m: nat, n: nat) {
    Stuck(d, m) || Stuck(d, n) || Rivals(d, m, n)
  }

  ghost predicate Bad(d: Disk, m: nat, n: nat) {
    Sane(d) && Doomed(d, m, n)
  }

  /** Two uncommitted op_begin lines do not name the same operation. */
  lemma OpenIdsDiffer(journal: seq<Line<JRecord>>, m: nat, n: nat)
    requires OpenRises(journal) && Unmet(journal, m) && Unmet(journal, n) && m != n
    ensures journal[m].payload.op != journal[n].payload.op
  {
    assert Rises(journal[m].payload, m) && Rises(journal[n].payload, n);
  }

  /** The journal and the live checkpoint are as they were. */
  lemma BadFrame(d: Disk, e: Disk, m: nat, n: nat)
    requires Bad(d, m, n) && e.journal == d.journal && Live(e.store) == Live(d.store)
    ensures Bad(e, m, n)
  {
  }

  /** An operation x replaces the live checkpoint, to which it is bound, by its own. */
  lemma BadRises(d: Disk, e: Disk, m: nat, n: nat, x: nat)
    requires Bad(d, m, n) && e.journal == d.journal && Unmet(d.journal, x)
    requires BoundAge(d.journal[x].payload) == Age(Live(d.store))
    requires Live(e.store).Some? && Live(e.store).value.CheckpointObj? && Age(Live(e.store)) == x
    ensures Bad(e, m, n)
  {
    assert Rises(d.journal[x].payload, x);
  }

  // ---- Replaying one operation ----------------------------------------------------------------------------

  predicate IsRecord(journal: seq<Line<JRecord>>, x: nat, op: OpId, writes: seq<Entry>) {
    Unmet(journal, x) && journal[x].payload == OpBegin(op, writes)
  }

  /** One replayed write of the pending operation x; after the last one its checkpoint is live. */
  lemma ReplayStep(d: Disk, m: nat, n: nat, x: nat, op: OpId, writes: seq<Entry>, j: nat)
    requires Bad(d, m, n) && IsRecord(d.journal, x, op, writes) && j < |writes|
    ensures var r := ExecCmd(d, Replay(op, j, writes[j]));
            && r.disk.journal == d.journal && Bad(r.disk, m, n)
            && (r.Done? && j == |writes| - 1 ==> Age(Live(r.disk.store)) == x)
  {
    assert Rises(d.journal[x].payload, x);
    var r := ExecCmd(d, Replay(op, j, writes[j]));
    if j < |writes| - 1 {
      BadFrame(d, r.disk, m, n);
    } else {
      LastReplay(d, x, op, writes);
      if Live(r.disk.store) == Live(d.store) {
        BadFrame(d, r.disk, m, n);
      } else {
        BadRises(d, r.disk, m, n, x);
      }
    }
  }

  lemma LastReplay(d: Disk, x: nat, op: OpId, writes: seq<Entry>)
    requires IsRecord(d.journal, x, op, writes) && Rises(d.journal[x].payload, x)
    ensures var r := ExecCmd(d, Replay(op, |writes| - 1, writes[|writes| - 1]));
            && r.disk.journal == d.journal
            && (Live(r.disk.store) == Live(d.store)
                || BoundAge(d.journal[x].payload) == Age(Live(d.store)))
            && (r.Done? || Live(r.disk.store) != Live(d.store) ==>
                  Live(r.disk.store).Some? && Live(r.disk.store).value.CheckpointObj? && Age(Live(r.disk.store)) == x)
  {
  }

  lemma {:induction false} ReplayKeeps(d: Disk, m: nat, n: nat, x: nat, op: OpId, writes: seq<Entry>, j: nat,
                                       rest: Prog, fuse: Option<Crash>)
    returns (e: Disk, f: Option<Crash>, stopped: bool)
    requires Bad(d, m, n) && IsRecord(d.journal, x, op, writes) && j <= |writes|
    requires j == |writes| ==> Age(Live(d.store)) == x
    ensures Bad(e, m, n) && e.journal == d.journal
    ensures var out := Run(d, ReplayProg(op, writes, j, rest), fuse);
            if stopped then out.disk == e && (out.ending == Halted || (out.ending == Crashed && fuse.Some?))
            else out == Run(e, rest, f) && Age(Live(e.store)) == x && (fuse.None? ==> f.None?)
    decreases |writes| - j
  {
    if j == |writes| {
      e, f, stopped := d, fuse, false;
    } else {
      var c := Replay(op, j, writes[j]);
      if fuse.Some? && fuse.value.after == 0 {
        e, f, stopped := Interrupt(d, c, fuse.value.tear), None, true;
        InterruptGrows(d, c, fuse.value.tear);
        BadFrame(d, e, m, n);
      } else {
        ReplayStep(d, m, n, x, op, writes, j);
        var r := ExecCmd(d, c);
        if r.Halt? {
          e, f, stopped := r.disk, None, true;
        } else {
          e, f, stopped := ReplayKeeps(r.disk, m, n, x, op, writes, j + 1, rest, Burn(fuse));
        }
      }
    }
  }

  /** The op_commit line of an operation whose checkpoint is live. */
  lemma CommitLineKeeps(d: Disk, m: nat, n: nat, x: nat, op: OpId)
    requires Bad(d, m, n) && Unmet(d.journal, x) && d.journal[x].payload.op == op && Age(Live(d.store)) == x
    ensures Bad(AppendJournal(d, OpCommit(op)), m, n)
    ensures forall k: nat :: Unmet(d.journal, k) && k != x ==> Unmet(AppendJournal(d, OpCommit(op)).journal, k)
    ensures Committed(AppendJournal(d, OpCommit(op)).journal, op)
  {
    var e := AppendJournal(d, OpCommit(op));
    assert Rises(d.journal[x].payload, x);
    CommittedOneMore(d.journal, e.journal, op);
    forall k: nat | Unmet(d.journal, k) && k != x ensures Unmet(e.journal, k) {
      OpenIdsDiffer(d.journal, k, x);
    }
    forall k: nat | Unmet(e.journal, k) ensures Rises(e.journal[k].payload, k) {
      assert k < |d.journal|;
      assert Unmet(d.journal, k);
    }
    BegunOneMore(d.journal, e.journal);
    StillDoomed(d, e, m, n, x);
  }

  lemma CommittedOneMore(journal: seq<Line<JRecord>>, longer: seq<Line<JRecord>>, op: OpId)
    requires |longer| == |journal| + 1 && journal <= longer && longer[|journal|].payload == OpCommit(op)
    ensures forall other :: Committed(longer, other) <==> Committed(journal, other) || other == op
  {
    forall other ensures Committed(longer, other) <==> Committed(journal, other) || other == op {
      if Committed(journal, other) {
        var i :| 0 <= i < |journal| && journal[i].payload == OpCommit(other);
        assert longer[i] == journal[i];
      }
      assert other == op ==> longer[|journal|].payload == OpCommit(other);
      if Committed(longer, other) && other != op {
        var i :| 0 <= i < |longer| && longer[i].payload == OpCommit(other);
        assert longer[i] == journal[i];
      }
    }
  }

  lemma BegunOneMore(journal: seq<Line<JRecord>>, longer: seq<Line<JRecord>>)
    requires CommitsBegun(journal) && |longer| == |journal| + 1 && journal <= longer
    requires longer[|journal|].payload.OpCommit? ==> Begun(journal, longer[|journal|].payload.op)
    ensures CommitsBegun(longer)
  {
    forall i | 0 <= i < |longer| && longer[i].payload.OpCommit? ensures Begun(longer, longer[i].payload.op) {
      var op := longer[i].payload.op;
      assert i < |journal| ==> journal[i] == longer[i];
      var k :| 0 <= k < |journal| && journal[k].payload.OpBegin? && journal[k].payload.op == op;
      assert longer[k] == journal[k];
    }
  }

  lemma StillDoomed(d: Disk, e: Disk, m: nat, n: nat, x: nat)
    requires Doomed(d, m, n) && d.journal <= e.journal && Live(e.store) == Live(d.store)
    requires Unmet(d.journal, x) && Age(Live(d.store)) == x && Rises(d.journal[x].payload, x)
    requires forall k: nat :: Unmet(d.journal, k) && k != x ==> Unmet(e.journal, k)
    ensures Doomed(e, m, n)
  {
    if Rivals(d, m, n) {
      assert x != m && x != n;
      assert Rivals(e, m, n);
    }
  }

  // ---- A recovery ------------------------------------------------------------------------------------------

  /** The loop of a recovery has committed the records before i, and none after. */
  ghost predicate LoopAt(journal: seq<Line<JRecord>>, d: Disk, i: nat) {
    && journal <= d.journal
    && (forall k: nat :: k < i && k < |journal| && journal[k].payload.OpBegin? ==>
        Committed(d.journal, journal[k].payload.op))
    && (forall k: nat :: i <= k && Unmet(journal, k) ==> Unmet(d.journal, k))
  }

  /** The record at i needs nothing, or has just been committed. */
  lemma LoopGoesOn(journal: seq<Line<JRecord>>, d: Disk, e: Disk, i: nat)
    requires LoopAt(journal, d, i) && i < |journal| && d.journal <= e.journal
    requires journal[i].payload.OpBegin? ==> Committed(e.journal, journal[i].payload.op)
    requires forall k: nat :: Unmet(d.journal, k) && k != i ==> Unmet(e.journal, k)
    ensures LoopAt(journal, e, i + 1)
  {
    forall k: nat | k < i + 1 && k < |journal| && journal[k].payload.OpBegin?
      ensures Committed(e.journal, journal[k].payload.op)
    {
      if k < i {
        StillCommitted(d.journal, e.journal, journal[k].payload.op);
      }
    }
  }

  lemma LoopEndsClean(journal: seq<Line<JRecord>>, d: Disk, m: nat, n: nat)
    requires LoopAt(journal, d, |journal|) && m < |journal| && n < |journal|
    ensures !Doomed(d, m, n)
  {
    assert journal[m] == d.journal[m] && journal[n] == d.journal[n];
    assert journal[m].payload.OpBegin? ==> Committed(d.journal, journal[m].payload.op);
    assert journal[n].payload.OpBegin? ==> Committed(d.journal, journal[n].payload.op);
  }

  ghost predicate NotDone(out: Outcome, fuse: Option<Crash>, m: nat, n: nat) {
    Bad(out.disk, m, n) && (out.ending == Halted || (out.ending == Crashed && fuse.Some?))
  }

  /** The op_commit line and the removal of the staging directory. */
  lemma FinishKeeps(d: Disk, m: nat, n: nat, x: nat, op: OpId, next: Prog, fuse: Option<Crash>)
    returns (e: Disk, f: Option<Crash>, stopped: bool)
    requires Bad(d, m, n) && Unmet(d.journal, x) && d.journal[x].payload.op == op && Age(Live(d.store)) == x
    ensures Bad(e, m, n) && d.journal <= e.journal
    ensures var out := Run(d, Cons(JournalAppend(OpCommit(op)), Cons(RemoveStaging(op), next)), fuse);
            if stopped then out == Outcome(e, Crashed) && fuse.Some?
            else out == Run(e, next, f) && (fuse.None? ==> f.None?)
    ensures !stopped ==> Committed(e.journal, op)
    ensures !stopped ==> forall k: nat :: Unmet(d.journal, k) && k != x ==> Unmet(e.journal, k)
  {
    if fuse.Some? && fuse.value.after == 0 {
      e, f, stopped := Interrupt(d, JournalAppend(OpCommit(op)), fuse.value.tear), None, true;
      BadFrame(d, e, m, n);
    } else {
      var d1, f1 := AppendJournal(d, OpCommit(op)), Burn(fuse);
      CommitLineKeeps(d, m, n, x, op);
      if f1.Some? && f1.value.after == 0 {
        e, f, stopped := Interrupt(d1, RemoveStaging(op), f1.value.tear), None, true;
      } else {
        e, f, stopped := DropStaging(d1, op), Burn(f1), false;
      }
      BadFrame(d1, e, m, n);
    }
  }

  /** One uncommitted record of the loop. */
  lemma RecordKeeps(journal: seq<Line<JRecord>>, d: Disk, m: nat, n: nat, i: nat, fuse: Option<Crash>)
    returns (e: Disk, f: Option<Crash>, stopped: bool)
    requires Bad(d, m, n) && LoopAt(journal, d, i) && i < |journal| && Unmet(journal, i)
    ensures Bad(e, m, n)
    ensures var out := Run(d, BeginsProg(journal, i), fuse);
            if stopped then out.disk == e && (out.ending == Halted || (out.ending == Crashed && fuse.Some?))
            else out == Run(e, BeginsProg(journal, i + 1), f) && (fuse.None? ==> f.None?) && LoopAt(journal, e, i + 1)
  {
    var op, writes := journal[i].payload.op, journal[i].payload.writes;
    var next := BeginsProg(journal, i + 1);
    var rest := Cons(JournalAppend(OpCommit(op)), Cons(RemoveStaging(op), next));
    assert Unmet(d.journal, i) && d.journal[i] == journal[i];
    assert Rises(journal[i].payload, i);
    assert BeginsProg(journal, i) == ReplayProg(op, writes, 0, rest);
    e, f, stopped := ReplayKeeps(d, m, n, i, op, writes, 0, rest, fuse);
    if !stopped {
      e, f, stopped := FinishKeeps(e, m, n, i, op, next, f);
      if !stopped {
        LoopGoesOn(journal, d, e, i);
      }
    }
  }

  lemma StillCommitted(journal: seq<Line<JRecord>>, longer: seq<Line<JRecord>>, op: OpId)
    requires journal <= longer && Committed(journal, op)
    ensures Committed(longer, op)
  {
    var i :| 0 <= i < |journal| && journal[i].payload == OpCommit(op);
    assert longer[i] == journal[i];
  }

  /** One record of the loop, whatever it is. */
  lemma LoopStep(journal: seq<Line<JRecord>>, d: Disk, m: nat, n: nat, i: nat, fuse: Option<Crash>)
    returns (e: Disk, f: Option<Crash>, stopped: bool)
    requires Bad(d, m, n) && LoopAt(journal, d, i) && i < |journal|
    ensures Bad(e, m, n)
    ensures var out := Run(d, BeginsProg(journal, i), fuse);
            if stopped then out.disk == e && (out.ending == Halted || (out.ending == Crashed && fuse.Some?))
            else out == Run(e, BeginsProg(journal, i + 1), f) && (fuse.None? ==> f.None?) && LoopAt(journal, e, i + 1)
  {
    if Unmet(journal, i) {
      e, f, stopped := RecordKeeps(journal, d, m, n, i, fuse);
    } else if journal[i].payload.OpCommit? {
      e, f, stopped := d, fuse, false;
      LoopGoesOn(journal, d, d, i);
    } else {
      var c := RemoveStaging(journal[i].payload.op);
      if fuse.Some? && fuse.value.after == 0 {
        e, f, stopped := Interrupt(d, c, fuse.value.tear), None, true;
      } else {
        e, f, stopped := DropStaging(d, journal[i].payload.op), Burn(fuse), false;
        StillCommitted(journal, d.journal, journal[i].payload.op);
        LoopGoesOn(journal, d, e, i);
      }
      BadFrame(d, e, m, n);
    }
  }

  /** The loop of a recovery never gets past a doomed pair. */
  lemma {:induction false} BeginsKeep(journal: seq<Line<JRecord>>, d: Disk, m: nat, n: nat, i: nat, fuse: Option<Crash>)
    requires Bad(d, m, n) && LoopAt(journal, d, i) && i <= |journal| && m < |journal| && n < |journal|
    ensures NotDone(Run(d, BeginsProg(journal, i), fuse), fuse, m, n)
    decreases |journal| - i
  {
    if i == |journal| {
      LoopEndsClean(journal, d, m, n);
    } else {
      var e, f, stopped := LoopStep(journal, d, m, n, i, fuse);
      if !stopped {
        BeginsKeep(journal, e, m, n, i + 1, f);
      }
    }
  }

  /** No recovery of a doomed store completes, and none changes that it is doomed. */
  lemma RecoverKeeps(d: Disk, m: nat, n: nat, fuse: Option<Crash>)
    requires Bad(d, m, n) && m < |d.journal| && n < |d.journal|
    ensures var out := Recover(d, fuse);
            Bad(out.disk, m, n) && (out.ending == Halted || (out.ending == Crashed && fuse.Some?))
  {
    var h := d.(journalTorn := false);
    BadFrame(d, h, m, n);
    if fuse.Some? && fuse.value.after == 0 {
      BadFrame(d, Interrupt(d, HealJournal, fuse.value.tear), m, n);
    } else {
      var f := Burn(fuse);
      var prog := BeginsProg(d.journal, 0);
      assert Recover(d, fuse) == Run(h, Cons(Authenticate, prog), f);
      if f.Some? && f.value.after == 0 {
        BadFrame(h, Interrupt(h, Authenticate, f.value.tear), m, n);
      } else if ChainOk(d.journal) {
        assert Recover(d, fuse) == Run(h, prog, Burn(f));
        BeginsKeep(d.journal, h, m, n, 0, Burn(f));
      }
    }
  }

  // ---- A commit --------------------------------------------------------------------------------------------

  /** The shape of the derived writes: the checkpoint comes last, and nothing else touches it. */
  lemma CheckpointIsLast(t: Txn)
    requires WellFormed(t.op)
    ensures var ws := t.Writes();
            && |ws| > 0
            && ws[|ws| - 1].entry == ReplaceEntry(ExpectedHeads, Sha256(ws[|ws| - 1].payload),
                                                  FileHash(t.base.store, ExpectedHeads))
            && ws[|ws| - 1].payload == ObjBytes(CheckpointObj(PreCheckpoint(t.base.store, t.base.journal)))
            && forall i {:trigger ws[i]} :: 0 <= i < |ws| - 1 && ws[i].entry.ReplaceEntry? ==>
                ws[i].entry.file != ExpectedHeads
  {
    var ws := t.Writes();
    var a := StageAppends(t.base.store, Group(t.op.appends));
    var rs := AllRewrites(t.base, t.op);
    var b := StageRewrites(t.base.store, rs);
    StagedAppendsBound(t.base.store, Group(t.op.appends));
    assert ws[|ws| - 1] == b[|rs| - 1];
    forall i | 0 <= i < |ws| - 1 && ws[i].entry.ReplaceEntry? ensures ws[i].entry.file != ExpectedHeads {
      if i >= |a| {
        assert ws[i] == b[i - |a|];
        assert rs[i - |a|] == t.op.rewrites[i - |a|];
      }
    }
  }

  /** The op_begin line of a commit. */
  lemma BeginRises(u: Txn)
    requires WellFormed(u.op) && OlderThan(Live(u.base.store), |u.base.journal|)
    ensures Rises(OpBegin(u.Id(), Entries(u.Writes())), |u.base.journal|)
    ensures BoundAge(OpBegin(u.Id(), Entries(u.Writes()))) == Age(Live(u.base.store))
  {
    CheckpointIsLast(u);
    var ws, es := u.Writes(), Entries(u.Writes());
    assert forall i :: 0 <= i < |ws| ==> es[i] == ws[i].entry;
    assert Contents(ws)[|ws| - 1] == ws[|ws| - 1].entry.content;
  }

  lemma BeginIsSane(u: Txn, d: Disk)
    requires WellFormed(u.op) && Sane(u.base) && !Begun(u.base.journal, u.Id())
    requires d.journal == u.BegunJournal() && Live(d.store) == Live(u.base.store)
    ensures Sane(d) && Unmet(d.journal, |u.base.journal|)
    ensures forall k: nat :: Unmet(u.base.journal, k) ==> Unmet(d.journal, k)
  {
    var journal, longer := u.base.journal, d.journal;
    BeginRises(u);
    forall op: OpId ensures Committed(longer, op) <==> Committed(journal, op) {
      if Committed(journal, op) {
        StillCommitted(journal, longer, op);
      }
      if Committed(longer, op) {
        var i :| 0 <= i < |longer| && longer[i].payload == OpCommit(op);
        assert i < |journal| && journal[i] == longer[i];
      }
    }
    forall k: nat | Unmet(longer, k) ensures Rises(longer[k].payload, k) {
      assert k < |journal| ==> longer[k] == journal[k] && Unmet(journal, k);
    }
    BegunOneMore(journal, longer);
  }

  /** After its op_begin line a commit keeps a doomed store doomed. */
  lemma AfterBeginKeeps(u: Txn, d: Disk, m: nat, n: nat, fuse: Option<Crash>)
    requires WellFormed(u.op) && Bad(d, m, n) && d.journal == u.BegunJournal()
    requires Unmet(d.journal, |u.base.journal|) && AllStaged(d, u.Id(), u.Writes())
    ensures Bad(Run(d, ApplyProg(u.Writes(), 0, CommitTail(u.Id())), fuse).disk, m, n)
  {
    var ws, id, x := u.Writes(), u.Id(), |u.base.journal|;
    DeriveSound(u.base, u.op);
    ReplayIsApply(d, id, ws, 0, CommitTail(id), fuse);
    assert Rises(d.journal[x].payload, x);
    var e, f, stopped := ReplayKeeps(d, m, n, x, id, Entries(ws), 0, CommitTail(id), fuse);
    if !stopped {
      e, f, stopped := FinishKeeps(e, m, n, x, id, Nil, f);
      assert !stopped ==> Run(e, Nil, f) == Outcome(e, Completed);
    }
  }

  /** A commit up to its op_begin line: the line is complete on disk, or nothing but staging has changed. */
  lemma CommitBegins(d: Disk, op: Intents, fuse: Option<Crash>) returns (e: Disk, f: Option<Crash>, begun: bool)
    requires !Begun(d.journal, Txn(d, op).Id())
    ensures var u, out := Txn(d, op), Commit(d, op, fuse);
            if begun then
              && e == d.(staged := e.staged, journalTorn := false, journal := u.BegunJournal())
              && AllStaged(e, u.Id(), u.Writes()) && (fuse.None? ==> f.None?)
              && out == Run(e, ApplyProg(u.Writes(), 0, CommitTail(u.Id())), f)
            else out.disk == e && SameButStaging(d, e) && fuse.Some?
    ensures forall other :: other != Txn(d, op).Id() ==> Get(e.staged, other) == Get(d.staged, other)
  {
    var u := Txn(d, op);
    var ws, id := u.Writes(), u.Id();
    var begin := OpBegin(id, Entries(ws));
    var apply := ApplyProg(ws, 0, CommitTail(id));
    var d1, f1, crashed := StageSteps(d, id, ws, 0, Cons(JournalAppend(begin), apply), fuse);
    if crashed {
      e, f, begun := d1, None, false;
    } else if f1.Some? && f1.value.after == 0 {
      e, f, begun := Interrupt(d1, JournalAppend(begin), f1.value.tear), None, false;
    } else {
      e, f, begun := AppendJournal(d1, begin), Burn(f1), true;
      StagingUntouched(d1, e, id, ws);
    }
  }

  /** A further commit, cut off anywhere or not at all, does not help a doomed store. */
  lemma CommitKeeps(d: Disk, op: Intents, m: nat, n: nat, fuse: Option<Crash>)
    requires WellFormed(op) && Bad(d, m, n)
    ensures Bad(Commit(d, op, fuse).disk, m, n)
  {
    var u := Txn(d, op);
    if !Begun(d.journal, u.Id()) {
      var e, f, begun := CommitBegins(d, op, fuse);
      if begun {
        BeginIsSane(u, e);
        BeginKeepsDoom(d, e, m, n);
        AfterBeginKeeps(u, e, m, n, f);
      } else {
        BadFrame(d, e, m, n);
      }
    }
  }

  lemma BeginKeepsDoom(d: Disk, e: Disk, m: nat, n: nat)
    requires Doomed(d, m, n) && d.journal <= e.journal && Live(e.store) == Live(d.store)
    requires forall k: nat :: Unmet(d.journal, k) ==> Unmet(e.journal, k)
    ensures Doomed(e, m, n)
  {
  }

  // ---- For good -----------------------------------------------------------------------------------------------

  ghost predicate WellFormedCalls(calls: seq<Call>) {
    forall i :: 0 <= i < |calls| && calls[i].CommitCall? ==> WellFormed(calls[i].op)
  }

  lemma DoomGrows(d: Disk, call: Call, m: nat, n: nat)
    requires Bad(d, m, n) && m < |d.journal| && n < |d.journal| && (call.CommitCall? ==> WellFormed(call.op))
    ensures Bad(After(d, call).disk, m, n) && d.journal <= After(d, call).disk.journal
  {
    match call
    case CommitCall(op, fuse) =>
      CommitKeeps(d, op, m, n, fuse);
      var ws := Derive(d, op);
      RunGrows(d, CommitProg(OpIdOf(op, ws), ws), fuse);
    case RecoverCall(fuse) =>
      RecoverKeeps(d, m, n, fuse);
      RunGrows(d, RecoverProg(d.journal), fuse);
  }

  /**
   * A doomed store stays doomed under every sequence of further commits and recoveries, cut off
   * anywhere or not at all, and no recovery of it ever completes.
   */
  lemma {:induction false} DoomedForever(d: Disk, calls: seq<Call>, m: nat, n: nat)
    requires Bad(d, m, n) && m < |d.journal| && n < |d.journal| && WellFormedCalls(calls)
    ensures var e := AfterAll(d, calls);
            Bad(e, m, n) && m < |e.journal| && n < |e.journal| && Recover(e, None).ending == Halted
    decreases |calls|
  {
    if calls == [] {
      RecoverKeeps(d, m, n, None);
    } else {
      DoomGrows(d, calls[0], m, n);
      DoomedForever(After(d, calls[0]).disk, calls[1..], m, n);
    }
  }

  /** On any disk, settled or not, a well-formed commit with a new op id runs to its end. */
  lemma CommitCompletes(u: Txn)
    requires WellFormed(u.op) && !Begun(u.base.journal, u.Id())
    ensures var out := Commit(u.base, u.op, None);
            && out.ending == Completed
            && out.disk.journal == u.FinishedJournal()
            && out.disk.store == u.Post()
            && forall other :: other != u.Id() ==> Get(out.disk.staged, other) == Get(u.base.staged, other)
  {
    DeriveSound(u.base, u.op);
    var ws, id := u.Writes(), u.Id();
    var begin := OpBegin(id, Entries(ws));
    var d1, f1, c1 := StageSteps(u.base, id, ws, 0, Cons(JournalAppend(begin), ApplyProg(ws, 0, CommitTail(id))), None);
    var d2 := AppendJournal(d1, begin);
    var d3, f3, c3, k := ApplySteps(u.base.store, ws, d2, 0, 0, CommitTail(id), None);
    var d4 := DropStaging(AppendJournal(d3, OpCommit(id)), id);
    assert Run(AppendJournal(d3, OpCommit(id)), Cons(RemoveStaging(id), Nil), None) == Outcome(d4, Completed) by {
      assert Run(d4, Nil, None) == Outcome(d4, Completed);
    }
  }
}
