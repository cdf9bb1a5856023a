/**
 * An operation that is begun while another one is pending: when recovery still completes, and when
 * it never will.
 */
module AlfInterlopers {
  import opened Wrappers
  import opened HashChain
  import opened AlfRecords
  import opened AlfJournal
  import opened AlfAtomicity
  import opened AlfRecovery
  import opened AlfCrashes
  import opened AlfDiscipline

  // ---- The pending operation -------------------------------------------------------------------------------

  /** Only the last write touches the checkpoint. */
  lemma {:induction false} LiveOfApplied(t: Txn, s: Store, k: nat)
    requires WellFormed(t.op) && k <= |t.Writes()|
    ensures var own := Some(CheckpointObj(PreCheckpoint(t.base.store, t.base.journal)));
            Live(Applied(s, t.Writes(), k)) == if k == |t.Writes()| then own else Live(s)
  {
    CheckpointIsLast(t);
    if k > 0 {
      LiveOfApplied(t, s, k - 1);
    }
  }

  lemma SettledIsSane(d: Disk)
    requires Settled(d)
    ensures Sane(d) && forall k: nat :: !Unmet(d.journal, k)
  {
    forall k: nat ensures !Unmet(d.journal, k) {
      PairedFacts(d.journal, OpId("", [], []));
    }
    forall i | 0 <= i < |d.journal| && d.journal[i].payload.OpCommit?
      ensures Begun(d.journal, d.journal[i].payload.op)
    {
      PairedFacts(d.journal, d.journal[i].payload.op);
    }
    LastIsOlder(d);
  }

  lemma LastIsOlder(d: Disk)
    requires Settled(d)
    ensures OlderThan(Live(d.store), |d.journal|)
  {
    if d.journal != [] {
      PairedFacts(d.journal, d.journal[|d.journal| - 2].payload.op);
    }
  }

  lemma MidIsSane(t: Txn, d: Disk)
    requires Governed(t) && IsMid(t, d)
    ensures Sane(d) && Unmet(d.journal, |t.base.journal|)
            && Rises(d.journal[|t.base.journal|].payload, |t.base.journal|)
    ensures forall k: nat :: Unmet(d.journal, k) ==> k == |t.base.journal|
    ensures BoundAge(d.journal[|t.base.journal|].payload) == Age(Live(t.base.store)) < |t.base.journal|
    ensures Live(d.store) == Live(t.base.store) || Live(d.store) == Live(t.Post())
    ensures Live(t.Post()) == Some(CheckpointObj(PreCheckpoint(t.base.store, t.base.journal)))
    ensures Live(d.store) == Live(t.Post()) ==> d.store == t.Post()
  {
    SettledIsSane(t.base);
    FreshId(t);
    BeginRises(t);
    var k :| 0 <= k <= |t.Writes()| && d.store == Applied(t.base.store, t.Writes(), k);
    LiveOfApplied(t, t.base.store, k);
    LiveOfApplied(t, t.base.store, |t.Writes()|);
    MidJournal(t, d);
  }

  lemma MidJournal(t: Txn, d: Disk)
    requires Governed(t) && d.journal == t.BegunJournal()
    requires Rises(t.BeginLine().payload, |t.base.journal|)
    ensures OpenRises(d.journal) && CommitsBegun(d.journal) && Unmet(d.journal, |t.base.journal|)
    ensures forall k: nat :: Unmet(d.journal, k) ==> k == |t.base.journal|
  {
    BeginIsPending(t);
    SettledIsSane(t.base);
    BegunOneMore(t.base.journal, d.journal);
  }

  // ---- Calls that begin nothing else --------------------------------------------------------------------------

  /** A call after which the journal holds no foreign op_begin keeps the operation in its phase. */
  lemma QuietCall(t: Txn, d: Disk, call: Call)
    requires Governed(t) && InPhase(t, d) && BeginOnDisk(t, d)
    requires After(d, call).disk.journal <= t.FinishedJournal()
    ensures InPhase(t, After(d, call).disk) && BeginOnDisk(t, After(d, call).disk)
  {
    match call
    case RecoverCall(fuse) => RecoveryKeepsFate(t, d, fuse);
    case CommitCall(op, fuse) => QuietCommit(t, d, op, fuse);
  }

  lemma QuietCommit(t: Txn, d: Disk, op: Intents, fuse: Option<Crash>)
    requires Governed(t) && InPhase(t, d) && BeginOnDisk(t, d)
    requires Commit(d, op, fuse).disk.journal <= t.FinishedJournal()
    ensures InPhase(t, Commit(d, op, fuse).disk) && BeginOnDisk(t, Commit(d, op, fuse).disk)
  {
    var u := Txn(d, op);
    assert d.journal[|t.base.journal|] == t.BeginLine();
    if !Begun(d.journal, u.Id()) {
      assert u.Id() != t.Id();
      var e, f, begun := CommitBegins(d, op, fuse);
      if begun {
        RunGrows(e, ApplyProg(u.Writes(), 0, CommitTail(u.Id())), f);
        ForeignBeginShows(t, d.journal, e.journal, Commit(d, op, fuse).disk.journal);
      } else {
        SameButStagingKeeps(t, d, e);
      }
    }
  }

  lemma SameButStagingKeeps(t: Txn, d: Disk, e: Disk)
    requires InPhase(t, d) && BeginOnDisk(t, d) && SameButStaging(d, e)
             && Get(e.staged, t.Id()) == Get(d.staged, t.Id())
    ensures InPhase(t, e) && BeginOnDisk(t, e)
  {
    if IsMid(t, d) {
      StagingUntouched(d, e, t.Id(), t.Writes());
    }
  }

  /** A journal that goes on with an op_begin is not a part of the finished one. */
  lemma ForeignBeginShows(t: Txn, before: seq<Line<JRecord>>, begun: seq<Line<JRecord>>, after: seq<Line<JRecord>>)
    requires before == t.BegunJournal() || before == t.FinishedJournal()
    requires |begun| == |before| + 1 && before <= begun <= after && begun[|before|].payload.OpBegin?
    ensures !(after <= t.FinishedJournal())
  {
    assert after[|before|] == begun[|before|];
  }

  /**
   * As long as no foreign op_begin line reaches the disk, a pending operation survives every sequence
   * of commits and recoveries, and recovery completes.
   */
  lemma {:induction false} QuietCallsComplete(t: Txn, d: Disk, calls: seq<Call>)
    requires Governed(t) && InPhase(t, d) && BeginOnDisk(t, d)
    requires AfterAll(d, calls).journal <= t.FinishedJournal()
    ensures var e := AfterAll(d, calls);
            InPhase(t, e) && Recover(e, None).ending == Completed && Recover(e, None).disk.store == t.Post()
    decreases |calls|
  {
    if calls == [] {
      RecoveryKeepsFate(t, d, None);
      assert BeginOnDisk(t, Recover(d, None).disk);
      assert |t.BegunJournal()| > |t.base.journal|;
    } else {
      var next := After(d, calls[0]).disk;
      AppendOnly(next, calls[1..]);
      QuietCall(t, d, calls[0]);
      QuietCallsComplete(t, next, calls[1..]);
    }
  }

  // ---- A foreign op_begin -----------------------------------------------------------------------------------------

  lemma InterloperIsFresh(t: Txn, d: Disk, op: Intents)
    requires Governed(t) && IsMid(t, d) && WellFormed(op)
    ensures var u := Txn(d, op); u.Id() != t.Id() && !Begun(d.journal, u.Id())
  {
    var u := Txn(d, op);
    FreshId(t);
    CheckpointIsLast(u);
    var ws := u.Writes();
    assert Contents(ws)[|ws| - 1] == ws[|ws| - 1].entry.content by { DeriveSound(d, op); }
    assert CheckpointOf(u.Id()) == Some(PreCheckpoint(d.store, d.journal)) by { DeriveSound(d, op); }
    PairedFacts(t.base.journal, u.Id());
    forall i | 0 <= i < |d.journal| && d.journal[i].payload.OpBegin? ensures d.journal[i].payload.op != u.Id() {
      if i < |t.base.journal| {
        assert t.base.journal[i] == d.journal[i];
      }
    }
  }

  /**
   * A foreign op_begin line over a pending operation whose checkpoint is not in effect yet dooms the
   * store, however far the foreign commit gets.
   */
  lemma InterloperDooms(t: Txn, d: Disk, op: Intents, fuse: Option<Crash>)
    requires Governed(t) && IsMid(t, d) && WellFormed(op) && Live(d.store) != Live(t.Post())
    requires Txn(d, op).BegunJournal() <= Commit(d, op, fuse).disk.journal
    ensures var e := Commit(d, op, fuse).disk;
            Bad(e, |t.base.journal|, |d.journal|) && |t.base.journal| < |d.journal| < |e.journal|
  {
    var u := Txn(d, op);
    var m, n := |t.base.journal|, |d.journal|;
    InterloperIsFresh(t, d, op);
    var d2, f, begun := CommitBegins(d, op, fuse);
    if begun {
      MidIsSane(t, d);
      BeginIsSane(u, d2);
      BeginRises(u);
      assert d2.journal[m] == d.journal[m] && Rivals(d2, m, n);
      AfterBeginKeeps(u, d2, m, n, f);
    }
  }

  /** A commit that completes over a pending operation dooms it, wherever it was. */
  lemma OvertakenIsDoomed(t: Txn, d: Disk, op: Intents)
    requires Governed(t) && IsMid(t, d) && WellFormed(op)
    ensures var out := Commit(d, op, None);
            && out.ending == Completed && out.disk.store == Txn(d, op).Post()
            && Bad(out.disk, |t.base.journal|, |t.base.journal|) && |t.base.journal| < |out.disk.journal|
  {
    var u := Txn(d, op);
    InterloperIsFresh(t, d, op);
    CommitCompletes(u);
    MidIsSane(t, d);
    LiveOfApplied(u, d.store, |u.Writes()|);
    var e := Commit(d, op, None).disk;
    FinishedOver(t, d, op, e);
  }

  /** The journal after a completed commit over a pending operation: only that one is still open. */
  lemma FinishedOver(t: Txn, d: Disk, op: Intents, e: Disk)
    requires Governed(t) && IsMid(t, d) && WellFormed(op) && e.journal == Txn(d, op).FinishedJournal()
    ensures OpenRises(e.journal) && CommitsBegun(e.journal)
    ensures Unmet(e.journal, |t.base.journal|) && e.journal[|t.base.journal|] == d.journal[|t.base.journal|]
  {
    var u, x := Txn(d, op), |d.journal|;
    MidIsSane(t, d);
    InterloperIsFresh(t, d, op);
    var begun := d.(journal := u.BegunJournal());
    BeginIsSane(u, begun);
    CommittedOneMore(begun.journal, e.journal, u.Id());
    BegunOneMore(begun.journal, e.journal);
    assert begun.journal[|t.base.journal|] == d.journal[|t.base.journal|] == e.journal[|t.base.journal|];
    forall k: nat | Unmet(e.journal, k) ensures Rises(e.journal[k].payload, k) {
      assert k < |begun.journal| && e.journal[k] == begun.journal[k] && Unmet(begun.journal, k);
    }
  }

  // ---- Replaying over foreign writes -----------------------------------------------------------------

  /** Every derived replace is bound to the bytes before its operation. */
  lemma RewritesAreBound(t: Txn)
    ensures forall i {:trigger t.Writes()[i]} :: 0 <= i < |t.Writes()| && t.Writes()[i].entry.ReplaceEntry? ==>
              t.Writes()[i].payload.ObjBytes?
              && t.Writes()[i].entry.expected == FileHash(t.base.store, t.Writes()[i].entry.file)
  {
    StagedAppendsBound(t.base.store, Group(t.op.appends));
  }

  predicate Diverges(s: Store, w: Staged) {
    Judge(s, w.entry, w.payload).Divergent?
  }

  ghost predicate NoneDiverges(s: Store, ws: seq<Staged>) {
    forall i :: 0 <= i < |ws| ==> !Diverges(s, ws[i])
  }

  predicate SameRewrite(v: Staged, w: Staged) {
    v.entry.ReplaceEntry? && w.entry.ReplaceEntry? && v.entry.file == w.entry.file ==>
      v.payload == w.payload && v.entry.expected == w.entry.expected
  }

  /** Appends are in effect; replaces of one file agree on what they write and what they expect. */
  ghost predicate Replayable(s: Store, ws: seq<Staged>) {
    && (forall i {:trigger ws[i]} :: 0 <= i < |ws| && ws[i].entry.AppendEntry? ==> InEffect(s, ws[i]))
    && (forall i, j {:trigger SameRewrite(ws[i], ws[j])} :: 0 <= i < |ws| && 0 <= j < |ws| ==>
        SameRewrite(ws[i], ws[j]))
    && Hashed(ws)
  }

  /** Lines are as they were, and files as they were or rewritten by these writes. */
  ghost predicate RewrittenBy(s: Store, s': Store, ws: seq<Staged>) {
    && s'.chains == s.chains
    && forall f :: Get(s'.files, f) == Get(s.files, f)
                   || exists i {:trigger ws[i]} :: 0 <= i < |ws| && ws[i].entry.ReplaceEntry? && ws[i].entry.file == f
                                                   && ws[i].payload.ObjBytes?
                                                       && Get(s'.files, f) == Some(ws[i].payload.obj)
  }

  /** One write over a store in which it does not diverge, and what that does to the others. */
  lemma ReplayOne(d: Disk, ws: seq<Staged>, j: nat)
    requires Replayable(d.store, ws) && j < |ws| && !Diverges(d.store, ws[j])
    ensures var x := ApplyWrite(d, ws[j].entry, ws[j].payload);
            && x.Done? && x.disk.journal == d.journal && x.disk.staged == d.staged
            && Replayable(x.disk.store, ws) && RewrittenBy(d.store, x.disk.store, ws)
            && forall i :: 0 <= i < |ws| ==> (Diverges(x.disk.store, ws[i]) <==> Diverges(d.store, ws[i]))
  {
    var x := ApplyWrite(d, ws[j].entry, ws[j].payload);
    if ws[j].entry.AppendEntry? {
      assert InEffect(d.store, ws[j]);
      assert x.disk.store == d.store;
    } else {
      assert x.disk.store.chains == d.store.chains;
      forall i | 0 <= i < |ws| ensures Diverges(x.disk.store, ws[i]) <==> Diverges(d.store, ws[i]) {
        assert SameRewrite(ws[i], ws[j]);
      }
    }
  }

  lemma RewrittenTrans(a: Store, b: Store, c: Store, ws: seq<Staged>)
    requires RewrittenBy(a, b, ws) && RewrittenBy(b, c, ws)
    ensures RewrittenBy(a, c, ws)
  {
  }

  /** Replaying stops at the first write that diverges, and otherwise goes through. */
  lemma {:induction false} ReplayOver(d: Disk, id: OpId, ws: seq<Staged>, j: nat, rest: Prog) returns (e: Disk)
    requires Replayable(d.store, ws) && AllStaged(d, id, ws) && j <= |ws|
    ensures e.journal == d.journal && e.staged == d.staged
    ensures var out := Run(d, ReplayProg(id, Entries(ws), j, rest), None);
            if forall i :: j <= i < |ws| ==> !Diverges(d.store, ws[i])
              then out == Run(e, rest, None) && RewrittenBy(d.store, e.store, ws)
              else out.ending == Halted
    decreases |ws| - j
  {
    if j == |ws| {
      e := d;
    } else {
      assert StagedBytes(d, id, j) == Some(ws[j].payload);
      var x := ApplyWrite(d, ws[j].entry, ws[j].payload);
      assert ExecCmd(d, Replay(id, j, Entries(ws)[j])) == x;
      if Diverges(d.store, ws[j]) {
        e := d;
      } else {
        ReplayOne(d, ws, j);
        StagingUntouched(d, x.disk, id, ws);
        e := ReplayOver(x.disk, id, ws, j + 1, rest);
        if forall i :: j <= i < |ws| ==> !Diverges(d.store, ws[i]) {
          RewrittenTrans(d.store, x.disk.store, e.store, ws);
        }
      }
    }
  }

  // ---- Replaying from where a commit stopped ------------------------------------------------------------------------

  /** The first m writes are in the chained files; every rewritten file is as it was bound, or new. */
  ghost predicate Mixed(s0: Store, ws: seq<Staged>, s: Store, m: nat) {
    && m <= |ws|
    && (forall p :: Lines(s, p) == Lines(Applied(s0, ws, m), p))
    && forall i :: 0 <= i < |ws| ==> BoundOrNew(s, ws[i])
  }

  predicate BoundOrNew(s: Store, w: Staged) {
    w.entry.ReplaceEntry? ==>
      w.payload.ObjBytes?
      && (FileHash(s, w.entry.file) == w.entry.expected || FileHash(s, w.entry.file) == Some(Sha256(w.payload)))
  }

  lemma MixedAppend(s0: Store, ws: seq<Staged>, d: Disk, j: nat, m: nat)
    requires Sound(s0, ws) && Mixed(s0, ws, d.store, m) && j <= m && j < |ws| && ws[j].entry.AppendEntry?
    ensures var x := ApplyWrite(d, ws[j].entry, ws[j].payload);
            x.Done? && Mixed(s0, ws, x.disk.store, if j == m then m + 1 else m)
  {
    var x, a := ApplyWrite(d, ws[j].entry, ws[j].payload), Applied(s0, ws, m);
    if j < m {
      EarlierInEffect(s0, ws, j, m);
    } else {
      assert ExactAt(s0, ws, m);
      assert Judge(d.store, ws[j].entry, ws[j].payload) == Judge(a, ws[j].entry, ws[j].payload);
    }
    forall q ensures Lines(x.disk.store, q) == Lines(Applied(s0, ws, if j == m then m + 1 else m), q) {
      assert Lines(d.store, q) == Lines(a, q);
    }
    assert x.disk.store.files == d.store.files;
    forall i | 0 <= i < |ws| ensures BoundOrNew(x.disk.store, ws[i]) {
      assert BoundOrNew(d.store, ws[i]);
    }
  }

  lemma MixedReplace(s0: Store, ws: seq<Staged>, d: Disk, j: nat, m: nat)
    requires Sound(s0, ws) && Mixed(s0, ws, d.store, m) && j <= m && j < |ws| && ws[j].entry.ReplaceEntry?
    ensures var x := ApplyWrite(d, ws[j].entry, ws[j].payload);
            x.Done? && Mixed(s0, ws, x.disk.store, if j == m then m + 1 else m)
  {
    var x := ApplyWrite(d, ws[j].entry, ws[j].payload);
    assert BoundOrNew(d.store, ws[j]);
    forall i | 0 <= i < |ws| ensures BoundOrNew(x.disk.store, ws[i]) {
      assert BoundOrNew(d.store, ws[i]) && Harmless(ws[i], ws[j]);
    }
    forall q ensures Lines(x.disk.store, q) == Lines(Applied(s0, ws, if j == m then m + 1 else m), q) {
      assert Lines(d.store, q) == Lines(Applied(s0, ws, m), q);
    }
  }

  lemma {:induction false} ReplayMixed(s0: Store, d: Disk, id: OpId, ws: seq<Staged>, j: nat, m: nat, rest: Prog)
    returns (e: Disk)
    requires Sound(s0, ws) && Mixed(s0, ws, d.store, m) && j <= m && AllStaged(d, id, ws)
    ensures e.journal == d.journal && e.staged == d.staged
    ensures Run(d, ReplayProg(id, Entries(ws), j, rest), None) == Run(e, rest, None)
    decreases |ws| - j
  {
    if j == |ws| {
      e := d;
    } else {
      assert StagedBytes(d, id, j) == Some(ws[j].payload);
      if ws[j].entry.AppendEntry? {
        MixedAppend(s0, ws, d, j, m);
      } else {
        MixedReplace(s0, ws, d, j, m);
      }
      var x := ApplyWrite(d, ws[j].entry, ws[j].payload);
      assert ExecCmd(d, Replay(id, j, Entries(ws)[j])) == x;
      StagingUntouched(d, x.disk, id, ws);
      e := ReplayMixed(s0, x.disk, id, ws, j + 1, if j == m then m + 1 else m, rest);
    }
  }

  // ---- Recovery with two pending operations ----------------------------------------------------------

  /** A recovery cleans up and comes to the pending operation t, whatever follows it in the journal. */
  lemma RecoverReaches(t: Txn, d: Disk) returns (e: Disk)
    requires Governed(t) && ChainOk(d.journal) && t.BegunJournal() <= d.journal && !Committed(d.journal, t.Id())
    ensures SameButStaging(d, e)
    ensures forall id: OpId {:trigger Get(e.staged, id)} :: !Committed(d.journal, id) ==>
            Get(e.staged, id) == Get(d.staged, id)
    ensures var next := BeginsProg(d.journal, |t.base.journal| + 1);
            var finish := Cons(JournalAppend(OpCommit(t.Id())), Cons(RemoveStaging(t.Id()), next));
            Recover(d, None) == Run(e, ReplayProg(t.Id(), Entries(t.Writes()), 0, finish), None)
  {
    var n := |t.base.journal|;
    assert d.journal[n] == t.BegunJournal()[n] == t.BeginLine();
    RecoveryPreamble(d, None);
    BeginIsPending(t);
    forall k | 0 <= k < n && d.journal[k].payload.OpBegin? ensures Committed(d.journal, d.journal[k].payload.op) {
      assert d.journal[k] == t.BegunJournal()[k];
      StillCommitted(t.BegunJournal(), d.journal, d.journal[k].payload.op);
    }
    var f, crashed;
    e, f, crashed := CleanupSteps(d.journal, d.(journalTorn := false), 0, n, None);
  }

  /** What a commit over a pending operation leaves once its op_begin line is on disk. */
  lemma CommitOverShape(t: Txn, d: Disk, op: Intents, fuse: Option<Crash>) returns (k: nat)
    requires Governed(t) && IsMid(t, d) && WellFormed(op)
    requires Txn(d, op).BegunJournal() <= Commit(d, op, fuse).disk.journal
    ensures var u, e := Txn(d, op), Commit(d, op, fuse).disk;
            && k <= |u.Writes()| && e.store == Applied(d.store, u.Writes(), k)
            && Get(e.staged, t.Id()) == Get(d.staged, t.Id())
            && if e.journal == u.BegunJournal() then AllStaged(e, u.Id(), u.Writes())
               else e.journal == u.FinishedJournal() && k == |u.Writes()|
  {
    var u := Txn(d, op);
    var ws, id := u.Writes(), u.Id();
    InterloperIsFresh(t, d, op);
    var d2, f, begun := CommitBegins(d, op, fuse);
    k := 0;
    if begun {
      DeriveSound(d, op);
      var e, f1, crashed, m := ApplySteps(d.store, ws, d2, 0, 0, CommitTail(id), f);
      k := m;
      StagingUntouched(d2, e, id, ws);
      if !crashed {
        TailShape(u, e, f1);
      }
    }
  }

  lemma TailShape(u: Txn, e: Disk, fuse: Option<Crash>)
    requires e.journal == u.BegunJournal() && AllStaged(e, u.Id(), u.Writes())
    ensures var out := Run(e, CommitTail(u.Id()), fuse).disk;
            && out.store == e.store && (forall other :: other != u.Id() ==>
                                        Get(out.staged, other) == Get(e.staged, other))
            && if out.journal == u.BegunJournal() then AllStaged(out, u.Id(), u.Writes())
               else out.journal == u.FinishedJournal()
  {
    var id := u.Id();
    if fuse.Some? && fuse.value.after == 0 {
      StagingUntouched(e, Interrupt(e, JournalAppend(OpCommit(id)), fuse.value.tear), id, u.Writes());
    } else {
      var e1, f := AppendJournal(e, OpCommit(id)), Burn(fuse);
      if !(f.Some? && f.value.after == 0) {
        assert Run(DropStaging(e1, id), Nil, Burn(f)).disk == DropStaging(e1, id);
      }
    }
  }

  /** A replace leaves the bytes it was bound to, or the new ones. */
  lemma {:induction false} FileOfApplied(s: Store, ws: seq<Staged>, m: nat, i: nat)
    requires Agree(ws) && m <= |ws| && i < |ws| && ws[i].entry.ReplaceEntry? && ws[i].payload.ObjBytes?
    ensures var f := ws[i].entry.file;
            FileHash(Applied(s, ws, m), f) == FileHash(s, f)
                || FileHash(Applied(s, ws, m), f) == Some(Sha256(ws[i].payload))
  {
    if m > 0 {
      FileOfApplied(s, ws, m - 1, i);
      assert Harmless(ws[i], ws[m - 1]);
    }
  }

  /** After the replay of t, the writes of u find what they need. */
  lemma MixedAfterReplay(t: Txn, u: Txn, s: Store, s': Store, m: nat)
    requires Governed(t) && WellFormed(u.op) && u.base.store == t.Post() && m <= |u.Writes()|
    requires s == Applied(u.base.store, u.Writes(), m) && RewrittenBy(s, s', t.Writes())
    ensures Mixed(u.base.store, u.Writes(), s', m)
  {
    var ws, vs := t.Writes(), u.Writes();
    DeriveSound(t.base, t.op);
    DeriveSound(u.base, u.op);
    RewritesAreBound(u);
    forall i | 0 <= i < |vs| ensures BoundOrNew(s', vs[i]) {
      if vs[i].entry.ReplaceEntry? {
        var f := vs[i].entry.file;
        FileOfApplied(u.base.store, vs, m, i);
        if Get(s'.files, f) != Get(s.files, f) {
          var k :| 0 <= k < |ws| && ws[k].entry.ReplaceEntry? && ws[k].entry.file == f
                   && ws[k].payload.ObjBytes? && Get(s'.files, f) == Some(ws[k].payload.obj);
          EarlierInEffect(t.base.store, ws, k, |ws|);
        }
      }
    }
  }

  // ---- When recovery completes -----------------------------------------------------------------------

  /** The writes of the pending operation can still be replayed on the disk. */
  ghost predicate StillFits(t: Txn, e: Disk) {
    NoneDiverges(e.store, t.Writes())
  }

  /** With all its writes in effect, t can be replayed over whatever grew from there. */
  lemma PostIsReplayable(t: Txn, s: Store)
    requires Governed(t) && (forall p :: Lines(t.Post(), p) <= Lines(s, p))
    ensures Replayable(s, t.Writes())
  {
    var ws := t.Writes();
    DeriveSound(t.base, t.op);
    RewritesAreBound(t);
    forall i | 0 <= i < |ws| && ws[i].entry.AppendEntry? ensures InEffect(s, ws[i]) {
      EarlierInEffect(t.base.store, ws, i, |ws|);
      assert Lines(t.Post(), ws[i].entry.chain) <= Lines(s, ws[i].entry.chain);
    }
    forall i, j | 0 <= i < |ws| && 0 <= j < |ws| ensures SameRewrite(ws[i], ws[j]) {
      assert Harmless(ws[i], ws[j]);
    }
  }

  lemma OverGrows(t: Txn, d: Disk, op: Intents, fuse: Option<Crash>)
    requires Governed(t) && IsMid(t, d) && WellFormed(op)
    ensures Grows(d, Commit(d, op, fuse).disk)
  {
    var ws := Derive(d, op);
    RunGrows(d, CommitProg(OpIdOf(op, ws), ws), fuse);
  }

  /** The journal with both op_begin lines. */
  lemma BothBegun(t: Txn, d: Disk, op: Intents)
    requires Governed(t) && IsMid(t, d) && WellFormed(op)
    ensures var u := Txn(d, op);
            && ChainOk(u.BegunJournal()) && ChainOk(u.FinishedJournal())
            && !Committed(u.BegunJournal(), t.Id()) && !Committed(u.FinishedJournal(), t.Id())
            && !Committed(u.BegunJournal(), u.Id())
  {
    var u := Txn(d, op);
    MidIsSane(t, d);
    InterloperIsFresh(t, d, op);
    PhaseChains(t, d);
    ChainExtends(d.journal, OpBegin(u.Id(), Entries(u.Writes())));
    ChainExtends(u.BegunJournal(), OpCommit(u.Id()));
    var begun := d.(journal := u.BegunJournal());
    BeginIsSane(u, begun);
    assert Unmet(begun.journal, |t.base.journal|) && begun.journal[|t.base.journal|] == d.journal[|t.base.journal|];
    assert begun.journal[|d.journal|].payload == OpBegin(u.Id(), Entries(u.Writes()));
    CommittedOneMore(u.BegunJournal(), u.FinishedJournal(), u.Id());
  }

  /** If the foreign commit completed, the checkpoint of t no longer fits. */
  lemma FinishedDoesNotFit(t: Txn, d: Disk, op: Intents, e: Disk)
    requires Governed(t) && IsMid(t, d) && WellFormed(op) && e.store == Txn(d, op).Post()
    ensures !StillFits(t, e)
  {
    var u, ws := Txn(d, op), t.Writes();
    MidIsSane(t, d);
    CheckpointIsLast(t);
    RewritesAreBound(t);
    LiveOfApplied(u, d.store, |u.Writes()|);
    assert Diverges(e.store, ws[|ws| - 1]);
  }

  /** Both operations are pending: t with all writes in effect, the foreign one with the first k. */
  ghost predicate BothPending(t: Txn, u: Txn, e: Disk, k: nat) {
    && e.journal == u.BegunJournal() && k <= |u.Writes()| && e.store == Applied(u.base.store, u.Writes(), k)
    && AllStaged(e, u.Id(), u.Writes()) && AllStaged(e, t.Id(), t.Writes()) && Replayable(e.store, t.Writes())
  }

  /** Then a recovery that gets past t commits both. */
  lemma BothAreReplayed(t: Txn, d: Disk, op: Intents, e: Disk, k: nat)
    requires Governed(t) && IsMid(t, d) && WellFormed(op) && d.store == t.Post() && BothPending(t, Txn(d, op), e, k)
    ensures Recover(e, None).ending == if StillFits(t, e) then Completed else Halted
  {
    var u, ws := Txn(d, op), t.Writes();
    BothBegun(t, d, op);
    InterloperIsFresh(t, d, op);
    var g := RecoverReaches(t, e);
    StagingUntouched(e, g, t.Id(), ws);
    StagingUntouched(e, g, u.Id(), u.Writes());
    var next := BeginsProg(e.journal, |t.base.journal| + 1);
    var finish := Cons(JournalAppend(OpCommit(t.Id())), Cons(RemoveStaging(t.Id()), next));
    var g1 := ReplayOver(g, t.Id(), ws, 0, finish);
    if StillFits(t, e) {
      MixedAfterReplay(t, u, e.store, g1.store, k);
      StagingUntouched(g, g1, u.Id(), u.Writes());
      FirstIsReplayed(t, d, op, g1, k);
    }
  }

  lemma FirstIsReplayed(t: Txn, d: Disk, op: Intents, g: Disk, k: nat)
    requires Governed(t) && IsMid(t, d) && WellFormed(op) && Txn(d, op).Id() != t.Id()
    requires var u := Txn(d, op); Mixed(d.store, u.Writes(), g.store, k) && AllStaged(g, u.Id(), u.Writes())
    ensures var next := BeginsProg(Txn(d, op).BegunJournal(), |t.base.journal| + 1);
            Run(g, Cons(JournalAppend(OpCommit(t.Id())), Cons(RemoveStaging(t.Id()), next)), None).ending == Completed
  {
    var u := Txn(d, op);
    var e := DropStaging(AppendJournal(g, OpCommit(t.Id())), t.Id());
    FinishRuns(g, t.Id(), BeginsProg(u.BegunJournal(), |t.base.journal| + 1));
    StagingUntouched(g, e, u.Id(), u.Writes());
    LastIsReplayed(t, d, op, e, k);
  }

  lemma FinishRuns(g: Disk, id: OpId, next: Prog)
    ensures Run(g, Cons(JournalAppend(OpCommit(id)), Cons(RemoveStaging(id), next)), None)
            == Run(DropStaging(AppendJournal(g, OpCommit(id)), id), next, None)
  {
    assert Burn(None) == None;
  }

  lemma LastIsReplayed(t: Txn, d: Disk, op: Intents, g: Disk, k: nat)
    requires Governed(t) && IsMid(t, d) && WellFormed(op)
    requires var u := Txn(d, op); Mixed(d.store, u.Writes(), g.store, k) && AllStaged(g, u.Id(), u.Writes())
    ensures Run(g, BeginsProg(Txn(d, op).BegunJournal(), |t.base.journal| + 1), None).ending == Completed
  {
    var u := Txn(d, op);
    var journal := u.BegunJournal();
    var after := BeginsProg(journal, |journal|);
    var finish := Cons(JournalAppend(OpCommit(u.Id())), Cons(RemoveStaging(u.Id()), after));
    LastRecord(t, d, op);
    DeriveSound(d, op);
    var g1 := ReplayMixed(d.store, g, u.Id(), u.Writes(), 0, k, finish);
    FinishRuns(g1, u.Id(), after);
    OrphansEnd(DropStaging(AppendJournal(g1, OpCommit(u.Id())), u.Id()), journal);
  }

  lemma LastRecord(t: Txn, d: Disk, op: Intents)
    requires Governed(t) && IsMid(t, d) && WellFormed(op)
    ensures var u := Txn(d, op);
            var journal := u.BegunJournal();
            BeginsProg(journal, |t.base.journal| + 1)
            == ReplayProg(u.Id(), Entries(u.Writes()), 0,
                          Cons(JournalAppend(OpCommit(u.Id())),
                               Cons(RemoveStaging(u.Id()), BeginsProg(journal, |journal|))))
  {
    BothBegun(t, d, op);
  }

  lemma OrphansEnd(g: Disk, journal: seq<Line<JRecord>>)
    ensures Run(g, BeginsProg(journal, |journal|), None).ending == Completed
  {
    var g1 := ExecCmd(g, RemoveOrphans(KnownOps(journal))).disk;
    assert Run(g1, Nil, None) == Outcome(g1, Completed);
  }

  /** A foreign op_begin over a pending operation whose writes are all in effect. */
  lemma RecoveryOverPost(t: Txn, d: Disk, op: Intents, fuse: Option<Crash>)
    requires Governed(t) && IsMid(t, d) && WellFormed(op) && d.store == t.Post()
    requires Txn(d, op).BegunJournal() <= Commit(d, op, fuse).disk.journal
    ensures var e := Commit(d, op, fuse).disk;
            Recover(e, None).ending == if StillFits(t, e) then Completed else Halted
  {
    var u, e, ws := Txn(d, op), Commit(d, op, fuse).disk, t.Writes();
    var k := CommitOverShape(t, d, op, fuse);
    StagingUntouched(d, e, t.Id(), ws);
    OverGrows(t, d, op, fuse);
    PostIsReplayable(t, e.store);
    if e.journal == u.BegunJournal() {
      BothAreReplayed(t, d, op, e, k);
    } else {
      BothBegun(t, d, op);
      FinishedDoesNotFit(t, d, op, e);
      var g := RecoverReaches(t, e);
      StagingUntouched(e, g, t.Id(), ws);
      var next := BeginsProg(e.journal, |t.base.journal| + 1);
      var g1 := ReplayOver(g, t.Id(), ws, 0, Cons(JournalAppend(OpCommit(t.Id())), Cons(RemoveStaging(t.Id()), next)));
    }
  }

  /**
   * A foreign commit, cut off anywhere or not at all, over a pending operation: the next recovery
   * completes exactly when the foreign op_begin line did not reach the disk, or all writes of the
   * pending operation were in effect by then and none of them has been overwritten since.
   */
  lemma RecoveryCompletesIff(t: Txn, d: Disk, op: Intents, fuse: Option<Crash>)
    requires Governed(t) && IsMid(t, d) && WellFormed(op)
    ensures var e := Commit(d, op, fuse).disk;
            Recover(e, None).ending == Completed <==>
              !(Txn(d, op).BegunJournal() <= e.journal) || (Live(d.store) == Live(t.Post()) && StillFits(t, e))
  {
    var e := Commit(d, op, fuse).disk;
    MidIsSane(t, d);
    if !(Txn(d, op).BegunJournal() <= e.journal) {
      NotBegunCompletes(t, d, op, fuse);
    } else if Live(d.store) != Live(t.Post()) {
      InterloperDooms(t, d, op, fuse);
      RecoverKeeps(e, |t.base.journal|, |d.journal|, None);
    } else {
      RecoveryOverPost(t, d, op, fuse);
    }
  }

  lemma NotBegunCompletes(t: Txn, d: Disk, op: Intents, fuse: Option<Crash>)
    requires Governed(t) && IsMid(t, d) && WellFormed(op)
    requires !(Txn(d, op).BegunJournal() <= Commit(d, op, fuse).disk.journal)
    ensures Recover(Commit(d, op, fuse).disk, None).ending == Completed
  {
    var u, e := Txn(d, op), Commit(d, op, fuse).disk;
    InterloperIsFresh(t, d, op);
    var d2, f, begun := CommitBegins(d, op, fuse);
    if begun {
      RunGrows(d2, ApplyProg(u.Writes(), 0, CommitTail(u.Id())), f);
    } else {
      StagingUntouched(d, e, t.Id(), t.Writes());
      PhaseChains(t, d);
      PendingRecovery(t, e, None);
    }
  }
}
