/** Crash atomicity and the whole-run theorems of the journal. */
module AlfCrashes {
  import opened Wrappers
  import opened HashChain
  import opened AlfRecords
  import opened AlfJournal
  import opened AlfAtomicity
  import opened AlfRecovery
  import opened AlfPost

  /** Recoveries that are all cut short by a crash of their own. */
  ghost function CrashedRecoveries(d: Disk, crashes: seq<Crash>): Disk
    decreases |crashes|
  {
    if crashes == [] then d else CrashedRecoveries(Recover(d, Some(crashes[0])).disk, crashes[1..])
  }

  lemma PhaseChains(t: Txn, d: Disk)
    requires Governed(t) && InPhase(t, d)
    ensures ChainOk(d.journal)
  {
    ChainExtends(t.base.journal, OpBegin(t.Id(), Entries(t.Writes())));
    ChainExtends(t.BegunJournal(), OpCommit(t.Id()));
  }

  /** One recovery, interrupted or not, never moves an operation from one fate to the other. */
  lemma RecoveryKeepsFate(t: Txn, d: Disk, fuse: Option<Crash>)
    requires Governed(t) && InPhase(t, d)
    ensures var out := Recover(d, fuse);
            && InPhase(t, out.disk)
            && (BeginOnDisk(t, out.disk) <==> BeginOnDisk(t, d))
            && Ends(out, fuse, !IsMid(t, out.disk) && !out.disk.journalTorn)
  {
    PhaseChains(t, d);
    var out := Recover(d, fuse);
    if IsMid(t, d) {
      PendingRecovery(t, d, fuse);
      RunGrows(d, RecoverProg(d.journal), fuse);
    } else {
      BeginIsPending(t);
      PairedFacts(t.base.journal, t.Id());
      QuietRecovery(d, fuse);
    }
  }

  lemma {:induction false} RecoveriesKeepFate(t: Txn, d: Disk, crashes: seq<Crash>)
    requires Governed(t) && InPhase(t, d)
    ensures var e := CrashedRecoveries(d, crashes);
            InPhase(t, e) && (BeginOnDisk(t, e) <==> BeginOnDisk(t, d))
    decreases |crashes|
  {
    if crashes != [] {
      RecoveryKeepsFate(t, d, Some(crashes[0]));
      RecoveriesKeepFate(t, Recover(d, Some(crashes[0])).disk, crashes[1..]);
    }
  }

  /**
   * Crash atomicity.  A commit is cut off at any step (or not at all), any number of recoveries
   * are cut off in turn, and one recovery runs to its end.  That recovery completes, the disk is
   * settled, and the store is exactly the state before the operation or exactly the state the
   * uninterrupted commit reaches; the latter exactly when the op_begin line was complete on disk.
   */
  lemma CrashAtomicity(t: Txn, fuse: Option<Crash>, crashes: seq<Crash>)
    requires Governed(t)
    ensures var d1 := Commit(t.base, t.op, fuse).disk;
            var out := Recover(CrashedRecoveries(d1, crashes), None);
            && out.ending == Completed
            && Settled(out.disk) && !out.disk.journalTorn
            && out.disk.store == (if BeginOnDisk(t, d1) then Commit(t.base, t.op, None).disk.store else t.base.store)
  {
    CommitPhases(t, fuse);
    CommitPhases(t, None);
    var d1 := Commit(t.base, t.op, fuse).disk;
    RecoveriesKeepFate(t, d1, crashes);
    var d2 := CrashedRecoveries(d1, crashes);
    RecoveryKeepsFate(t, d2, None);
    var d3 := Recover(d2, None).disk;
    if IsAfter(t, d3) {
      AfterIsSettled(t, d3);
    }
  }

  // ---- Whole runs --------------------------------------------------------------------------

  /** One operation, cut off or not; after a crash, recoveries until one of them completes. */
  datatype Step = Step(op: Intents, fuse: Option<Crash>, crashes: seq<Crash>)

  ghost function AfterStep(d: Disk, step: Step): Disk {
    Recover(CrashedRecoveries(Commit(d, step.op, step.fuse).disk, step.crashes), None).disk
  }

  /** Every disk a disciplined run reaches is settled, and each step took full effect or none. */
  lemma StepIsAtomic(d: Disk, step: Step)
    requires Settled(d) && WellFormed(step.op)
    ensures Settled(AfterStep(d, step))
    ensures AfterStep(d, step).store == d.store || AfterStep(d, step).store == Txn(d, step.op).Post()
    ensures step.fuse.None? ==> AfterStep(d, step).store == Txn(d, step.op).Post()
  {
    var t := Txn(d, step.op);
    CrashAtomicity(t, step.fuse, step.crashes);
    CommitPhases(t, None);
    CommitPhases(t, step.fuse);
  }
}
