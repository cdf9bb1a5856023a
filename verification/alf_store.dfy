/**
 * The store of tools/clearwright_alf.py as it changes in place: `commit` and `recover` in the form
 * of the original, one durable step after another, proved to do what the step programs say.
 */
module AlfStore {
  import opened Wrappers
  import opened HashChain
  import opened AlfRecords
  import opened AlfJournal

  /** One durable step and how it ended. */
  ghost predicate Stepped(d: Disk, c: Cmd, fuse: Option<Crash>, e: Disk, left: Option<Crash>, ending: Ending) {
    if fuse.Some? && fuse.value.after == 0 then
      ending == Crashed && e == Interrupt(d, c, fuse.value.tear)
    else
      match ExecCmd(d, c)
      case Halt(h) => ending == Halted && e == h
      case Done(h) => ending == Completed && e == h && left == Burn(fuse)
  }

  /** A program goes on from where its completed part left the disk, or ended there. */
  ghost predicate Reached(whole: Outcome, d: Disk, rest: Prog, fuse: Option<Crash>, ending: Ending) {
    whole == if ending == Completed then Run(d, rest, fuse) else Outcome(d, ending)
  }

  lemma StepReaches(d: Disk, c: Cmd, rest: Prog, fuse: Option<Crash>, e: Disk, left: Option<Crash>, ending: Ending)
    requires Stepped(d, c, fuse, e, left, ending)
    ensures Reached(Run(d, Cons(c, rest), fuse), e, rest, left, ending)
  {
  }

  class Store {
    var chains: map<Path, seq<Line<Row>>>
    var files: map<FilePath, Obj>
    var torn: set<Path>
    var journal: seq<Line<JRecord>>
    var journalTorn: bool
    var staged: map<OpId, map<nat, Payload>>
    var fuse: Option<Crash>  // the step at which the process will be killed, if any

    function View(): Disk
      reads this
    {
      Disk(AlfJournal.Store(chains, files), torn, journal, journalTorn, staged)
    }

    constructor (d: Disk, fuse: Option<Crash>)
      ensures View() == d && this.fuse == fuse
    {
      chains, files, torn := d.store.chains, d.store.files, d.torn;
      journal, journalTorn, staged := d.journal, d.journalTorn, d.staged;
      this.fuse := fuse;
    }

    /** True when the process survives the coming step; otherwise the step is left half done. */
    method Survive(c: Cmd) returns (alive: bool)
      modifies this
      ensures alive <==> !(old(fuse).Some? && old(fuse).value.after == 0)
      ensures alive ==> View() == old(View()) && fuse == Burn(old(fuse))
      ensures !alive ==> View() == Interrupt(old(View()), c, old(fuse).value.tear)
    {
      if fuse.Some? && fuse.value.after == 0 {
        var d := Interrupt(View(), c, fuse.value.tear);
        torn, journalTorn, staged := d.torn, d.journalTorn, d.staged;
        InterruptGrows(View(), c, fuse.value.tear);
        alive := false;
      } else {
        fuse := Burn(fuse);
        alive := true;
      }
    }

    method StageFile(op: OpId, n: nat, payload: Payload) returns (ending: Ending)
      modifies this
      ensures Stepped(old(View()), Stage(op, n, payload), old(fuse), View(), fuse, ending)
    {
      var alive := Survive(Stage(op, n, payload));
      if !alive { return Crashed; }
      var dir := GetOr(staged, op, map[]);
      staged := staged[op := dir[n := payload]];
      return Completed;
    }

    /** `_journal_append`: heal the journal's tail, chain the record to its head, append it. */
    method AppendToJournal(record: JRecord) returns (ending: Ending)
      modifies this
      ensures Stepped(old(View()), JournalAppend(record), old(fuse), View(), fuse, ending)
    {
      var alive := Survive(JournalAppend(record));
      if !alive { return Crashed; }
      journalTorn := false;
      journal := journal + [Chained(record, ChainHead(journal))];
      return Completed;
    }

    method HealJournalTail() returns (ending: Ending)
      modifies this
      ensures Stepped(old(View()), HealJournal, old(fuse), View(), fuse, ending)
    {
      var alive := Survive(HealJournal);
      if !alive { return Crashed; }
      journalTorn := false;
      return Completed;
    }

    method AuthenticateJournal() returns (ending: Ending)
      modifies this
      ensures Stepped(old(View()), Authenticate, old(fuse), View(), fuse, ending)
    {
      var alive := Survive(Authenticate);
      if !alive { return Crashed; }
      var problems := VerifyChain(journal, false);
      return if problems == [] then Completed else Halted;
    }

    /** `_apply_staged_write`, once the step is known not to be struck by the crash. */
    method ApplyStagedWrite(entry: Entry, payload: Payload) returns (ok: bool)
      modifies this
      ensures fuse == old(fuse)
      ensures ApplyWrite(old(View()), entry, payload) == if ok then Done(View()) else Halt(View())
    {
      match entry {
        case AppendEntry(p, _, expectedPrev, pos) =>
          torn := torn - {p};
          if !payload.LineBytes? || pos == 0 { return false; }
          var lines := GetOr(chains, p, []);
          if |lines| >= pos && lines[pos - 1].sha == payload.line.sha { return true; }
          if |lines| == pos - 1 && ChainHead(lines) == expectedPrev {
            chains := chains[p := lines + [payload.line]];
            return true;
          }
          return false;
        case ReplaceEntry(f, _, expected) =>
          if !payload.ObjBytes? { return false; }
          var live: Option<ContentHash> := if f in files then Some(Sha256(ObjBytes(files[f]))) else None;
          if live == Some(Sha256(payload)) { return true; }
          if live == expected {
            files := files[f := payload.obj];
            return true;
          }
          return false;
      }
    }

    method ApplyStep(entry: Entry, payload: Payload) returns (ending: Ending)
      modifies this
      ensures Stepped(old(View()), Apply(entry, payload), old(fuse), View(), fuse, ending)
    {
      var alive := Survive(Apply(entry, payload));
      if !alive { return Crashed; }
      var ok := ApplyStagedWrite(entry, payload);
      return if ok then Completed else Halted;
    }

    /** Recovery reads the staged file back, checks its hash, and applies it. */
    method ReplayStep(op: OpId, n: nat, entry: Entry) returns (ending: Ending)
      modifies this
      ensures Stepped(old(View()), Replay(op, n, entry), old(fuse), View(), fuse, ending)
    {
      var alive := Survive(Replay(op, n, entry));
      if !alive { return Crashed; }
      if op !in staged || n !in staged[op] { return Halted; }
      var bytes := staged[op][n];
      if Sha256(bytes) != entry.content { return Halted; }
      var ok := ApplyStagedWrite(entry, bytes);
      return if ok then Completed else Halted;
    }

    method RemoveTree(op: OpId) returns (ending: Ending)
      modifies this
      ensures Stepped(old(View()), RemoveStaging(op), old(fuse), View(), fuse, ending)
    {
      var alive := Survive(RemoveStaging(op));
      if !alive { return Crashed; }
      staged := staged - {op};
      return Completed;
    }

    method SweepOrphans(known: set<OpId>) returns (ending: Ending)
      modifies this
      ensures Stepped(old(View()), RemoveOrphans(known), old(fuse), View(), fuse, ending)
    {
      var alive := Survive(RemoveOrphans(known));
      if !alive { return Crashed; }
      staged := map op | op in staged && op in known :: staged[op];
      return Completed;
    }

    method StageAll(id: OpId, ws: seq<Staged>, ghost rest: Prog) returns (ending: Ending)
      modifies this
      ensures Reached(Run(old(View()), StageProg(id, ws, 0, rest), old(fuse)), View(), rest, fuse, ending)
    {
      ending := Completed;
      var n := 0;
      while n < |ws|
        invariant n <= |ws|
        invariant Run(old(View()), StageProg(id, ws, 0, rest), old(fuse))
                  == Run(View(), StageProg(id, ws, n, rest), fuse)
        invariant ending == Completed
      {
        ghost var d, f := View(), fuse;
        ending := StageFile(id, n, ws[n].payload);
        StepReaches(d, Stage(id, n, ws[n].payload), StageProg(id, ws, n + 1, rest), f, View(), fuse, ending);
        if ending != Completed { return; }
        n := n + 1;
      }
    }

    method ApplyAll(ws: seq<Staged>, ghost rest: Prog) returns (ending: Ending)
      modifies this
      ensures Reached(Run(old(View()), ApplyProg(ws, 0, rest), old(fuse)), View(), rest, fuse, ending)
    {
      ending := Completed;
      var n := 0;
      while n < |ws|
        invariant n <= |ws|
        invariant Run(old(View()), ApplyProg(ws, 0, rest), old(fuse)) == Run(View(), ApplyProg(ws, n, rest), fuse)
        invariant ending == Completed
      {
        ghost var d, f := View(), fuse;
        ending := ApplyStep(ws[n].entry, ws[n].payload);
        StepReaches(d, Apply(ws[n].entry, ws[n].payload), ApplyProg(ws, n + 1, rest), f, View(), fuse, ending);
        if ending != Completed { return; }
        n := n + 1;
      }
    }

    method ReplayAll(op: OpId, es: seq<Entry>, ghost rest: Prog) returns (ending: Ending)
      modifies this
      ensures Reached(Run(old(View()), ReplayProg(op, es, 0, rest), old(fuse)), View(), rest, fuse, ending)
    {
      ending := Completed;
      var n := 0;
      while n < |es|
        invariant n <= |es|
        invariant Run(old(View()), ReplayProg(op, es, 0, rest), old(fuse))
                  == Run(View(), ReplayProg(op, es, n, rest), fuse)
        invariant ending == Completed
      {
        ghost var d, f := View(), fuse;
        ending := ReplayStep(op, n, es[n]);
        StepReaches(d, Replay(op, n, es[n]), ReplayProg(op, es, n + 1, rest), f, View(), fuse, ending);
        if ending != Completed { return; }
        n := n + 1;
      }
    }

    /** op_commit, then the staging directory goes. */
    method Finish(op: OpId, ghost rest: Prog) returns (ending: Ending)
      modifies this
      ensures Reached(Run(old(View()), Cons(JournalAppend(OpCommit(op)), Cons(RemoveStaging(op), rest)), old(fuse)),
                      View(), rest, fuse, ending)
    {
      ghost var d, f := View(), fuse;
      ending := AppendToJournal(OpCommit(op));
      StepReaches(d, JournalAppend(OpCommit(op)), Cons(RemoveStaging(op), rest), f, View(), fuse, ending);
      if ending != Completed { return; }
      ghost var d1, f1 := View(), fuse;
      ending := RemoveTree(op);
      StepReaches(d1, RemoveStaging(op), rest, f1, View(), fuse, ending);
    }

    /** `Operation.commit`: stage, op_begin, apply, op_commit, clean up. */
    method Commit(op: Intents) returns (ending: Ending)
      modifies this
      ensures Outcome(View(), ending) == AlfJournal.Commit(old(View()), op, old(fuse))
    {
      var ws := Derive(View(), op);
      var id := OpIdOf(op, ws);
      if Begun(journal, id) { return Refused; }
      var begin := OpBegin(id, Entries(ws));
      ghost var applying := ApplyProg(ws, 0, CommitTail(id));
      ending := StageAll(id, ws, Cons(JournalAppend(begin), applying));
      if ending != Completed { return; }
      ghost var d, f := View(), fuse;
      ending := AppendToJournal(begin);
      StepReaches(d, JournalAppend(begin), applying, f, View(), fuse, ending);
      if ending != Completed { return; }
      ending := ApplyAll(ws, CommitTail(id));
      if ending != Completed { return; }
      ending := Finish(id, Nil);
    }

    /** One op_begin record of the recovery loop. */
    method RecoverBegin(records: seq<Line<JRecord>>, i: nat) returns (ending: Ending)
      requires i < |records|
      modifies this
      ensures Reached(Run(old(View()), BeginsProg(records, i), old(fuse)), View(), BeginsProg(records, i + 1), fuse,
                      ending)
    {
      ghost var rest := BeginsProg(records, i + 1);
      match records[i].payload {
        case OpCommit(_) =>
          ending := Completed;
        case OpBegin(op, writes) =>
          if Committed(records, op) {
            ghost var d, f := View(), fuse;
            ending := RemoveTree(op);
            StepReaches(d, RemoveStaging(op), rest, f, View(), fuse, ending);
          } else {
            ending := ReplayAll(op, writes, Cons(JournalAppend(OpCommit(op)), Cons(RemoveStaging(op), rest)));
            if ending != Completed { return; }
            ending := Finish(op, rest);
          }
      }
    }

    /** `recover`: complete or clean up whatever the journal shows, from staged bytes only. */
    method Recover() returns (ending: Ending)
      modifies this
      ensures Outcome(View(), ending) == AlfJournal.Recover(old(View()), old(fuse))
    {
      if journal == [] && !journalTorn { return Completed; }
      var records := journal;
      ghost var d, f := View(), fuse;
      ending := HealJournalTail();
      StepReaches(d, HealJournal, Cons(Authenticate, BeginsProg(records, 0)), f, View(), fuse, ending);
      if ending != Completed { return; }
      ghost var d1, f1 := View(), fuse;
      ending := AuthenticateJournal();
      StepReaches(d1, Authenticate, BeginsProg(records, 0), f1, View(), fuse, ending);
      if ending != Completed { return; }
      ghost var whole := AlfJournal.Recover(old(View()), old(fuse));
      var i := 0;
      while i < |records|
        invariant i <= |records|
        invariant whole == Run(View(), BeginsProg(records, i), fuse)
        invariant ending == Completed
      {
        ending := RecoverBegin(records, i);
        if ending != Completed { return; }
        i := i + 1;
      }
      ghost var d2, f2 := View(), fuse;
      ending := SweepOrphans(KnownOps(records));
      StepReaches(d2, RemoveOrphans(KnownOps(records)), Nil, f2, View(), fuse, ending);
    }
  }
}
