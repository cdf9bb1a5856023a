/**
 * The operation journal of tools/clearwright_alf.py as a machine of durable steps.
 *
 * `commit` and `recover` are straight-line programs of durable steps.  `Run` executes a program
 * until it completes, halts fail-closed, or a crash strikes at a chosen step; a crash may leave
 * that one step half done (a torn append, a healed but not yet extended file, a partly written
 * staged file, a partly deleted staging directory).
 */
module AlfJournal {
  import opened Wrappers
  import opened HashChain
  import opened AlfRecords

  // ---- State -----------------------------------------------------------------------------

  /** The complete lines of every chained file and the bytes of every whole-file object. */
  datatype Store = Store(chains: map<Path, seq<Line<Row>>>, files: map<FilePath, Obj>)

  /**
   * `torn` is the set of chained files that end in an unterminated fragment, `journalTorn` says
   * so of the journal; a fragment is never part of the complete lines.
   */
  datatype Disk = Disk(store: Store, torn: set<Path>,
                       journal: seq<Line<JRecord>>, journalTorn: bool,
                       staged: map<OpId, map<nat, Payload>>)

  function Lines(s: Store, p: Path): seq<Line<Row>> {
    GetOr(s.chains, p, [])
  }

  function Sha256(bytes: Payload): ContentHash {
    ContentSha(bytes)
  }

  function FileHash(s: Store, f: FilePath): Option<ContentHash> {
    if f in s.files then Some(Sha256(ObjBytes(s.files[f]))) else None
  }

  // ---- Deriving the staged writes (Operation._derive) --------------------------------------

  datatype Append = Append(chain: Path, row: Row)
  datatype Replace = Replace(file: FilePath, obj: Obj)

  /** What a caller registered on an Operation before commit. */
  datatype Intents = Intents(kind: string, subjects: seq<string>, appends: seq<Append>, rewrites: seq<Replace>)

  /** The rows an operation appends to one chained file, in order. */
  function RowsFor(appends: seq<Append>, p: Path): seq<Row> {
    if appends == [] then []
    else (if appends[0].chain == p then [appends[0].row] else []) + RowsFor(appends[1..], p)
  }

  datatype Staged = Staged(entry: Entry, payload: Payload)

  function Only(appends: seq<Append>, p: Path, same: bool): seq<Append> {
    if appends == [] then []
    else (if (appends[0].chain == p) == same then [appends[0]] else []) + Only(appends[1..], p, same)
  }

  lemma OnlyShrinks(appends: seq<Append>, p: Path, same: bool)
    ensures |Only(appends, p, same)| <= |appends|
  {
  }

  /** Appends grouped per target, targets in order of first appearance. */
  function Group(appends: seq<Append>): seq<Append>
    decreases |appends|
  {
    if appends == [] then []
    else
      OnlyShrinks(appends[1..], appends[0].chain, false);
      [appends[0]] + Only(appends[1..], appends[0].chain, true)
      + Group(Only(appends[1..], appends[0].chain, false))
  }

  function AppendRow(s: Store, p: Path, line: Line<Row>): Store {
    s.(chains := s.chains[p := Lines(s, p) + [line]])
  }

  /** Each append is bound to the head and length its target will have when its turn comes. */
  function StageAppends(s: Store, appends: seq<Append>): seq<Staged>
    decreases |appends|
  {
    if appends == [] then []
    else
      var a := appends[0];
      var line := Chained(a.row, ChainHead(Lines(s, a.chain)));
      var bytes := LineBytes(line);
      [Staged(AppendEntry(a.chain, Sha256(bytes), line.prev, |Lines(s, a.chain)| + 1), bytes)]
      + StageAppends(AppendRow(s, a.chain, line), appends[1..])
  }

  /** Each replace is bound to the bytes its target has before the transaction. */
  function StageRewrites(s: Store, rewrites: seq<Replace>): seq<Staged> {
    seq(|rewrites|, i requires 0 <= i < |rewrites| =>
      var r := rewrites[i];
      Staged(ReplaceEntry(r.file, Sha256(ObjBytes(r.obj)), FileHash(s, r.file)), ObjBytes(r.obj)))
  }

  function PreCheckpoint(s: Store, journal: seq<Line<JRecord>>): Checkpoint {
    Checkpoint(HeadOf(journal), HeadOf(Lines(s, Index)), HeadOf(Lines(s, Occurrences)), HeadOf(Lines(s, Ledger)))
  }

  /** The caller's rewrites followed by the mandatory checkpoint of the pre-transaction heads. */
  function AllRewrites(d: Disk, op: Intents): seq<Replace> {
    op.rewrites + [Replace(ExpectedHeads, CheckpointObj(PreCheckpoint(d.store, d.journal)))]
  }

  function Derive(d: Disk, op: Intents): seq<Staged> {
    StageAppends(d.store, Group(op.appends)) + StageRewrites(d.store, AllRewrites(d, op))
  }

  function Entries(ws: seq<Staged>): seq<Entry> {
    seq(|ws|, i requires 0 <= i < |ws| => ws[i].entry)
  }

  function Contents(ws: seq<Staged>): seq<ContentHash> {
    seq(|ws|, i requires 0 <= i < |ws| => ws[i].entry.content)
  }

  function OpIdOf(op: Intents, ws: seq<Staged>): OpId {
    OpId(op.kind, op.subjects, Contents(ws))
  }

  predicate Begun(journal: seq<Line<JRecord>>, op: OpId) {
    exists i :: 0 <= i < |journal| && journal[i].payload.OpBegin? && journal[i].payload.op == op
  }

  predicate Committed(journal: seq<Line<JRecord>>, op: OpId) {
    exists i :: 0 <= i < |journal| && journal[i].payload == OpCommit(op)
  }

  // ---- Durable steps ---------------------------------------------------------------------

  datatype Cmd =
    | Stage(op: OpId, n: nat, payload: Payload)
    | HealJournal
    | Authenticate
    | JournalAppend(record: JRecord)
    | Apply(entry: Entry, payload: Payload)
    | Replay(op: OpId, n: nat, entry: Entry)
    | RemoveStaging(op: OpId)
    | RemoveOrphans(known: set<OpId>)

  datatype Exec = Done(disk: Disk) | Halt(disk: Disk)

  datatype Applicability = Already | Ready | Divergent

  /** The decision of `_apply_staged_write`, taken on complete lines and live bytes. */
  function Judge(s: Store, entry: Entry, payload: Payload): Applicability {
    match entry
    case AppendEntry(p, _, expectedPrev, pos) =>
      var lines := Lines(s, p);
      if !payload.LineBytes? || pos == 0 then Divergent
      else if |lines| >= pos && lines[pos - 1].sha == payload.line.sha then Already
      else if |lines| == pos - 1 && ChainHead(lines) == expectedPrev then Ready
      else Divergent
    case ReplaceEntry(f, _, expected) =>
      if !payload.ObjBytes? then Divergent
      else if FileHash(s, f) == Some(Sha256(payload)) then Already
      else if FileHash(s, f) == expected then Ready
      else Divergent
  }

  /** The store after one write has taken effect. */
  function Effect(s: Store, entry: Entry, payload: Payload): Store {
    match entry
    case AppendEntry(p, _, _, _) => if payload.LineBytes? then AppendRow(s, p, payload.line) else s
    case ReplaceEntry(f, _, _) => if payload.ObjBytes? then s.(files := s.files[f := payload.obj]) else s
  }

  function Healed(d: Disk, entry: Entry): Disk {
    if entry.AppendEntry? then d.(torn := d.torn - {entry.chain}) else d
  }

  /** `_apply_staged_write`: heal an append target, then apply, skip or fail closed. */
  function ApplyWrite(d: Disk, entry: Entry, payload: Payload): Exec {
    var h := Healed(d, entry);
    match Judge(d.store, entry, payload)
    case Already => Done(h)
    case Ready => Done(h.(store := Effect(d.store, entry, payload)))
    case Divergent => Halt(h)
  }

  function StagedBytes(d: Disk, op: OpId, n: nat): Option<Payload> {
    if op in d.staged then Get(d.staged[op], n) else None
  }

  function PutStaged(d: Disk, op: OpId, n: nat, payload: Payload): Disk {
    d.(staged := d.staged[op := GetOr(d.staged, op, map[])[n := payload]])
  }

  function DropStaging(d: Disk, op: OpId): Disk {
    d.(staged := d.staged - {op})
  }

  function AppendJournal(d: Disk, record: JRecord): Disk {
    d.(journal := d.journal + [Chained(record, ChainHead(d.journal))], journalTorn := false)
  }

  ghost function ExecCmd(d: Disk, c: Cmd): Exec {
    match c
    case Stage(op, n, payload) => Done(PutStaged(d, op, n, payload))
    case HealJournal => Done(d.(journalTorn := false))
    case Authenticate => if ChainOk(d.journal) then Done(d) else Halt(d)
    case JournalAppend(record) => Done(AppendJournal(d, record))
    case Apply(entry, payload) => ApplyWrite(d, entry, payload)
    case Replay(op, n, entry) =>
      var bytes := StagedBytes(d, op, n);
      if bytes.None? || Sha256(bytes.value) != entry.content then Halt(d)
      else ApplyWrite(d, entry, bytes.value)
    case RemoveStaging(op) => Done(DropStaging(d, op))
    case RemoveOrphans(known) => Done(d.(staged := map op | op in d.staged && op in known :: d.staged[op]))
  }

  /** How far the step that is interrupted by a crash had got. */
  datatype Tear = Unstarted | HealedOnly | Torn | Remaining(left: set<nat>)

  function InterruptWrite(d: Disk, entry: Entry, payload: Payload, tear: Tear): Disk {
    var h := Healed(d, entry);
    if tear.Unstarted? then d
    else if entry.AppendEntry? && tear.Torn? && Judge(d.store, entry, payload).Ready?
      then h.(torn := h.torn + {entry.chain})
    else h
  }

  function Interrupt(d: Disk, c: Cmd, tear: Tear): Disk {
    match c
    case Stage(op, n, _) => if tear.Torn? then PutStaged(d, op, n, TornBytes) else d
    case JournalAppend(_) =>
      if tear.Torn? then d.(journalTorn := true)
      else if tear.HealedOnly? then d.(journalTorn := false)
      else d
    case Apply(entry, payload) => InterruptWrite(d, entry, payload, tear)
    case Replay(op, n, entry) =>
      var bytes := StagedBytes(d, op, n);
      if bytes.None? || Sha256(bytes.value) != entry.content then d
      else InterruptWrite(d, entry, bytes.value, tear)
    case RemoveStaging(op) =>
      if tear.Remaining? && op in d.staged
      then d.(staged := d.staged[op := map n | n in d.staged[op] && n in tear.left :: d.staged[op][n]])
      else d
    case RemoveOrphans(known) =>
      if tear.Remaining?
      then d.(staged := map op | op in d.staged ::
                          if op in known then d.staged[op]
                          else map n | n in d.staged[op] && n in tear.left :: d.staged[op][n])
      else d
    case _ => d
  }

  // ---- Programs --------------------------------------------------------------------------

  datatype Prog = Nil | Cons(head: Cmd, tail: Prog)

  /** Crash while executing the step that `after` completed steps precede. */
  datatype Crash = Crash(after: nat, tear: Tear)

  datatype Ending = Completed | Crashed | Halted | Refused

  datatype Outcome = Outcome(disk: Disk, ending: Ending)

  ghost function Run(d: Disk, prog: Prog, fuse: Option<Crash>): Outcome
    decreases prog
  {
    match prog
    case Nil => Outcome(d, Completed)
    case Cons(c, rest) =>
      if fuse.Some? && fuse.value.after == 0 then Outcome(Interrupt(d, c, fuse.value.tear), Crashed)
      else
        match ExecCmd(d, c)
        case Halt(h) => Outcome(h, Halted)
        case Done(h) => Run(h, rest, Burn(fuse))
  }

  function Burn(fuse: Option<Crash>): Option<Crash>
    requires fuse.Some? ==> fuse.value.after > 0
  {
    match fuse case None => None case Some(c) => Some(Crash(c.after - 1, c.tear))
  }

  function StageProg(op: OpId, ws: seq<Staged>, n: nat, rest: Prog): Prog
    requires n <= |ws|
    decreases |ws| - n
  {
    if n == |ws| then rest else Cons(Stage(op, n, ws[n].payload), StageProg(op, ws, n + 1, rest))
  }

  function ApplyProg(ws: seq<Staged>, n: nat, rest: Prog): Prog
    requires n <= |ws|
    decreases |ws| - n
  {
    if n == |ws| then rest else Cons(Apply(ws[n].entry, ws[n].payload), ApplyProg(ws, n + 1, rest))
  }

  function ReplayProg(op: OpId, es: seq<Entry>, n: nat, rest: Prog): Prog
    requires n <= |es|
    decreases |es| - n
  {
    if n == |es| then rest else Cons(Replay(op, n, es[n]), ReplayProg(op, es, n + 1, rest))
  }

  function CommitTail(op: OpId): Prog {
    Cons(JournalAppend(OpCommit(op)), Cons(RemoveStaging(op), Nil))
  }

  /** `Operation.commit` after the staged writes and the op id are fixed. */
  function CommitProg(op: OpId, ws: seq<Staged>): Prog {
    StageProg(op, ws, 0, Cons(JournalAppend(OpBegin(op, Entries(ws))), ApplyProg(ws, 0, CommitTail(op))))
  }

  ghost function Commit(d: Disk, op: Intents, fuse: Option<Crash>): Outcome {
    var ws := Derive(d, op);
    var id := OpIdOf(op, ws);
    if Begun(d.journal, id) then Outcome(d, Refused)  // _collision_check
    else Run(d, CommitProg(id, ws), fuse)
  }

  function KnownOps(journal: seq<Line<JRecord>>): set<OpId> {
    set i | 0 <= i < |journal| && journal[i].payload.OpBegin? :: journal[i].payload.op
  }

  /** The loop of `recover` over the op_begin records, from record i on. */
  function BeginsProg(journal: seq<Line<JRecord>>, i: nat): Prog
    requires i <= |journal|
    decreases |journal| - i
  {
    if i == |journal| then Cons(RemoveOrphans(KnownOps(journal)), Nil)
    else
      match journal[i].payload
      case OpCommit(_) => BeginsProg(journal, i + 1)
      case OpBegin(op, writes) =>
        if Committed(journal, op) then Cons(RemoveStaging(op), BeginsProg(journal, i + 1))
        else ReplayProg(op, writes, 0,
               Cons(JournalAppend(OpCommit(op)), Cons(RemoveStaging(op), BeginsProg(journal, i + 1))))
  }

  function RecoverProg(journal: seq<Line<JRecord>>): Prog {
    Cons(HealJournal, Cons(Authenticate, BeginsProg(journal, 0)))
  }

  ghost function Recover(d: Disk, fuse: Option<Crash>): Outcome {
    if d.journal == [] && !d.journalTorn then Outcome(d, Completed)
    else Run(d, RecoverProg(d.journal), fuse)
  }

  // ---- Append-only growth, on every disk and every crash -----------------------------------

  ghost predicate Grows(d: Disk, e: Disk) {
    && (forall p :: Lines(d.store, p) <= Lines(e.store, p))
    && d.journal <= e.journal
  }

  lemma ExecGrows(d: Disk, c: Cmd)
    ensures Grows(d, ExecCmd(d, c).disk)
  {
  }

  lemma InterruptGrows(d: Disk, c: Cmd, tear: Tear)
    ensures Grows(d, Interrupt(d, c, tear))
    ensures Interrupt(d, c, tear).store == d.store
  {
  }

  lemma {:induction false} RunGrows(d: Disk, prog: Prog, fuse: Option<Crash>)
    ensures Grows(d, Run(d, prog, fuse).disk)
    decreases prog
  {
    if prog.Cons? {
      if fuse.Some? && fuse.value.after == 0 {
        InterruptGrows(d, prog.head, fuse.value.tear);
      } else {
        ExecGrows(d, prog.head);
        if ExecCmd(d, prog.head).Done? {
          RunGrows(ExecCmd(d, prog.head).disk, prog.tail, Burn(fuse));
        }
      }
    }
  }

  datatype Call = CommitCall(op: Intents, fuse: Option<Crash>) | RecoverCall(fuse: Option<Crash>)

  ghost function After(d: Disk, call: Call): Outcome {
    match call
    case CommitCall(op, fuse) => Commit(d, op, fuse)
    case RecoverCall(fuse) => Recover(d, fuse)
  }

  ghost function AfterAll(d: Disk, calls: seq<Call>): Disk
    decreases |calls|
  {
    if calls == [] then d else AfterAll(After(d, calls[0]).disk, calls[1..])
  }

  /**
   * Append-only growth under every interleaving of commits and recoveries, complete, crashed at
   * any step or halted, from any disk: no complete line is ever changed or removed.
   */
  lemma {:induction false} AppendOnly(d: Disk, calls: seq<Call>)
    ensures Grows(d, AfterAll(d, calls))
    decreases |calls|
  {
    if calls != [] {
      var next := After(d, calls[0]).disk;
      match calls[0] {
        case CommitCall(op, fuse) =>
          var ws := Derive(d, op);
          RunGrows(d, CommitProg(OpIdOf(op, ws), ws), fuse);
        case RecoverCall(fuse) =>
          RunGrows(d, RecoverProg(d.journal), fuse);
      }
      assert Grows(d, next);
      AppendOnly(next, calls[1..]);
    }
  }
}
