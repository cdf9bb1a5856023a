/**
 * Whole runs of the ALF store: any sequence of requests, each cut off by a crash at any step and
 * followed by recoveries that are themselves cut off, until one completes.
 */
module AlfRuns {
  import opened Wrappers
  import opened HashChain
  import opened AlfRecords
  import opened AlfJournal
  import opened AlfAtomicity
  import opened AlfRecovery
  import opened AlfPost
  import opened AlfCrashes
  import opened AlfLayers
  import opened AlfDelta

  datatype Request =
    | Capture(obs: Observation)
    | CreateFinding(finding: Finding, run: RunId, now: nat)
    | UpdateFinding(entry: EntryId, next: Finding, reason: string, run: RunId, now: nat)
    | Attribute(entry: EntryId, occ: Occurrence, kind: AttKind, now: nat)
    | RecordRecurrence(entry: EntryId, occ: Occurrence, now: nat)
    | RecordRegression(entry: EntryId, occ: Occurrence, now: nat)
    | SetBaseline(entry: EntryId, now: nat)
    | Surface(entry: EntryId, now: nat)
    | Dispose(entry: EntryId, target: Status, msg: Option<Message>, deferral: bool, now: nat)
    | GenerateDelta(name: string, workItem: Option<string>)

  ghost function BuildOf(s: Store, journal: seq<Line<JRecord>>, r: Request): Built {
    match r
    case Capture(obs) => BuildCapture(s, obs)
    case CreateFinding(f, run, now) => BuildCreate(s, f, run, now)
    case UpdateFinding(e, next, reason, run, now) => BuildUpdate(s, e, next, reason, run, now)
    case Attribute(e, occ, kind, now) => BuildAttribute(s, e, occ, kind, now)
    case RecordRecurrence(e, occ, now) => BuildRecurrence(s, e, occ, now)
    case RecordRegression(e, occ, now) => BuildRegression(s, e, occ, now)
    case SetBaseline(e, now) => BuildBaseline(s, e, now)
    case Surface(e, now) => BuildSurface(s, e, now)
    case Dispose(e, target, msg, deferral, now) => BuildDispose(s, e, target, msg, deferral, now)
    case GenerateDelta(run, w) => BuildDelta(s, journal, run, w)
  }

  /** A request and what happens to the process that carries it out. */
  datatype Event = Event(request: Request, fuse: Option<Crash>, crashes: seq<Crash>)

  ghost function AfterEvent(d: Disk, e: Event): Disk {
    var built := BuildOf(d.store, d.journal, e.request);
    if built.Write? then AfterStep(d, Step(built.op, e.fuse, e.crashes)) else d
  }

  ghost function AfterEvents(d: Disk, events: seq<Event>): Disk
    decreases |events|
  {
    if events == [] then d else AfterEvents(AfterEvent(d, events[0]), events[1..])
  }

  ghost predicate Quiescent(d: Disk) {
    Settled(d) && LayerInv(d.store)
  }

  const FRESH := Disk(Store(map[], map[]), {}, [], false, map[])

  lemma FreshIsQuiescent()
    ensures Quiescent(FRESH)
  {
  }

  // ---- One request --------------------------------------------------------------------------

  lemma CommitWritesFiles(d: Disk, op: Intents)
    requires WellFormed(op)
    ensures var files' := Rewritten(d.store.files, AllRewrites(d, op));
            && (forall f :: (f != ExpectedHeads && (forall i :: 0 <= i < |op.rewrites| ==> op.rewrites[i].file != f))
                             ==> Get(files', f) == Get(d.store.files, f))
            && (forall i :: 0 <= i < |op.rewrites| ==> Get(files', op.rewrites[i].file) == Some(op.rewrites[i].obj))
  {
    var rs := AllRewrites(d, op);
    forall f | f != ExpectedHeads && (forall i :: 0 <= i < |op.rewrites| ==> op.rewrites[i].file != f)
      ensures Get(Rewritten(d.store.files, rs), f) == Get(d.store.files, f)
    {
      RewrittenAt(d.store.files, rs, f);
    }
    forall i | 0 <= i < |op.rewrites|
      ensures Get(Rewritten(d.store.files, rs), op.rewrites[i].file) == Some(op.rewrites[i].obj)
    {
      assert rs[i] == op.rewrites[i];
      RewrittenAt(d.store.files, rs, op.rewrites[i].file);
    }
  }

  lemma ExtendedRows(lines: seq<Line<Row>>, rows: seq<Row>)
    ensures lines <= Extended(lines, rows) && Payloads(Extended(lines, rows)) == Payloads(lines) + rows
  {
    ExtendedGrows(lines, rows);
  }

  lemma CommitWrites(d: Disk, op: Intents)
    requires Settled(d) && WellFormed(op)
    ensures Wrote(d.store, Txn(d, op).Post(), op)
  {
    var t := Txn(d, op);
    var s, s' := d.store, t.Post();
    PostMeaning(t);
    CommitWritesFiles(d, op);
    forall p ensures Lines(s, p) <= Lines(s', p) && Rows(s', p) == Rows(s, p) + RowsFor(op.appends, p) {
      ExtendedRows(Lines(s, p), RowsFor(op.appends, p));
    }
  }

  lemma DeltaIsWellFormed(s: Store, journal: seq<Line<JRecord>>, name: string, w: Option<string>)
    requires BuildDelta(s, journal, name, w).Write?
    ensures WellFormed(BuildDelta(s, journal, name, w).op)
  {
    NamesDiffer(name);
  }

  lemma RevisionIsWellFormed(s: Store, journal: seq<Line<JRecord>>, r: Request)
    requires !r.GenerateDelta? && !r.Capture? && !r.CreateFinding? && BuildOf(s, journal, r).Write?
    ensures WellFormed(BuildOf(s, journal, r).op)
  {
    assert |BuildOf(s, journal, r).op.rewrites| == 1;
  }

  lemma BuiltIsWellFormed(s: Store, journal: seq<Line<JRecord>>, r: Request)
    requires BuildOf(s, journal, r).Write?
    ensures WellFormed(BuildOf(s, journal, r).op)
  {
    match r
    case GenerateDelta(name, w) => DeltaIsWellFormed(s, journal, name, w);
    case Capture(_) =>
    case CreateFinding(_, _, _) =>
    case _ => RevisionIsWellFormed(s, journal, r);
  }

  lemma AttributeKeeps(s: Store, s': Store, e: EntryId, occ: Occurrence, kind: AttKind, now: nat)
    requires LayerInv(s) && BuildAttribute(s, e, occ, kind, now).Write?
    requires Wrote(s, s', BuildAttribute(s, e, occ, kind, now).op)
    ensures LayerInv(s')
  {
    var next := Folded(FindingOf(s, e).value, occ, Counts(kind), !RunAttributed(Rows(s, Ledger), e, occ.run));
    assert AddsLedgerLine(s, e, [Append(Ledger, LedgerLine(e, occ, kind))]);
    UpdateKeeps(s, s', e, next, "attribute", occ.run, now, [Append(Ledger, LedgerLine(e, occ, kind))]);
  }

  lemma RegressionKeeps(s: Store, s': Store, e: EntryId, occ: Occurrence, now: nat)
    requires LayerInv(s) && BuildRegression(s, e, occ, now).Write?
    requires Wrote(s, s', BuildRegression(s, e, occ, now).op)
    ensures LayerInv(s')
  {
    var folded := Folded(FindingOf(s, e).value, occ, true, !RunAttributed(Rows(s, Ledger), e, occ.run));
    assert AddsLedgerLine(s, e, [Append(Ledger, LedgerLine(e, occ, Regression))]);
    UpdateKeeps(s, s', e, Reopened(folded), "regression_reopen", occ.run, now,
                [Append(Ledger, LedgerLine(e, occ, Regression))]);
  }

  lemma DisposeKeeps(s: Store, s': Store, e: EntryId, target: Status, msg: Option<Message>, deferral: bool, now: nat)
    requires LayerInv(s) && BuildDispose(s, e, target, msg, deferral, now).Write?
    requires Wrote(s, s', BuildDispose(s, e, target, msg, deferral, now).op)
    ensures LayerInv(s')
  {
    assert AddsDisposition(s, e, [Append(Dispositions, DispositionRow(e, target, msg.value.id))]);
    UpdateKeeps(s, s', e, FindingOf(s, e).value.(status := target), "dispose", None, now,
                [Append(Dispositions, DispositionRow(e, target, msg.value.id))]);
  }

  lemma DeltaKeeps(s: Store, s': Store, journal: seq<Line<JRecord>>, run: string, w: Option<string>)
    requires LayerInv(s) && BuildDelta(s, journal, run, w).Write?
    requires Wrote(s, s', BuildDelta(s, journal, run, w).op)
    ensures LayerInv(s')
  {
    QuietFrame(s, s', BuildDelta(s, journal, run, w).op);
  }

  lemma RecurrenceKeeps(s: Store, s': Store, e: EntryId, occ: Occurrence, now: nat)
    requires LayerInv(s) && BuildRecurrence(s, e, occ, now).Write?
    requires Wrote(s, s', BuildRecurrence(s, e, occ, now).op)
    ensures LayerInv(s')
  {
    if IsReleased(FindingOf(s, e).value.status) {
      RegressionKeeps(s, s', e, occ, now);
    } else {
      AttributeKeeps(s, s', e, occ, Recurrence, now);
    }
  }

  lemma BaselineKeeps(s: Store, s': Store, e: EntryId, now: nat)
    requires LayerInv(s) && BuildBaseline(s, e, now).Write? && Wrote(s, s', BuildBaseline(s, e, now).op)
    ensures LayerInv(s')
  {
    var f := FindingOf(s, e).value;
    UpdateKeeps(s, s', e, f.(baseline := Some(Baseline(f.tier, f.score))), "release_baseline", None, now, []);
  }

  lemma SurfaceKeeps(s: Store, s': Store, e: EntryId, now: nat)
    requires LayerInv(s) && BuildSurface(s, e, now).Write? && Wrote(s, s', BuildSurface(s, e, now).op)
    ensures LayerInv(s')
  {
    UpdateKeeps(s, s', e, FindingOf(s, e).value.(status := OperatorReview), "surface_for_review", None, now, []);
  }

  lemma FindingRequestKeeps(s: Store, s': Store, journal: seq<Line<JRecord>>, r: Request)
    requires LayerInv(s) && BuildOf(s, journal, r).Write? && Wrote(s, s', BuildOf(s, journal, r).op)
    requires r.CreateFinding? || r.UpdateFinding? || r.SetBaseline? || r.Surface? || r.Dispose?
    ensures LayerInv(s')
  {
    match r
    case CreateFinding(f, run, now) => CreateKeeps(s, s', f, run, now);
    case UpdateFinding(e, next, reason, run, now) => UpdateKeeps(s, s', e, next, reason, run, now, []);
    case SetBaseline(e, now) => BaselineKeeps(s, s', e, now);
    case Surface(e, now) => SurfaceKeeps(s, s', e, now);
    case Dispose(e, target, msg, deferral, now) => DisposeKeeps(s, s', e, target, msg, deferral, now);
  }

  /** Whatever a request writes, the layer invariant survives it. */
  lemma RequestKeeps(s: Store, s': Store, journal: seq<Line<JRecord>>, r: Request)
    requires LayerInv(s) && BuildOf(s, journal, r).Write? && Wrote(s, s', BuildOf(s, journal, r).op)
    ensures LayerInv(s')
  {
    match r
    case Capture(obs) => CaptureKeeps(s, s', obs);
    case Attribute(e, occ, kind, now) => AttributeKeeps(s, s', e, occ, kind, now);
    case RecordRecurrence(e, occ, now) => RecurrenceKeeps(s, s', e, occ, now);
    case RecordRegression(e, occ, now) => RegressionKeeps(s, s', e, occ, now);
    case GenerateDelta(run, w) => DeltaKeeps(s, s', journal, run, w);
    case _ => FindingRequestKeeps(s, s', journal, r);
  }

  /** One event: the disk stays quiescent, and the request took full effect or none. */
  lemma EventKeeps(d: Disk, e: Event)
    requires Quiescent(d)
    ensures Quiescent(AfterEvent(d, e))
    ensures AfterEvent(d, e).store == d.store
            || (BuildOf(d.store, d.journal, e.request).Write?
                && Wrote(d.store, AfterEvent(d, e).store, BuildOf(d.store, d.journal, e.request).op))
    ensures e.fuse.None? && BuildOf(d.store, d.journal, e.request).Write?
            ==> Wrote(d.store, AfterEvent(d, e).store, BuildOf(d.store, d.journal, e.request).op)
  {
    var built := BuildOf(d.store, d.journal, e.request);
    if built.Write? {
      BuiltIsWellFormed(d.store, d.journal, e.request);
      StepIsAtomic(d, Step(built.op, e.fuse, e.crashes));
      CommitWrites(d, built.op);
      if AfterEvent(d, e).store != d.store {
        RequestKeeps(d.store, AfterEvent(d, e).store, d.journal, e.request);
      }
    }
  }

  // ---- verify_hashes ------------------------------------------------------------------------

  /** The last checkpoint hash among a record's staged writes. */
  function CheckpointHashIn(writes: seq<Entry>): Option<ContentHash>
    decreases |writes|
  {
    if writes == [] then None
    else
      var last := writes[|writes| - 1];
      if last.ReplaceEntry? && last.file == ExpectedHeads then Some(last.content)
      else CheckpointHashIn(writes[..|writes| - 1])
  }

  /** The checkpoint hash of the last committed operation among the first n journal lines. */
  function LatestCheckpointHash(journal: seq<Line<JRecord>>, n: nat): Option<ContentHash>
    requires n <= |journal|
  {
    if n == 0 then None
    else
      var record := journal[n - 1].payload;
      if record.OpBegin? && Committed(journal, record.op) && CheckpointHashIn(record.writes).Some?
      then CheckpointHashIn(record.writes)
      else LatestCheckpointHash(journal, n - 1)
  }

  predicate HeadInPlace(lines: seq<Line<Row>>, head: Head<Row>) {
    head.count == 0 || (head.count <= |lines| && lines[head.count - 1].sha == head.digest)
  }

  /** `_verify_checkpoint` finds nothing to report. */
  predicate CheckpointVerifies(d: Disk) {
    var live := Get(d.store.files, ExpectedHeads);
    live.None? ||
    (var latest := LatestCheckpointHash(d.journal, |d.journal|);
     && live.value.CheckpointObj?
     && (latest.Some? ==> Sha256(ObjBytes(live.value)) == latest.value)
     && HeadInPlace(Lines(d.store, Index), live.value.checkpoint.index)
     && HeadInPlace(Lines(d.store, Occurrences), live.value.checkpoint.occurrences)
     && HeadInPlace(Lines(d.store, Ledger), live.value.checkpoint.ledger))
  }

  ghost predicate FileVerifies(d: Disk, p: Path) {
    ChainOk(Lines(d.store, p)) && p !in d.torn
  }

  /** The head file equals the rebuild from the last revision. */
  predicate HeadRebuilds(s: Store, e: EntryId) {
    var lines := Lines(s, History(e));
    lines == [] ||
    (var last := lines[|lines| - 1].payload;
     last.RevisionRow? && Get(s.files, FindingHead(e)) == Some(FindingObj(last.body.record)))
  }

  /** `verify_hashes` reports ok. */
  ghost predicate VerifyHashesOk(d: Disk) {
    && FileVerifies(d, Index) && FileVerifies(d, Occurrences) && FileVerifies(d, Ledger)
    && ChainOk(d.journal) && !d.journalTorn
    && (forall i :: 0 <= i < |Rows(d.store, Index)| ==>
          Rows(d.store, Index)[i].IndexRow?
          && FileHash(d.store, ObservationFile(Rows(d.store, Index)[i].observation))
              == Some(Rows(d.store, Index)[i].sha))
    && CheckpointVerifies(d)
    && (forall e :: FileVerifies(d, History(e)) && HeadRebuilds(d.store, e))
  }

  lemma SettledCheckpointVerifies(d: Disk)
    requires Settled(d)
    ensures CheckpointVerifies(d)
  {
    var n := |d.journal|;
    if n > 0 {
      var begin := d.journal[n - 2].payload;
      var cp := LastCheckpoint(d.journal).value;
      assert d.journal[n - 1].payload == OpCommit(begin.op);
      assert Committed(d.journal, begin.op);
      assert LatestCheckpointHash(d.journal, n) == LatestCheckpointHash(d.journal, n - 1);
    }
  }

  /** A quiescent disk passes `verify_hashes`, once the end of its journal is healed. */
  lemma QuiescentVerifies(d: Disk)
    requires Quiescent(d) && !d.journalTorn
    ensures VerifyHashesOk(d)
  {
    SettledCheckpointVerifies(d);
    var index := Rows(d.store, Index);
    assert forall i :: 0 <= i < |index| ==> IndexedObservation(d.store, index[i]);
    forall e ensures FileVerifies(d, History(e)) && HeadRebuilds(d.store, e) {
      assert EntryInv(d.store, e);
    }
  }

  // ---- Whole runs ---------------------------------------------------------------------------

  lemma EventHealsJournal(d: Disk, e: Event)
    requires Quiescent(d) && !d.journalTorn
    ensures !AfterEvent(d, e).journalTorn
  {
    var built := BuildOf(d.store, d.journal, e.request);
    if built.Write? {
      BuiltIsWellFormed(d.store, d.journal, e.request);
      CrashAtomicity(Txn(d, built.op), e.fuse, e.crashes);
    }
  }

  /** Every disk a run reaches is quiescent and passes `verify_hashes`. */
  lemma {:induction false} RunsStayQuiescent(d: Disk, events: seq<Event>)
    requires Quiescent(d) && !d.journalTorn
    ensures var e := AfterEvents(d, events);
            Quiescent(e) && !e.journalTorn && VerifyHashesOk(e)
    decreases |events|
  {
    if events == [] {
      QuiescentVerifies(d);
    } else {
      EventKeeps(d, events[0]);
      EventHealsJournal(d, events[0]);
      RunsStayQuiescent(AfterEvent(d, events[0]), events[1..]);
    }
  }

  // ---- Delta stability over runs --------------------------------------------------------------

  /** No event generates the delta of the one run whose file names collide with those of `run`. */
  ghost predicate SparesDelta(events: seq<Event>, run: string) {
    forall i :: 0 <= i < |events| && events[i].request.GenerateDelta? ==> events[i].request.name != run + ".input"
  }

  /** No request rewrites a stored observation, or the stored files of another run's delta. */
  lemma RequestSpares(s: Store, journal: seq<Line<JRecord>>, r: Request, f: FilePath)
    requires BuildOf(s, journal, r).Write? && f in s.files
    requires f.ObservationFile? || (f.DeltaDir? && !r.GenerateDelta?)
    ensures forall i :: 0 <= i < |BuildOf(s, journal, r).op.rewrites| ==>
            BuildOf(s, journal, r).op.rewrites[i].file != f
  {
  }

  lemma OtherDeltaSpares(s: Store, journal: seq<Line<JRecord>>, name: string, w: Option<string>, run: string)
    requires BuildDelta(s, journal, name, w).Write?
    requires SnapshotFile(run) in s.files && DeltaFile(run) in s.files && name != run + ".input"
    ensures forall i :: 0 <= i < 3 ==> BuildDelta(s, journal, name, w).op.rewrites[i].file != SnapshotFile(run)
    ensures forall i :: 0 <= i < 3 ==> BuildDelta(s, journal, name, w).op.rewrites[i].file != DeltaFile(run)
  {
    NamesCollideIff(run, name);
    NamesCollideIff(name, run);
  }

  lemma WritesKeepDelta(s: Store, s': Store, journal: seq<Line<JRecord>>, r: Request, run: string, w: Option<string>)
    requires Sane(s) && Sane(s') && DeltaHolds(s, run, w)
    requires BuildOf(s, journal, r).Write? && Wrote(s, s', BuildOf(s, journal, r).op)
    requires r.GenerateDelta? ==> r.name != run + ".input"
    ensures DeltaHolds(s', run, w)
  {
    var op := BuildOf(s, journal, r).op;
    if r.GenerateDelta? {
      OtherDeltaSpares(s, journal, r.name, r.workItem, run);
    } else {
      RequestSpares(s, journal, r, SnapshotFile(run));
      RequestSpares(s, journal, r, DeltaFile(run));
    }
    assert Untouched(s, s', op, SnapshotFile(run)) && Untouched(s, s', op, DeltaFile(run));
    forall id | ObservationFile(id) in s.files
      ensures Get(s'.files, ObservationFile(id)) == Get(s.files, ObservationFile(id))
    {
      RequestSpares(s, journal, r, ObservationFile(id));
      assert Untouched(s, s', op, ObservationFile(id));
    }
    RerunIsNoopIff(s, s', [], run, w, w);
  }

  /** The event does generate the delta of the run with ".input" appended: it takes effect. */
  ghost predicate Collides(d: Disk, e: Event, run: string) {
    e.request.GenerateDelta? && e.request.name == run + ".input" && AfterEvent(d, e).store != d.store
  }

  ghost predicate Collided(d: Disk, events: seq<Event>, run: string)
    decreases |events|
  {
    events != [] && (Collides(d, events[0], run) || Collided(AfterEvent(d, events[0]), events[1..], run))
  }

  lemma CollisionDestroys(s: Store, s': Store, journal: seq<Line<JRecord>>, r: Request, run: string)
    requires r.GenerateDelta? && r.name == run + ".input"
    requires BuildOf(s, journal, r).Write? && Wrote(s, s', BuildOf(s, journal, r).op)
    ensures Destroyed(s', run)
  {
    InputRunDestroysSnapshot(s, s', journal, journal, run, r.workItem, None);
  }

  lemma WritesKeepDestroyed(s: Store, s': Store, journal: seq<Line<JRecord>>, r: Request, run: string)
    requires BuildOf(s, journal, r).Write? && Wrote(s, s', BuildOf(s, journal, r).op)
    requires Destroyed(s, run)
    ensures Destroyed(s', run)
  {
    if r.GenerateDelta? {
      DeltaKeepsDestroyed(s, s', journal, r.name, r.workItem, run);
    } else {
      RequestSpares(s, journal, r, SnapshotFile(run));
      assert Untouched(s, s', BuildOf(s, journal, r).op, SnapshotFile(run));
    }
  }

  lemma EventKeepsDelta(d: Disk, e: Event, run: string, w: Option<string>)
    requires Quiescent(d) && DeltaHolds(d.store, run, w)
    ensures if Collides(d, e, run) then Destroyed(AfterEvent(d, e).store, run)
            else DeltaHolds(AfterEvent(d, e).store, run, w)
  {
    EventKeeps(d, e);
    if Collides(d, e, run) {
      CollisionDestroys(d.store, AfterEvent(d, e).store, d.journal, e.request, run);
    } else if AfterEvent(d, e).store != d.store {
      WritesKeepDelta(d.store, AfterEvent(d, e).store, d.journal, e.request, run, w);
    }
  }

  lemma EventKeepsDestroyed(d: Disk, e: Event, run: string)
    requires Quiescent(d) && Destroyed(d.store, run)
    ensures Destroyed(AfterEvent(d, e).store, run)
  {
    EventKeeps(d, e);
    if AfterEvent(d, e).store != d.store {
      WritesKeepDestroyed(d.store, AfterEvent(d, e).store, d.journal, e.request, run);
    }
  }

  lemma {:induction false} RunsKeepDestroyed(d: Disk, events: seq<Event>, run: string)
    requires Quiescent(d) && Destroyed(d.store, run)
    ensures Destroyed(AfterEvents(d, events).store, run)
    decreases |events|
  {
    if events != [] {
      EventKeeps(d, events[0]);
      EventKeepsDestroyed(d, events[0], run);
      RunsKeepDestroyed(AfterEvent(d, events[0]), events[1..], run);
    }
  }

  lemma {:induction false} RunsKeepDelta(d: Disk, events: seq<Event>, run: string, w: Option<string>)
    requires Quiescent(d) && DeltaHolds(d.store, run, w)
    ensures Quiescent(AfterEvents(d, events))
    ensures if Collided(d, events, run) then Destroyed(AfterEvents(d, events).store, run)
            else DeltaHolds(AfterEvents(d, events).store, run, w)
    decreases |events|
  {
    if events != [] {
      EventKeeps(d, events[0]);
      EventKeepsDelta(d, events[0], run, w);
      QuiescentRuns(AfterEvent(d, events[0]), events[1..]);
      if Collides(d, events[0], run) {
        RunsKeepDestroyed(AfterEvent(d, events[0]), events[1..], run);
      } else {
        RunsKeepDelta(AfterEvent(d, events[0]), events[1..], run, w);
      }
    }
  }

  lemma {:induction false} QuiescentRuns(d: Disk, events: seq<Event>)
    requires Quiescent(d)
    ensures Quiescent(AfterEvents(d, events))
    decreases |events|
  {
    if events != [] {
      EventKeeps(d, events[0]);
      QuiescentRuns(AfterEvent(d, events[0]), events[1..]);
    }
  }

  lemma GeneratedHolds(d: Disk, run: string, w: Option<string>)
    requires Quiescent(d) && BuildDelta(d.store, d.journal, run, w).Write?
    ensures var e := AfterEvent(d, Event(GenerateDelta(run, w), None, []));
            Quiescent(e) && DeltaHolds(e.store, run, w)
  {
    var first := Event(GenerateDelta(run, w), None, []);
    assert BuildOf(d.store, d.journal, first.request) == BuildDelta(d.store, d.journal, run, w);
    EventKeeps(d, first);
    GenerateEstablishes(d.store, AfterEvent(d, first).store, d.journal, run, w);
  }

  /**
   * Delta stability.  Once a delta has been generated, any run of further requests and crashes later a
   * rerun is a verified no-op iff it names the same work item and no event has generated the delta of
   * the run named like this one with ".input" appended; it is refused otherwise.
   */
  lemma DeltaIsStableIff(d: Disk, run: string, w: Option<string>, events: seq<Event>, again: Option<string>)
    requires Quiescent(d) && BuildDelta(d.store, d.journal, run, w).Write?
    ensures var d1 := AfterEvent(d, Event(GenerateDelta(run, w), None, []));
            var e := AfterEvents(d1, events);
            BuildDelta(e.store, e.journal, run, again)
            == if again == w && !Collided(d1, events, run) then Noop else Refuse
  {
    var d1 := AfterEvent(d, Event(GenerateDelta(run, w), None, []));
    var e := AfterEvents(d1, events);
    GeneratedHolds(d, run, w);
    RunsKeepDelta(d1, events, run, w);
    if Collided(d1, events, run) {
      DestroyedIsRefused(e.store, e.journal, run, again);
    } else {
      RerunAnswers(e.store, e.journal, run, w, again);
    }
  }

  lemma RerunAnswers(s: Store, journal: seq<Line<JRecord>>, run: string, w: Option<string>, again: Option<string>)
    requires DeltaHolds(s, run, w)
    ensures BuildDelta(s, journal, run, again) == if again == w then Noop else Refuse
  {
  }

  lemma {:induction false} SparesIsNoCollision(d: Disk, events: seq<Event>, run: string)
    requires SparesDelta(events, run)
    ensures !Collided(d, events, run)
    decreases |events|
  {
    if events != [] {
      assert events[0] == events[0];
      SparesIsNoCollision(AfterEvent(d, events[0]), events[1..], run);
    }
  }

  /** In particular, runs that never ask for the colliding delta leave the rerun as it was. */
  lemma DeltaIsStable(d: Disk, run: string, w: Option<string>, events: seq<Event>, again: Option<string>)
    requires Quiescent(d) && SparesDelta(events, run)
    requires BuildDelta(d.store, d.journal, run, w).Write?
    ensures var e := AfterEvents(AfterEvent(d, Event(GenerateDelta(run, w), None, [])), events);
            BuildDelta(e.store, e.journal, run, again) == if again == w then Noop else Refuse
  {
    SparesIsNoCollision(AfterEvent(d, Event(GenerateDelta(run, w), None, [])), events, run);
    DeltaIsStableIff(d, run, w, events, again);
  }
}
