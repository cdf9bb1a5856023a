/**
 * What the callers of the journal write: observations, findings, attributions, regressions and
 * dispositions (tools/clearwright_alf.py, _synth.py, _review.py), as intents built from the store,
 * and the invariant that all of them keep.
 */
module AlfLayers {
  import opened Wrappers
  import opened HashChain
  import opened AlfRecords
  import opened AlfJournal
  import opened AlfScoring

  function Payloads(lines: seq<Line<Row>>): seq<Row> {
    seq(|lines|, i requires 0 <= i < |lines| => lines[i].payload)
  }

  function Rows(s: Store, p: Path): seq<Row> {
    Payloads(Lines(s, p))
  }

  /** The outcome of a build callback under the writer lock. */
  datatype Built = Noop | Refuse | Write(op: Intents)

  /** An operation that appends nothing and rewrites no record of the layers. */
  lemma QuietFrame(s: Store, s': Store, op: Intents)
    requires LayerInv(s) && Wrote(s, s', op) && op.appends == []
    requires forall i :: 0 <= i < |op.rewrites| ==> op.rewrites[i].file.DeltaDir? || op.rewrites[i].file.DeltaChain?
    ensures LayerInv(s')
  {
    assert forall p :: RowsFor(op.appends, p) == [];
    IndexFrame(s, s', op);
    OccurrenceFrame(s, s', op);
    LedgerFrame(s, s', op);
    DispositionFrame(s, s', op);
    FindingFrame(s, s', op);
  }

  // ---- capture ----------------------------------------------------------------------------

  function ObsIdOf(o: Observation): ObsId {
    ObsId(o.facts, seq(|o.evidence|, i requires 0 <= i < |o.evidence| =>
                       SourceKey(o.evidence[i].source, o.evidence[i].sha)))
  }

  /** `_identity_fields`: unlike the id, this compares whole evidence entries, roles included. */
  predicate SameIdentityFields(a: Observation, b: Observation) {
    a.facts == b.facts && a.evidence == b.evidence
  }

  predicate HasOccurrence(rows: seq<Row>, id: OccId) {
    exists i :: 0 <= i < |rows| && rows[i].OccurrenceRow? && rows[i].occurrence == id
  }

  function BuildCapture(s: Store, obs: Observation): Built {
    var id := ObsIdOf(obs);
    var file := ObservationFile(id);
    var known := Get(s.files, file);
    if known.Some? && (!known.value.ObservationObj? || !SameIdentityFields(known.value.observation, obs)) then Refuse
    else if HasOccurrence(Rows(s, Occurrences), OccId(id, obs.run)) then Noop
    else
      var occurrence := Append(Occurrences, OccurrenceRow(OccId(id, obs.run), id, obs.run, obs.metrics));
      if known.Some? then Write(Intents("capture", [], [occurrence], []))
      else
        var index := Append(Index, IndexRow(id, Sha256(ObjBytes(ObservationObj(obs))), obs.run));
        Write(Intents("capture", [], [index, occurrence], [Replace(file, ObservationObj(obs))]))
  }

  // ---- findings ---------------------------------------------------------------------------

  function FindingOf(s: Store, e: EntryId): Option<Finding> {
    var head := Get(s.files, FindingHead(e));
    if head.Some? && head.value.FindingObj? then Some(head.value.finding) else None
  }

  function LastEntry(s: Store): EntryId {
    var last := Get(s.files, EntrySeq);
    if last.Some? && last.value.SeqObj? then last.value.last else 0
  }

  function NextRevisionNo(history: seq<Row>): nat {
    if history == [] || !history[|history| - 1].RevisionRow? then 1 else history[|history| - 1].body.no + 1
  }

  function Revision(s: Store, e: EntryId, no: nat, next: Finding, reason: string, run: RunId, now: nat): Row {
    var body := RevisionBody(no, now, reason, run, next, ChainHead(Lines(s, History(e))));
    RevisionRow(body, RevisionSha(body))
  }

  function BuildCreate(s: Store, finding: Finding, run: RunId, now: nat): Built {
    var e := LastEntry(s) + 1;
    var f := finding.(entry := e);
    Write(Intents("create_finding", [], [Append(History(e), Revision(s, e, 1, f, "created", run, now))],
                  [Replace(FindingHead(e), FindingObj(f)), Replace(EntrySeq, SeqObj(e))]))
  }

  /** `_atomic_finding_update` once `produce` has returned the next record. */
  function Update(s: Store, e: EntryId, next: Finding, reason: string, run: RunId, now: nat,
                  extra: seq<Append>): Built {
    var f := next.(entry := e);
    var row := Revision(s, e, NextRevisionNo(Rows(s, History(e))), f, reason, run, now);
    Write(Intents(reason, [], [Append(History(e), row)] + extra, [Replace(FindingHead(e), FindingObj(f))]))
  }

  /** `update_finding`: whatever the caller's function makes of the head becomes the next revision. */
  function BuildUpdate(s: Store, e: EntryId, next: Finding, reason: string, run: RunId, now: nat): Built {
    if FindingOf(s, e).None? then Refuse else Update(s, e, next, reason, run, now, [])
  }

  // ---- attribution and regression ---------------------------------------------------------

  datatype Occurrence = Occurrence(id: OccId, observation: ObsId, run: RunId, metrics: Waste)

  predicate LedgerHas(ledger: seq<Row>, id: AttId) {
    exists i :: 0 <= i < |ledger| && ledger[i].LedgerRow? && ledger[i].attribution == id
  }

  predicate RunAttributed(ledger: seq<Row>, e: EntryId, run: RunId) {
    exists i :: 0 <= i < |ledger| && ledger[i].LedgerRow? && ledger[i].entry == e && ledger[i].run == run
  }

  function LedgerLine(e: EntryId, occ: Occurrence, kind: AttKind): Row {
    LedgerRow(AttId(occ.id, e, kind), occ.id, occ.observation, e, kind, occ.run)
  }

  /** The counters of a finding after one occurrence has been folded in. */
  function Folded(f: Finding, occ: Occurrence, counts: bool, newRun: bool): Finding {
    f.(occurrences := f.occurrences + (if counts then 1 else 0),
       affectedRuns := f.affectedRuns + (if newRun then 1 else 0),
       waste := f.waste.Plus(occ.metrics))
  }

  predicate Counts(kind: AttKind) {
    kind.Recurrence? || kind.Regression?
  }

  function BuildAttribute(s: Store, e: EntryId, occ: Occurrence, kind: AttKind, now: nat): Built {
    var ledger := Rows(s, Ledger);
    var head := FindingOf(s, e);
    if head.None? then Refuse
    else if LedgerHas(ledger, AttId(occ.id, e, kind)) then Noop
    else
      var next := Folded(head.value, occ, Counts(kind), !RunAttributed(ledger, e, occ.run));
      Update(s, e, next, "attribute", occ.run, now, [Append(Ledger, LedgerLine(e, occ, kind))])
  }

  function Reopened(f: Finding): Finding {
    var recomputed := Priority(AssignTier(VectorOf(f)), ComputeScore(f, f.occurrences, true));
    var effective := EffectivePriority(recomputed, f.baseline);
    f.(status := Prioritized, tier := Some(effective.tier), score := Some(effective.score))
  }

  function BuildRegression(s: Store, e: EntryId, occ: Occurrence, now: nat): Built {
    var ledger := Rows(s, Ledger);
    var head := FindingOf(s, e);
    if head.None? then Refuse
    else if LedgerHas(ledger, AttId(occ.id, e, Regression)) then Noop
    else
      var folded := Folded(head.value, occ, true, !RunAttributed(ledger, e, occ.run));
      Update(s, e, Reopened(folded), "regression_reopen", occ.run, now,
             [Append(Ledger, LedgerLine(e, occ, Regression))])
  }

  predicate IsReleased(status: Status) {
    status.Released? || status.Monitoring?
  }

  function BuildRecurrence(s: Store, e: EntryId, occ: Occurrence, now: nat): Built {
    var head := FindingOf(s, e);
    if head.None? then Refuse
    else if IsReleased(head.value.status) then BuildRegression(s, e, occ, now)
    else BuildAttribute(s, e, occ, Recurrence, now)
  }

  function BuildBaseline(s: Store, e: EntryId, now: nat): Built {
    var head := FindingOf(s, e);
    if head.None? || head.value.baseline.Some? then Noop
    else Update(s, e, head.value.(baseline := Some(Baseline(head.value.tier, head.value.score))), "release_baseline",
                None, now, [])
  }

  // ---- review -----------------------------------------------------------------------------

  datatype Message = Message(id: MessageId, fromOperator: bool, at: nat, named: set<EntryId>)

  function BuildSurface(s: Store, e: EntryId, now: nat): Built {
    var head := FindingOf(s, e);
    if head.None? then Refuse
    else if !head.value.status.Prioritized? then Noop
    else Update(s, e, head.value.(status := OperatorReview), "surface_for_review", None, now, [])
  }

  predicate OperatorTransition(from: Status, to: Status) {
    || (from.OperatorReview?
        && (to.ApprovedForPlanning? || to.Deferred? || to.Rejected? || to.AcceptedRisk? || to.Superseded?
            || to.NotReproducible?))
    || (from.Triaged? && to.Merged?)
  }

  predicate Consumed(dispositions: seq<Row>, id: MessageId) {
    exists i :: 0 <= i < |dispositions| && dispositions[i].DispositionRow? && dispositions[i].message == id
  }

  function LastRevisedAt(history: seq<Row>): Option<nat> {
    if history == [] || !history[|history| - 1].RevisionRow? then None else Some(history[|history| - 1].body.at)
  }

  function BuildDispose(s: Store, e: EntryId, target: Status, msg: Option<Message>, deferral: bool, now: nat): Built {
    var head := FindingOf(s, e);
    var revised := LastRevisedAt(Rows(s, History(e)));
    if head.None? || !OperatorTransition(head.value.status, target) then Refuse
    else if msg.None? || !msg.value.fromOperator then Refuse
    else if revised.None? || msg.value.at <= revised.value then Refuse
    else if e !in msg.value.named then Refuse
    else if Consumed(Rows(s, Dispositions), msg.value.id) then Refuse
    else if target.Deferred? && !deferral then Refuse
    else if target.ApprovedForPlanning? && !head.value.promotable then Refuse
    else
      Update(s, e, head.value.(status := target), "dispose", None, now,
             [Append(Dispositions, DispositionRow(e, target, msg.value.id))])
  }

  // ---- The invariant of the layers --------------------------------------------------------

  predicate IndexedObservation(s: Store, row: Row) {
    && row.IndexRow?
    && ObservationFile(row.observation) in s.files
    && s.files[ObservationFile(row.observation)].ObservationObj?
    && ObsIdOf(s.files[ObservationFile(row.observation)].observation) == row.observation
    && row.sha == Sha256(ObjBytes(s.files[ObservationFile(row.observation)]))
  }

  predicate IndexHas(index: seq<Row>, id: ObsId) {
    exists i :: 0 <= i < |index| && index[i].IndexRow? && index[i].observation == id
  }

  /** Index rows and observation files are in bijection, with matching content hashes. */
  ghost predicate IndexInv(s: Store) {
    var index := Rows(s, Index);
    && (forall i :: 0 <= i < |index| ==> IndexedObservation(s, index[i]))
    && (forall i, j :: 0 <= i < j < |index| ==> index[i].observation != index[j].observation)
    && (forall id :: ObservationFile(id) in s.files ==> IndexHas(index, id))
  }

  /** Occurrences are unique per observation and run, and cite a stored observation. */
  ghost predicate OccurrenceInv(s: Store) {
    var occs := Rows(s, Occurrences);
    && (forall i :: 0 <= i < |occs| ==>
          occs[i].OccurrenceRow? && occs[i].occurrence == OccId(occs[i].observation, occs[i].run)
          && ObservationFile(occs[i].observation) in s.files)
    && (forall i, j :: 0 <= i < j < |occs| ==> occs[i].occurrence != occs[j].occurrence)
  }

  ghost predicate LedgerInv(s: Store) {
    var ledger := Rows(s, Ledger);
    && (forall i :: 0 <= i < |ledger| ==>
          ledger[i].LedgerRow? && ledger[i].attribution == AttId(ledger[i].occurrence, ledger[i].entry, ledger[i].kind))
    && (forall i, j :: 0 <= i < j < |ledger| ==> ledger[i].attribution != ledger[j].attribution)
  }

  /** Revision i+1 of an entry, correctly numbered, hashed and linked. */
  predicate RevisionAt(lines: seq<Line<Row>>, e: EntryId, i: nat)
    requires i < |lines|
  {
    var row := lines[i].payload;
    && row.RevisionRow?
    && row.body.no == i + 1
    && row.revisionSha == RevisionSha(row.body)
    && row.body.record.entry == e
    && row.body.prev == ChainHead(lines[..i])
  }

  /** The head file is the record of the last revision; there is none without a history. */
  ghost predicate EntryInv(s: Store, e: EntryId) {
    var lines := Lines(s, History(e));
    && (forall i {:trigger RevisionAt(lines, e, i)} :: 0 <= i < |lines| ==> RevisionAt(lines, e, i))
    && (lines == [] <==> FindingHead(e) !in s.files)
    && (lines != [] ==>
          lines[|lines| - 1].payload.RevisionRow?
          && s.files[FindingHead(e)] == FindingObj(lines[|lines| - 1].payload.body.record))
  }

  ghost predicate FindingInv(s: Store) {
    && (forall e :: EntryInv(s, e))
    && (forall e: EntryId :: FindingHead(e) in s.files <==> 1 <= e <= LastEntry(s))
  }

  ghost predicate DispositionInv(s: Store) {
    var ds := Rows(s, Dispositions);
    && (forall i :: 0 <= i < |ds| ==> ds[i].DispositionRow?)
    && (forall i, j :: 0 <= i < j < |ds| ==> ds[i].message != ds[j].message)
  }

  ghost predicate LayerInv(s: Store) {
    IndexInv(s) && OccurrenceInv(s) && LedgerInv(s) && FindingInv(s) && DispositionInv(s)
  }

  // ---- A committed operation, as the layers see it ----------------------------------------

  ghost predicate Untouched(s: Store, s': Store, op: Intents, f: FilePath) {
    (forall i :: 0 <= i < |op.rewrites| ==> op.rewrites[i].file != f) ==> Get(s'.files, f) == Get(s.files, f)
  }

  /** s' is s with the operation carried out; the checkpoint file may be anything. */
  ghost predicate Wrote(s: Store, s': Store, op: Intents) {
    && (forall p :: Lines(s, p) <= Lines(s', p))
    && (forall p :: Rows(s', p) == Rows(s, p) + RowsFor(op.appends, p))
    && (forall f :: f != ExpectedHeads ==> Untouched(s, s', op, f))
    && (forall i :: 0 <= i < |op.rewrites| ==> Get(s'.files, op.rewrites[i].file) == Some(op.rewrites[i].obj))
  }

  lemma RowsForTwo(a: Append, b: Append, p: Path)
    ensures RowsFor([a], p) == if a.chain == p then [a.row] else []
    ensures RowsFor([a, b], p) == RowsFor([a], p) + RowsFor([b], p)
  {
  }

  lemma SameLines(s: Store, s': Store, op: Intents, p: Path)
    requires Wrote(s, s', op) && RowsFor(op.appends, p) == []
    ensures Lines(s', p) == Lines(s, p) && Rows(s', p) == Rows(s, p)
  {
  }

  // ---- What an operation that stays away from some records keeps ----------------------------

  ghost predicate KeepsObservations(op: Intents) {
    forall i :: 0 <= i < |op.rewrites| ==> !op.rewrites[i].file.ObservationFile?
  }

  lemma IndexFrame(s: Store, s': Store, op: Intents)
    requires IndexInv(s) && Wrote(s, s', op) && RowsFor(op.appends, Index) == [] && KeepsObservations(op)
    ensures IndexInv(s')
  {
    SameLines(s, s', op, Index);
    forall id ensures Get(s'.files, ObservationFile(id)) == Get(s.files, ObservationFile(id)) {
      assert Untouched(s, s', op, ObservationFile(id));
    }
    assert forall i :: 0 <= i < |Rows(s, Index)| ==> IndexedObservation(s, Rows(s, Index)[i]);
  }

  lemma OccurrenceFrame(s: Store, s': Store, op: Intents)
    requires OccurrenceInv(s) && Wrote(s, s', op) && RowsFor(op.appends, Occurrences) == [] && KeepsObservations(op)
    ensures OccurrenceInv(s')
  {
    SameLines(s, s', op, Occurrences);
    forall id ensures Get(s'.files, ObservationFile(id)) == Get(s.files, ObservationFile(id)) {
      assert Untouched(s, s', op, ObservationFile(id));
    }
  }

  lemma LedgerFrame(s: Store, s': Store, op: Intents)
    requires LedgerInv(s) && Wrote(s, s', op) && RowsFor(op.appends, Ledger) == []
    ensures LedgerInv(s')
  {
  }

  lemma DispositionFrame(s: Store, s': Store, op: Intents)
    requires DispositionInv(s) && Wrote(s, s', op) && RowsFor(op.appends, Dispositions) == []
    ensures DispositionInv(s')
  {
  }

  lemma EntryFrame(s: Store, s': Store, op: Intents, e: EntryId)
    requires EntryInv(s, e) && Wrote(s, s', op) && RowsFor(op.appends, History(e)) == []
    requires forall i :: 0 <= i < |op.rewrites| ==> op.rewrites[i].file != FindingHead(e)
    ensures EntryInv(s', e)
    ensures FindingHead(e) in s'.files <==> FindingHead(e) in s.files
  {
    SameLines(s, s', op, History(e));
    assert Untouched(s, s', op, FindingHead(e));
  }

  lemma FindingFrame(s: Store, s': Store, op: Intents)
    requires FindingInv(s) && Wrote(s, s', op)
    requires forall e :: RowsFor(op.appends, History(e)) == []
    requires forall i :: 0 <= i < |op.rewrites| ==> !op.rewrites[i].file.FindingHead? && !op.rewrites[i].file.EntrySeq?
    ensures FindingInv(s')
  {
    assert Untouched(s, s', op, EntrySeq);
    forall e ensures EntryInv(s', e) && (FindingHead(e) in s'.files <==> FindingHead(e) in s.files) {
      assert EntryInv(s, e);
      EntryFrame(s, s', op, e);
    }
  }

  // ---- capture ------------------------------------------------------------------------------

  lemma CaptureAppends(s: Store, obs: Observation, op: Intents, p: Path)
    requires BuildCapture(s, obs) == Write(op)
    ensures var id := ObsIdOf(obs);
            RowsFor(op.appends, p) ==
              if p == Occurrences then [OccurrenceRow(OccId(id, obs.run), id, obs.run, obs.metrics)]
              else if p == Index && op.rewrites != []
                  then [IndexRow(id, Sha256(ObjBytes(ObservationObj(obs))), obs.run)]
              else []
  {
    var id := ObsIdOf(obs);
    var occurrence := Append(Occurrences, OccurrenceRow(OccId(id, obs.run), id, obs.run, obs.metrics));
    var index := Append(Index, IndexRow(id, Sha256(ObjBytes(ObservationObj(obs))), obs.run));
    RowsForTwo(index, occurrence, p);
    RowsForTwo(occurrence, occurrence, p);
  }

  lemma CaptureKeeps(s: Store, s': Store, obs: Observation)
    requires LayerInv(s) && BuildCapture(s, obs).Write? && Wrote(s, s', BuildCapture(s, obs).op)
    ensures LayerInv(s')
  {
    var op := BuildCapture(s, obs).op;
    CaptureAppends(s, obs, op, Index);
    CaptureAppends(s, obs, op, Occurrences);
    CaptureAppends(s, obs, op, Ledger);
    CaptureAppends(s, obs, op, Dispositions);
    forall e ensures RowsFor(op.appends, History(e)) == [] {
      CaptureAppends(s, obs, op, History(e));
    }
    CaptureObservations(s, s', obs, op);
    LedgerFrame(s, s', op);
    DispositionFrame(s, s', op);
    CaptureFindings(s, s', obs, op);
  }

  lemma CaptureFindings(s: Store, s': Store, obs: Observation, op: Intents)
    requires FindingInv(s) && BuildCapture(s, obs) == Write(op) && Wrote(s, s', op)
    requires forall e :: RowsFor(op.appends, History(e)) == []
    ensures FindingInv(s')
  {
    FindingFrame(s, s', op);
  }

  lemma CaptureObservations(s: Store, s': Store, obs: Observation, op: Intents)
    requires IndexInv(s) && OccurrenceInv(s) && BuildCapture(s, obs) == Write(op) && Wrote(s, s', op)
    requires var id := ObsIdOf(obs);
             && RowsFor(op.appends, Occurrences) == [OccurrenceRow(OccId(id, obs.run), id, obs.run, obs.metrics)]
             && RowsFor(op.appends, Index) ==
                  if op.rewrites == [] then [] else [IndexRow(id, Sha256(ObjBytes(ObservationObj(obs))), obs.run)]
    ensures IndexInv(s') && OccurrenceInv(s')
  {
    CaptureTouches(s, s', obs, op);
    if op.rewrites == [] {
      IndexFrame(s, s', op);
    } else {
      IndexGrows(s, s', obs);
    }
    OccurrencesGrow(s, s', obs);
  }

  /** Capture writes at most the file of its own observation. */
  lemma CaptureTouches(s: Store, s': Store, obs: Observation, op: Intents)
    requires BuildCapture(s, obs) == Write(op) && Wrote(s, s', op)
    ensures forall other :: other != ObsIdOf(obs) || op.rewrites == [] ==>
              Get(s'.files, ObservationFile(other)) == Get(s.files, ObservationFile(other))
    ensures op.rewrites != [] ==> Get(s'.files, ObservationFile(ObsIdOf(obs))) == Some(ObservationObj(obs))
  {
    forall other ensures other != ObsIdOf(obs) || op.rewrites == [] ==>
        Get(s'.files, ObservationFile(other)) == Get(s.files, ObservationFile(other))
    {
      assert Untouched(s, s', op, ObservationFile(other));
    }
    assert op.rewrites != [] ==> Get(s'.files, op.rewrites[0].file) == Some(op.rewrites[0].obj);
  }

  lemma IndexGrows(s: Store, s': Store, obs: Observation)
    requires IndexInv(s)
    requires var id := ObsIdOf(obs);
             && ObservationFile(id) !in s.files
             && Get(s'.files, ObservationFile(id)) == Some(ObservationObj(obs))
             && Rows(s', Index) == Rows(s, Index) + [IndexRow(id, Sha256(ObjBytes(ObservationObj(obs))), obs.run)]
             && forall other :: other != id ==>
                 Get(s'.files, ObservationFile(other)) == Get(s.files, ObservationFile(other))
    ensures IndexInv(s')
  {
    var id := ObsIdOf(obs);
    var index, index' := Rows(s, Index), Rows(s', Index);
    forall i | 0 <= i < |index|
      ensures index'[i] == index[i] && index[i].observation != id && IndexedObservation(s', index[i])
    {
      assert IndexedObservation(s, index[i]);
    }
    forall other | ObservationFile(other) in s'.files ensures IndexHas(index', other) {
      if other == id {
        assert index'[|index|].IndexRow? && index'[|index|].observation == id;
      } else {
        assert IndexHas(index, other);
        var i :| 0 <= i < |index| && index[i].IndexRow? && index[i].observation == other;
        assert index'[i] == index[i];
      }
    }
  }

  lemma OccurrencesGrow(s: Store, s': Store, obs: Observation)
    requires OccurrenceInv(s)
    requires var id := ObsIdOf(obs);
             && !HasOccurrence(Rows(s, Occurrences), OccId(id, obs.run))
             && ObservationFile(id) in s'.files
             && Rows(s', Occurrences) == Rows(s, Occurrences)
                 + [OccurrenceRow(OccId(id, obs.run), id, obs.run, obs.metrics)]
             && forall other :: ObservationFile(other) in s.files ==> ObservationFile(other) in s'.files
    ensures OccurrenceInv(s')
  {
  }

  /**
   * Evidence roles are not part of the observation id but are part of the collision check: once an
   * observation is stored, capturing one with the same id is refused exactly when the evidence differs.
   */
  lemma CaptureRefusedIff(s: Store, stored: Observation, obs: Observation)
    requires Get(s.files, ObservationFile(ObsIdOf(stored))) == Some(ObservationObj(stored))
    requires ObsIdOf(obs) == ObsIdOf(stored)
    ensures BuildCapture(s, obs).Refuse? <==> obs.evidence != stored.evidence
  {
  }

  lemma SameIdDifferentRole()
    ensures exists a: Observation, b: Observation :: ObsIdOf(a) == ObsIdOf(b) && a.evidence != b.evidence
  {
    var a := Observation("facts", [Evidence("ref", "sha", Some("verification"), None)], None, 0, NO_WASTE);
    var b := Observation("facts", [Evidence("ref", "sha", Some("correction"), None)], None, 0, NO_WASTE);
    assert ObsIdOf(a).sources == [SourceKey("ref", "sha")] == ObsIdOf(b).sources;
    assert a.evidence[0] != b.evidence[0];
  }

  // ---- finding updates ----------------------------------------------------------------------

  /** The entry whose history an operation extends, once its head is known. */
  lemma EntryUpdated(s: Store, s': Store, op: Intents, e: EntryId, no: nat, f: Finding, reason: string, run: RunId,
                     now: nat)
    requires EntryInv(s, e) && Wrote(s, s', op) && f.entry == e
    requires no == |Lines(s, History(e))| + 1
    requires RowsFor(op.appends, History(e)) == [Revision(s, e, no, f, reason, run, now)]
    requires exists i :: 0 <= i < |op.rewrites| && op.rewrites[i] == Replace(FindingHead(e), FindingObj(f))
    ensures EntryInv(s', e) && FindingHead(e) in s'.files
  {
    var lines, lines' := Lines(s, History(e)), Lines(s', History(e));
    var n := |lines|;
    assert |Rows(s', History(e))| == n + 1;
    assert Rows(s', History(e))[n] == Revision(s, e, no, f, reason, run, now) == lines'[n].payload;
    assert lines'[..n] == lines;
    forall i | 0 <= i < n + 1 ensures RevisionAt(lines', e, i) {
      if i < n {
        assert RevisionAt(lines, e, i);
        assert lines'[..i] == lines[..i];
      }
    }
  }

  /** The entries that an operation does not touch. */
  lemma OtherEntries(s: Store, s': Store, op: Intents, e: EntryId)
    requires FindingInv(s) && Wrote(s, s', op)
    requires forall x :: x != e ==> RowsFor(op.appends, History(x)) == []
    requires forall i, x :: 0 <= i < |op.rewrites| && op.rewrites[i].file == FindingHead(x) ==> x == e
    ensures forall x :: x != e ==> EntryInv(s', x) && (FindingHead(x) in s'.files <==> FindingHead(x) in s.files)
  {
    forall x | x != e ensures EntryInv(s', x) && (FindingHead(x) in s'.files <==> FindingHead(x) in s.files) {
      assert EntryInv(s, x);
      EntryFrame(s, s', op, x);
    }
  }

  lemma NextNoIsLength(s: Store, e: EntryId)
    requires EntryInv(s, e)
    ensures NextRevisionNo(Rows(s, History(e))) == |Lines(s, History(e))| + 1
  {
    var lines := Lines(s, History(e));
    if lines != [] {
      assert RevisionAt(lines, e, |lines| - 1);
    }
  }

  /** The rows of a finding update: its revision, and perhaps one line elsewhere. */
  lemma UpdateRows(s: Store, e: EntryId, next: Finding, reason: string, run: RunId, now: nat, extra: seq<Append>)
    requires |extra| <= 1 && (|extra| == 1 ==> !extra[0].chain.History?)
    ensures forall p :: RowsFor(Update(s, e, next, reason, run, now, extra).op.appends, p) ==
              if p == History(e) then [Revision(s, e, NextRevisionNo(Rows(s, History(e))), next.(entry := e), reason,
                                                run, now)]
              else if |extra| == 1 && p == extra[0].chain then [extra[0].row]
              else []
  {
    var op := Update(s, e, next, reason, run, now, extra).op;
    var own := op.appends[0];
    if extra == [] {
      assert op.appends == [own];
    } else {
      assert op.appends == [own, extra[0]];
    }
    forall p ensures RowsFor(op.appends, p) ==
        if p == History(e) then [own.row] else if |extra| == 1 && p == extra[0].chain then [extra[0].row] else []
    {
      RowsForTwo(own, if extra == [] then own else extra[0], p);
      RowsForTwo(if extra == [] then own else extra[0], own, p);
    }
  }

  lemma UpdateFindings(s: Store, s': Store, e: EntryId, next: Finding, reason: string, run: RunId, now: nat,
                       extra: seq<Append>)
    requires FindingInv(s) && FindingHead(e) in s.files
    requires Wrote(s, s', Update(s, e, next, reason, run, now, extra).op)
    requires |extra| <= 1 && (|extra| == 1 ==> !extra[0].chain.History?)
    ensures FindingInv(s')
  {
    var op := Update(s, e, next, reason, run, now, extra).op;
    UpdateRows(s, e, next, reason, run, now, extra);
    assert Untouched(s, s', op, EntrySeq);
    assert EntryInv(s, e);
    NextNoIsLength(s, e);
    assert op.rewrites[0] == Replace(FindingHead(e), FindingObj(next.(entry := e)));
    EntryUpdated(s, s', op, e, NextRevisionNo(Rows(s, History(e))), next.(entry := e), reason, run, now);
    OtherEntries(s, s', op, e);
    HeadsStay(s, s', e);
  }

  /** With all entries in order and the same entry number, the heads are still those up to the last one. */
  lemma HeadsStay(s: Store, s': Store, e: EntryId)
    requires FindingInv(s) && FindingHead(e) in s.files
    requires EntryInv(s', e) && FindingHead(e) in s'.files
    requires forall x :: x != e ==> EntryInv(s', x) && (FindingHead(x) in s'.files <==> FindingHead(x) in s.files)
    requires Get(s'.files, EntrySeq) == Get(s.files, EntrySeq)
    ensures FindingInv(s')
  {
  }

  ghost predicate AddsLedgerLine(s: Store, e: EntryId, extra: seq<Append>) {
    exists occ: Occurrence, kind :: extra == [Append(Ledger, LedgerLine(e, occ, kind))]
                                    && !LedgerHas(Rows(s, Ledger), AttId(occ.id, e, kind))
  }

  ghost predicate AddsDisposition(s: Store, e: EntryId, extra: seq<Append>) {
    exists target, m :: extra == [Append(Dispositions, DispositionRow(e, target, m))]
                        && !Consumed(Rows(s, Dispositions), m)
  }

  function RowsIn(extra: seq<Append>, p: Path): seq<Row> {
    if |extra| == 1 && extra[0].chain == p then [extra[0].row] else []
  }

  lemma ExtraKeeps(s: Store, s': Store, e: EntryId, extra: seq<Append>)
    requires LedgerInv(s) && DispositionInv(s)
    requires extra == [] || AddsLedgerLine(s, e, extra) || AddsDisposition(s, e, extra)
    requires Rows(s', Ledger) == Rows(s, Ledger) + RowsIn(extra, Ledger)
    requires Rows(s', Dispositions) == Rows(s, Dispositions) + RowsIn(extra, Dispositions)
    ensures LedgerInv(s') && DispositionInv(s')
  {
    if AddsLedgerLine(s, e, extra) {
      LedgerGrows(s, s', extra[0].row);
    } else if AddsDisposition(s, e, extra) {
      DispositionsGrow(s, s', extra[0].row);
    }
  }

  /** Observations and occurrences, under an operation that stays away from them. */
  lemma ObservationFrames(s: Store, s': Store, op: Intents)
    requires IndexInv(s) && OccurrenceInv(s) && Wrote(s, s', op) && KeepsObservations(op)
    requires RowsFor(op.appends, Index) == [] && RowsFor(op.appends, Occurrences) == []
    ensures IndexInv(s') && OccurrenceInv(s')
  {
    IndexFrame(s, s', op);
    OccurrenceFrame(s, s', op);
  }

  predicate ElsewhereOnly(extra: seq<Append>) {
    |extra| <= 1 && (|extra| == 1 ==> extra[0].chain == Ledger || extra[0].chain == Dispositions)
  }

  /** What a finding update appends to one file, other than a history. */
  lemma UpdateRowsAt(s: Store, s': Store, e: EntryId, next: Finding, reason: string, run: RunId, now: nat,
                     extra: seq<Append>, p: Path)
    requires Wrote(s, s', Update(s, e, next, reason, run, now, extra).op) && ElsewhereOnly(extra) && !p.History?
    ensures RowsFor(Update(s, e, next, reason, run, now, extra).op.appends, p) == RowsIn(extra, p)
    ensures Rows(s', p) == Rows(s, p) + RowsIn(extra, p)
  {
    UpdateRows(s, e, next, reason, run, now, extra);
  }

  lemma UpdateObservations(s: Store, s': Store, e: EntryId, next: Finding, reason: string, run: RunId, now: nat,
                           extra: seq<Append>)
    requires IndexInv(s) && OccurrenceInv(s) && ElsewhereOnly(extra)
    requires Wrote(s, s', Update(s, e, next, reason, run, now, extra).op)
    ensures IndexInv(s') && OccurrenceInv(s')
  {
    UpdateRowsAt(s, s', e, next, reason, run, now, extra, Index);
    UpdateRowsAt(s, s', e, next, reason, run, now, extra, Occurrences);
    ObservationFrames(s, s', Update(s, e, next, reason, run, now, extra).op);
  }

  lemma UpdateExtra(s: Store, s': Store, e: EntryId, next: Finding, reason: string, run: RunId, now: nat,
                    extra: seq<Append>)
    requires LedgerInv(s) && DispositionInv(s)
    requires extra == [] || AddsLedgerLine(s, e, extra) || AddsDisposition(s, e, extra)
    requires Wrote(s, s', Update(s, e, next, reason, run, now, extra).op)
    ensures LedgerInv(s') && DispositionInv(s') && ElsewhereOnly(extra)
  {
    UpdateRowsAt(s, s', e, next, reason, run, now, extra, Ledger);
    UpdateRowsAt(s, s', e, next, reason, run, now, extra, Dispositions);
    ExtraKeeps(s, s', e, extra);
  }

  /** A finding update, alone or with one new ledger or disposition line, keeps the invariant. */
  lemma UpdateKeeps(s: Store, s': Store, e: EntryId, next: Finding, reason: string, run: RunId, now: nat,
                    extra: seq<Append>)
    requires LayerInv(s) && FindingHead(e) in s.files
    requires Wrote(s, s', Update(s, e, next, reason, run, now, extra).op)
    requires extra == [] || AddsLedgerLine(s, e, extra) || AddsDisposition(s, e, extra)
    ensures LayerInv(s')
  {
    UpdateExtra(s, s', e, next, reason, run, now, extra);
    UpdateObservations(s, s', e, next, reason, run, now, extra);
    UpdateFindings(s, s', e, next, reason, run, now, extra);
  }

  lemma LedgerGrows(s: Store, s': Store, row: Row)
    requires LedgerInv(s) && Rows(s', Ledger) == Rows(s, Ledger) + [row]
    requires row.LedgerRow? && row.attribution == AttId(row.occurrence, row.entry, row.kind)
    requires !LedgerHas(Rows(s, Ledger), row.attribution)
    ensures LedgerInv(s')
  {
  }

  lemma DispositionsGrow(s: Store, s': Store, row: Row)
    requires DispositionInv(s) && Rows(s', Dispositions) == Rows(s, Dispositions) + [row]
    requires row.DispositionRow? && !Consumed(Rows(s, Dispositions), row.message)
    ensures DispositionInv(s')
  {
  }

  lemma OnlyRow(target: Path, row: Row)
    ensures forall p :: RowsFor([Append(target, row)], p) == if p == target then [row] else []
  {
    forall p ensures RowsFor([Append(target, row)], p) == if p == target then [row] else [] {
      RowsForTwo(Append(target, row), Append(target, row), p);
    }
  }

  lemma CreateRowsAt(s: Store, finding: Finding, run: RunId, now: nat, p: Path)
    requires !p.History?
    ensures RowsFor(BuildCreate(s, finding, run, now).op.appends, p) == []
  {
    var op := BuildCreate(s, finding, run, now).op;
    assert op.appends == [op.appends[0]];
    RowsForTwo(op.appends[0], op.appends[0], p);
  }

  lemma CreateObservations(s: Store, s': Store, finding: Finding, run: RunId, now: nat)
    requires IndexInv(s) && OccurrenceInv(s) && Wrote(s, s', BuildCreate(s, finding, run, now).op)
    ensures IndexInv(s') && OccurrenceInv(s')
  {
    CreateRowsAt(s, finding, run, now, Index);
    CreateRowsAt(s, finding, run, now, Occurrences);
    ObservationFrames(s, s', BuildCreate(s, finding, run, now).op);
  }

  lemma CreateLines(s: Store, s': Store, finding: Finding, run: RunId, now: nat)
    requires LedgerInv(s) && DispositionInv(s) && Wrote(s, s', BuildCreate(s, finding, run, now).op)
    ensures LedgerInv(s') && DispositionInv(s')
  {
    CreateRowsAt(s, finding, run, now, Ledger);
    CreateRowsAt(s, finding, run, now, Dispositions);
    LedgerFrame(s, s', BuildCreate(s, finding, run, now).op);
    DispositionFrame(s, s', BuildCreate(s, finding, run, now).op);
  }

  lemma CreateKeeps(s: Store, s': Store, finding: Finding, run: RunId, now: nat)
    requires LayerInv(s) && Wrote(s, s', BuildCreate(s, finding, run, now).op)
    ensures LayerInv(s')
  {
    var e := LastEntry(s) + 1;
    var f := finding.(entry := e);
    OnlyRow(History(e), Revision(s, e, 1, f, "created", run, now));
    CreateFindings(s, s', BuildCreate(s, finding, run, now).op, e, f, run, now);
    CreateObservations(s, s', finding, run, now);
    CreateLines(s, s', finding, run, now);
  }

  lemma CreateFindings(s: Store, s': Store, op: Intents, e: EntryId, f: Finding, run: RunId, now: nat)
    requires FindingInv(s) && Wrote(s, s', op) && e == LastEntry(s) + 1 && f.entry == e
    requires op.rewrites == [Replace(FindingHead(e), FindingObj(f)), Replace(EntrySeq, SeqObj(e))]
    requires forall p :: RowsFor(op.appends, p) == if p == History(e)
             then [Revision(s, e, 1, f, "created", run, now)] else []
    ensures FindingInv(s')
  {
    assert EntryInv(s, e) && FindingHead(e) !in s.files;
    assert op.rewrites[0] == Replace(FindingHead(e), FindingObj(f)) && op.rewrites[1] == Replace(EntrySeq, SeqObj(e));
    assert LastEntry(s') == e;
    EntryUpdated(s, s', op, e, 1, f, "created", run, now);
    forall x | x != e ensures EntryInv(s', x) && (FindingHead(x) in s'.files <==> FindingHead(x) in s.files) {
      assert EntryInv(s, x);
      EntryFrame(s, s', op, x);
    }
  }
}
