/**
 * The Run Improvement Delta of tools/clearwright_alf_delta.py: an immutable snapshot of references,
 * a derivation that re-reads and re-authenticates every reference, and a rerun check.
 */
module AlfDelta {
  import opened Wrappers
  import opened HashChain
  import opened AlfRecords
  import opened AlfJournal
  import opened AlfRecovery
  import opened AlfLayers

  // ---- Lookups: a dict built over the rows in file order keeps the last row of a key ---------

  function FindLast<T>(xs: seq<T>, p: T -> bool): Option<T>
    decreases |xs|
  {
    if xs == [] then None
    else if p(xs[|xs| - 1]) then Some(xs[|xs| - 1])
    else FindLast(xs[..|xs| - 1], p)
  }

  function Filter<T>(xs: seq<T>, p: T -> bool): seq<T>
    decreases |xs|
  {
    if xs == [] then [] else Filter(xs[..|xs| - 1], p) + if p(xs[|xs| - 1]) then [xs[|xs| - 1]] else []
  }

  ghost predicate AtMostOne<T>(xs: seq<T>, p: T -> bool) {
    forall i, j :: 0 <= i < j < |xs| ==> !(p(xs[i]) && p(xs[j]))
  }

  lemma {:induction false} FindLastStable<T>(xs: seq<T>, zs: seq<T>, p: T -> bool)
    requires xs <= zs && AtMostOne(zs, p) && FindLast(xs, p).Some?
    ensures FindLast(zs, p) == FindLast(xs, p)
    decreases |zs|
  {
    if |zs| == |xs| {
      assert zs == xs;
    } else {
      var n := |zs| - 1;
      FindLastHolds(xs, p);
      var i :| 0 <= i < |xs| && p(xs[i]);
      assert zs[i] == xs[i];
      assert xs <= zs[..n];
      FindLastStable(xs, zs[..n], p);
    }
  }

  lemma {:induction false} FindLastHolds<T>(xs: seq<T>, p: T -> bool)
    ensures FindLast(xs, p).Some? <==> exists i :: 0 <= i < |xs| && p(xs[i])
    ensures FindLast(xs, p).Some? ==> p(FindLast(xs, p).value) && FindLast(xs, p).value in xs
    decreases |xs|
  {
    if xs != [] {
      var n := |xs| - 1;
      FindLastHolds(xs[..n], p);
      if FindLast(xs[..n], p).Some? {
        var i :| 0 <= i < n && p(xs[..n][i]);
        assert p(xs[i]);
      }
      if exists i :: 0 <= i < |xs| && p(xs[i]) {
        var i :| 0 <= i < |xs| && p(xs[i]);
        assert i < n ==> p(xs[..n][i]);
      }
    }
  }

  // ---- Building the snapshot --------------------------------------------------------------

  function OccRefs(lines: seq<Line<Row>>, run: RunId): seq<OccRef>
    decreases |lines|
  {
    if lines == [] then []
    else
      var l := lines[|lines| - 1];
      OccRefs(lines[..|lines| - 1], run)
      + if l.payload.OccurrenceRow? && l.payload.run == run
        then [OccRef(l.payload.occurrence, l.payload.observation, run, l.sha)] else []
  }

  function IndexRowOf(index: seq<Row>, id: ObsId): Option<Row> {
    FindLast(index, (r: Row) => r.IndexRow? && r.observation == id)
  }

  /** One reference per distinct indexed observation, in order of first occurrence. */
  function ObsRefs(index: seq<Row>, occs: seq<OccRef>): seq<ObsRef>
    decreases |occs|
  {
    if occs == [] then []
    else
      var before := ObsRefs(index, occs[..|occs| - 1]);
      var id := occs[|occs| - 1].observation;
      var row := IndexRowOf(index, id);
      if row.None? || !row.value.IndexRow? || (exists i :: 0 <= i < |before| && before[i].observation == id) then before
      else before + [ObsRef(id, row.value.sha)]
  }

  function AttRefs(lines: seq<Line<Row>>, run: RunId): seq<AttRef>
    decreases |lines|
  {
    if lines == [] then []
    else
      var l := lines[|lines| - 1];
      AttRefs(lines[..|lines| - 1], run)
      + if l.payload.LedgerRow? && l.payload.run == run && !l.payload.kind.DeltaReport?
        then [AttRef(l.payload.attribution, l.payload.kind, l.sha)] else []
  }

  predicate IsRevisionOf(row: Row, run: RunId) {
    row.RevisionRow? && row.body.run == run
  }

  /** The revision with the greatest number, the first one among equals. */
  function Endpoint(revs: seq<Row>): Row
    requires revs != []
    decreases |revs|
  {
    if |revs| == 1 then revs[0]
    else
      var best := Endpoint(revs[..|revs| - 1]);
      var last := revs[|revs| - 1];
      if best.RevisionRow? && last.RevisionRow? && last.body.no > best.body.no then last else best
  }

  function FirstNo(revs: seq<Row>): nat
    requires revs != [] && forall i :: 0 <= i < |revs| ==> revs[i].RevisionRow?
    decreases |revs|
  {
    if |revs| == 1 then revs[0].body.no
    else
      var least := FirstNo(revs[..|revs| - 1]);
      if revs[|revs| - 1].body.no < least then revs[|revs| - 1].body.no else least
  }

  lemma {:induction false} FilterHolds<T>(xs: seq<T>, p: T -> bool)
    ensures forall i :: 0 <= i < |Filter(xs, p)| ==> p(Filter(xs, p)[i]) && Filter(xs, p)[i] in xs
    decreases |xs|
  {
    if xs != [] {
      FilterHolds(xs[..|xs| - 1], p);
    }
  }

  function RunRevisions(history: seq<Row>, run: RunId): (revs: seq<Row>)
    ensures forall i :: 0 <= i < |revs| ==> revs[i].RevisionRow?
  {
    FilterHolds(history, (r: Row) => IsRevisionOf(r, run));
    Filter(history, (r: Row) => IsRevisionOf(r, run))
  }

  function BaselineOf(history: seq<Row>, e: EntryId, first: nat): BaseRef {
    var prior := Filter(history, (r: Row) => r.RevisionRow? && r.body.no < first);
    if prior == [] || !prior[|prior| - 1].RevisionRow? then BaseRef(e, None, None, None, NO_WASTE)
    else
      var b := prior[|prior| - 1].body.record;
      BaseRef(e, b.tier, b.score, Some(b.status), b.waste)
  }

  function RevisionRefs(s: Store, run: RunId, upTo: EntryId): (seq<RevRef>, seq<BaseRef>)
    decreases upTo
  {
    if upTo == 0 then ([], [])
    else
      var (refs, bases) := RevisionRefs(s, run, upTo - 1);
      var history := Rows(s, History(upTo));
      var revs := RunRevisions(history, run);
      if FindingHead(upTo) !in s.files || revs == [] then (refs, bases)
      else
        var end := Endpoint(revs);
        (if end.RevisionRow? then refs + [RevRef(upTo, end.body.no, end.revisionSha)] else refs,
         bases + [BaselineOf(history, upTo, FirstNo(revs))])
  }

  function BuildSnapshot(s: Store, run: RunId): Snapshot {
    var occs := OccRefs(Lines(s, Occurrences), run);
    var (revs, bases) := RevisionRefs(s, run, LastEntry(s));
    Snapshot(run, occs, ObsRefs(Rows(s, Index), occs), AttRefs(Lines(s, Ledger), run), revs, bases)
  }

  // ---- Re-authenticating the references (_verify_snapshot_refs) ------------------------------

  function OccLine(lines: seq<Line<Row>>, id: OccId): Option<Line<Row>> {
    FindLast(lines, (l: Line<Row>) => l.payload.OccurrenceRow? && l.payload.occurrence == id)
  }

  function AttLine(lines: seq<Line<Row>>, id: AttId): Option<Line<Row>> {
    FindLast(lines, (l: Line<Row>) => l.payload.LedgerRow? && l.payload.attribution == id)
  }

  /** `_unique_by` fails closed on a duplicate id. */
  ghost predicate UniqueOccurrences(rows: seq<Row>) {
    forall i, j :: 0 <= i < j < |rows| && rows[i].OccurrenceRow? && rows[j].OccurrenceRow? ==>
        rows[i].occurrence != rows[j].occurrence
  }

  ghost predicate UniqueIndex(rows: seq<Row>) {
    forall i, j :: 0 <= i < j < |rows| && rows[i].IndexRow? && rows[j].IndexRow? ==>
        rows[i].observation != rows[j].observation
  }

  ghost predicate UniqueLedger(rows: seq<Row>) {
    forall i, j :: 0 <= i < j < |rows| && rows[i].LedgerRow? && rows[j].LedgerRow? ==>
        rows[i].attribution != rows[j].attribution
  }

  predicate OccRefHolds(s: Store, o: OccRef) {
    var live := OccLine(Lines(s, Occurrences), o.occurrence);
    live.Some? && live.value.sha == o.lineSha
  }

  predicate ObsRefHolds(s: Store, o: ObsRef) {
    var live := IndexRowOf(Rows(s, Index), o.observation);
    && live.Some? && live.value.IndexRow? && live.value.sha == o.sha
    && FileHash(s, ObservationFile(o.observation)) == Some(o.sha)
  }

  predicate AttRefHolds(s: Store, a: AttRef) {
    var live := AttLine(Lines(s, Ledger), a.attribution);
    live.Some? && live.value.sha == a.lineSha
  }

  ghost predicate RefsHold(s: Store, snap: Snapshot) {
    && ChainOk(Lines(s, Occurrences)) && ChainOk(Lines(s, Index)) && ChainOk(Lines(s, Ledger))
    && UniqueOccurrences(Rows(s, Occurrences)) && UniqueIndex(Rows(s, Index)) && UniqueLedger(Rows(s, Ledger))
    && (forall i :: 0 <= i < |snap.occurrences| ==> OccRefHolds(s, snap.occurrences[i]))
    && (forall i :: 0 <= i < |snap.observations| ==> ObsRefHolds(s, snap.observations[i]))
    && (forall i :: 0 <= i < |snap.attributions| ==> AttRefHolds(s, snap.attributions[i]))
    && (forall i :: 0 <= i < |snap.revisions| ==> ChainOk(Lines(s, History(snap.revisions[i].entry))))
  }

  // ---- Derivation ---------------------------------------------------------------------------

  /** `_resolve_finding_revision`: exactly one revision with that number, authentic and as recorded. */
  function Resolve(s: Store, ref: RevRef): Option<Finding> {
    ResolveIn(Rows(s, History(ref.entry)), ref)
  }

  function ResolveIn(history: seq<Row>, ref: RevRef): Option<Finding> {
    var matches := Filter(history, (r: Row) => r.RevisionRow? && r.body.no == ref.no);
    if |matches| != 1 || !matches[0].RevisionRow? then None
    else if RevisionSha(matches[0].body) != matches[0].revisionSha || matches[0].revisionSha != ref.revisionSha
        then None
    else Some(matches[0].body.record)
  }

  function BaseFor(bases: seq<BaseRef>, e: EntryId): BaseRef {
    var b := FindLast(bases, (b: BaseRef) => b.entry == e);
    if b.Some? then b.value else BaseRef(e, None, None, None, NO_WASTE)
  }

  function FirstSeenHere(s: Store, run: RunId, id: ObsId): bool {
    var row := IndexRowOf(Rows(s, Index), id);
    row.Some? && row.value.IndexRow? && row.value.run == run
  }

  function NewObservations(s: Store, run: RunId, refs: seq<ObsRef>): seq<ObsId>
    decreases |refs|
  {
    if refs == [] then []
    else
      var id := refs[|refs| - 1].observation;
      NewObservations(s, run, refs[..|refs| - 1]) + if FirstSeenHere(s, run, id) then [id] else []
  }

  datatype FindingPart = FindingPart(created: seq<EntryId>, priority: seq<PriorityChange>, waste: seq<WasteChange>)

  function FindingChanges(s: Store, refs: seq<RevRef>, bases: seq<BaseRef>): Option<FindingPart>
    decreases |refs|
  {
    if refs == [] then Some(FindingPart([], [], []))
    else
      var before := FindingChanges(s, refs[..|refs| - 1], bases);
      var ref := refs[|refs| - 1];
      var rec := Resolve(s, ref);
      if before.None? || rec.None? then None
      else
        var b := BaseFor(bases, ref.entry);
        var p := before.value;
        Some(FindingPart(
          p.created + (if b.tier.None? && b.status.None? then [ref.entry] else []),
          p.priority + (if (b.tier, b.score) != (rec.value.tier, rec.value.score)
                        then [PriorityChange(ref.entry, b.tier, b.score, rec.value.tier, rec.value.score)] else []),
          p.waste + (if b.waste != rec.value.waste then [WasteChange(ref.entry, b.waste, rec.value.waste)] else [])))
  }

  function LedgerByLine(lines: seq<Line<Row>>, sha: Digest<Row>): Option<Line<Row>> {
    FindLast(lines, (l: Line<Row>) => l.sha == sha)
  }

  function Regressions(s: Store, refs: seq<AttRef>): seq<RegressionNote>
    decreases |refs|
  {
    if refs == [] then []
    else
      var a := refs[|refs| - 1];
      var line := LedgerByLine(Lines(s, Ledger), a.lineSha);
      Regressions(s, refs[..|refs| - 1])
      + if a.kind.Regression? && line.Some? && line.value.payload.LedgerRow?
        then [RegressionNote(line.value.payload.entry, line.value.payload.observation)] else []
  }

  ghost function DeriveDelta(s: Store, snap: Snapshot): Option<DeltaContent> {
    var findings := FindingChanges(s, snap.revisions, snap.baselines);
    if !RefsHold(s, snap) || findings.None? then None
    else Some(DeltaContent(NewObservations(s, snap.run, snap.observations), findings.value.created,
                           findings.value.priority, Regressions(s, snap.attributions), findings.value.waste))
  }

  // ---- generate_delta ---------------------------------------------------------------------

  function SnapshotFile(run: string): FilePath { DeltaDir("rid-" + run + ".input.json") }

  function DeltaFile(run: string): FilePath { DeltaDir("rid-" + run + ".json") }

  function FindingHeads(s: Store, upTo: EntryId): seq<Head<Row>>
    decreases upTo
  {
    if upTo == 0 then [] else FindingHeads(s, upTo - 1) + [HeadOf(Lines(s, History(upTo)))]
  }

  function AnchorsOf(s: Store, journal: seq<Line<JRecord>>, input: ContentHash): Anchors {
    var last := Get(s.files, DeltaChain);
    Anchors(HeadOf(Lines(s, Index)), HeadOf(Lines(s, Ledger)), HeadOf(journal), FindingHeads(s, LastEntry(s)), input,
            if last.Some? && last.value.DeltaChainObj? then Some(last.value.lastAnchors) else None)
  }

  /** The rerun check against the stored snapshot and delta. */
  ghost predicate RerunMatches(s: Store, run: string, workItem: Option<string>) {
    var snap, stored := Get(s.files, SnapshotFile(run)), Get(s.files, DeltaFile(run));
    && snap.Some? && snap.value.SnapshotObj? && stored.Some? && stored.value.DeltaObj?
    && Sha256(ObjBytes(snap.value)) == stored.value.delta.anchors.inputSnapshot
    && DeriveDelta(s, snap.value.snapshot) == Some(stored.value.delta.content)
    && stored.value.delta.run == Some(run) && stored.value.delta.workItem == workItem
  }

  ghost function BuildDelta(s: Store, journal: seq<Line<JRecord>>, run: string, workItem: Option<string>): Built {
    if SnapshotFile(run) in s.files then
      if RerunMatches(s, run, workItem) then Noop else Refuse
    else
      var snap := BuildSnapshot(s, Some(run));
      var content := DeriveDelta(s, snap);
      if content.None? then Refuse
      else
        var anchors := AnchorsOf(s, journal, Sha256(ObjBytes(SnapshotObj(snap))));
        Write(Intents("delta_generate", [], [],
                      [Replace(SnapshotFile(run), SnapshotObj(snap)),
                       Replace(DeltaFile(run), DeltaObj(Delta(Some(run), workItem, content.value, anchors))),
                       Replace(DeltaChain, DeltaChainObj(AnchorsSha(anchors)))]))
  }

  // ---- Stability under growth ---------------------------------------------------------------

  /** Every chain is extended and every stored observation keeps its bytes. */
  ghost predicate Grown(s: Store, s': Store) {
    && (forall p :: Lines(s, p) <= Lines(s', p))
    && (forall id :: ObservationFile(id) in s.files ==>
        Get(s'.files, ObservationFile(id)) == Get(s.files, ObservationFile(id)))
  }

  /** What the growth of the stores keeps true of them. */
  ghost predicate Sane(s: Store) {
    ChainsOk(s) && LayerInv(s)
  }

  lemma IndexRowStable(s: Store, s': Store, id: ObsId)
    requires Grown(s, s') && Sane(s') && IndexRowOf(Rows(s, Index), id).Some?
    ensures IndexRowOf(Rows(s', Index), id) == IndexRowOf(Rows(s, Index), id)
  {
    FindLastStable(Rows(s, Index), Rows(s', Index), (r: Row) => r.IndexRow? && r.observation == id);
  }

  lemma OccLineStable(s: Store, s': Store, id: OccId)
    requires Grown(s, s') && Sane(s') && OccLine(Lines(s, Occurrences), id).Some?
    ensures OccLine(Lines(s', Occurrences), id) == OccLine(Lines(s, Occurrences), id)
  {
    var p := (l: Line<Row>) => l.payload.OccurrenceRow? && l.payload.occurrence == id;
    var lines := Lines(s', Occurrences);
    forall i, j | 0 <= i < j < |lines| ensures !(p(lines[i]) && p(lines[j])) {
      assert Rows(s', Occurrences)[i] == lines[i].payload && Rows(s', Occurrences)[j] == lines[j].payload;
    }
    FindLastStable(Lines(s, Occurrences), lines, p);
  }

  lemma AttLineStable(s: Store, s': Store, id: AttId)
    requires Grown(s, s') && Sane(s') && AttLine(Lines(s, Ledger), id).Some?
    ensures AttLine(Lines(s', Ledger), id) == AttLine(Lines(s, Ledger), id)
  {
    var p := (l: Line<Row>) => l.payload.LedgerRow? && l.payload.attribution == id;
    var lines := Lines(s', Ledger);
    forall i, j | 0 <= i < j < |lines| ensures !(p(lines[i]) && p(lines[j])) {
      assert Rows(s', Ledger)[i] == lines[i].payload && Rows(s', Ledger)[j] == lines[j].payload;
    }
    FindLastStable(Lines(s, Ledger), lines, p);
  }

  lemma ByLineStable(s: Store, s': Store, sha: Digest<Row>)
    requires Grown(s, s') && Sane(s') && LedgerByLine(Lines(s, Ledger), sha).Some?
    ensures LedgerByLine(Lines(s', Ledger), sha) == LedgerByLine(Lines(s, Ledger), sha)
  {
    var lines := Lines(s', Ledger);
    forall i, j | 0 <= i < j < |lines| ensures !(lines[i].sha == sha && lines[j].sha == sha) {
      assert LinkOk(lines, i) && LinkOk(lines, j);
      assert Rows(s', Ledger)[i] == lines[i].payload && Rows(s', Ledger)[j] == lines[j].payload;
    }
    FindLastStable(Lines(s, Ledger), lines, (l: Line<Row>) => l.sha == sha);
  }

  /** In a correctly numbered history, the revisions with a given number are that one. */
  lemma {:induction false} MatchesOf(history: seq<Row>, no: nat)
    requires Numbered(history)
    ensures Filter(history, (r: Row) => r.RevisionRow? && r.body.no == no)
              == if 1 <= no <= |history| then [history[no - 1]] else []
    decreases |history|
  {
    if history != [] {
      MatchesOf(history[..|history| - 1], no);
    }
  }

  lemma ResolveStable(s: Store, s': Store, ref: RevRef)
    requires Grown(s, s') && Sane(s) && Sane(s') && Resolve(s, ref).Some?
    ensures Resolve(s', ref) == Resolve(s, ref)
  {
    var e := ref.entry;
    assert EntryInv(s, e) && EntryInv(s', e);
    NumberedRows(s, e);
    NumberedRows(s', e);
    ResolveGrows(Rows(s, History(e)), Rows(s', History(e)), ref);
  }

  predicate Numbered(history: seq<Row>) {
    forall i :: 0 <= i < |history| ==> history[i].RevisionRow? && history[i].body.no == i + 1
  }

  lemma ResolveGrows(history: seq<Row>, later: seq<Row>, ref: RevRef)
    requires Numbered(history) && Numbered(later) && history <= later && ResolveIn(history, ref).Some?
    ensures ResolveIn(later, ref) == ResolveIn(history, ref)
  {
    MatchesOf(history, ref.no);
    MatchesOf(later, ref.no);
  }

  lemma NumberedRows(s: Store, e: EntryId)
    requires EntryInv(s, e)
    ensures Numbered(Rows(s, History(e)))
  {
    forall i | 0 <= i < |Lines(s, History(e))|
      ensures Rows(s, History(e))[i].RevisionRow? && Rows(s, History(e))[i].body.no == i + 1
    {
      assert RevisionAt(Lines(s, History(e)), e, i);
    }
  }

  lemma RefsStable(s: Store, s': Store, snap: Snapshot)
    requires Grown(s, s') && Sane(s) && Sane(s') && RefsHold(s, snap)
    ensures RefsHold(s', snap)
  {
    forall i | 0 <= i < |snap.occurrences| ensures OccRefHolds(s', snap.occurrences[i]) {
      assert OccRefHolds(s, snap.occurrences[i]);
      OccLineStable(s, s', snap.occurrences[i].occurrence);
    }
    forall i | 0 <= i < |snap.observations| ensures ObsRefHolds(s', snap.observations[i]) {
      assert ObsRefHolds(s, snap.observations[i]);
      IndexRowStable(s, s', snap.observations[i].observation);
    }
    forall i | 0 <= i < |snap.attributions| ensures AttRefHolds(s', snap.attributions[i]) {
      assert AttRefHolds(s, snap.attributions[i]);
      AttLineStable(s, s', snap.attributions[i].attribution);
    }
  }

  lemma {:induction false} NewObservationsStable(s: Store, s': Store, run: RunId, refs: seq<ObsRef>)
    requires Grown(s, s') && Sane(s')
    requires forall i :: 0 <= i < |refs| ==> ObsRefHolds(s, refs[i])
    ensures NewObservations(s', run, refs) == NewObservations(s, run, refs)
    decreases |refs|
  {
    if refs != [] {
      assert ObsRefHolds(s, refs[|refs| - 1]);
      IndexRowStable(s, s', refs[|refs| - 1].observation);
      NewObservationsStable(s, s', run, refs[..|refs| - 1]);
    }
  }

  lemma {:induction false} FindingChangesStable(s: Store, s': Store, refs: seq<RevRef>, bases: seq<BaseRef>)
    requires Grown(s, s') && Sane(s) && Sane(s') && FindingChanges(s, refs, bases).Some?
    ensures FindingChanges(s', refs, bases) == FindingChanges(s, refs, bases)
    decreases |refs|
  {
    if refs != [] {
      ResolveStable(s, s', refs[|refs| - 1]);
      FindingChangesStable(s, s', refs[..|refs| - 1], bases);
    }
  }

  lemma {:induction false} RegressionsStable(s: Store, s': Store, refs: seq<AttRef>)
    requires Grown(s, s') && Sane(s')
    requires forall i :: 0 <= i < |refs| ==> AttRefHolds(s, refs[i])
    ensures Regressions(s', refs) == Regressions(s, refs)
    decreases |refs|
  {
    if refs != [] {
      var a := refs[|refs| - 1];
      assert AttRefHolds(s, a);
      var lines := Lines(s, Ledger);
      FindLastHolds(lines, (l: Line<Row>) => l.payload.LedgerRow? && l.payload.attribution == a.attribution);
      FindLastHolds(lines, (l: Line<Row>) => l.sha == a.lineSha);
      var found := AttLine(lines, a.attribution).value;
      var i :| 0 <= i < |lines| && lines[i] == found;
      ByLineStable(s, s', a.lineSha);
      RegressionsStable(s, s', refs[..|refs| - 1]);
    }
  }

  /** The derivation over a stored snapshot does not change as the stores grow. */
  lemma DeriveStable(s: Store, s': Store, snap: Snapshot)
    requires Grown(s, s') && Sane(s) && Sane(s') && DeriveDelta(s, snap).Some?
    ensures DeriveDelta(s', snap) == DeriveDelta(s, snap)
  {
    RefsStable(s, s', snap);
    FindingChangesStable(s, s', snap.revisions, snap.baselines);
    NewObservationsStable(s, s', snap.run, snap.observations);
    RegressionsStable(s, s', snap.attributions);
  }

  /** The snapshot and the delta of a run, with their content equal to the derivation. */
  ghost predicate DeltaHolds(s: Store, run: string, workItem: Option<string>) {
    RerunMatches(s, run, workItem)
  }

  /** Generating a delta establishes its own rerun check. */
  lemma GenerateEstablishes(s: Store, s': Store, journal: seq<Line<JRecord>>, run: string, workItem: Option<string>)
    requires Sane(s) && Sane(s') && BuildDelta(s, journal, run, workItem).Write?
    requires Wrote(s, s', BuildDelta(s, journal, run, workItem).op)
    ensures DeltaHolds(s', run, workItem)
  {
    GenerateStores(s, s', journal, run, workItem);
    DeriveStable(s, s', BuildSnapshot(s, Some(run)));
  }

  lemma GenerateStores(s: Store, s': Store, journal: seq<Line<JRecord>>, run: string, workItem: Option<string>)
    requires BuildDelta(s, journal, run, workItem).Write?
    requires Wrote(s, s', BuildDelta(s, journal, run, workItem).op)
    ensures Grown(s, s')
    ensures var snap := BuildSnapshot(s, Some(run));
            var content := DeriveDelta(s, snap);
            var anchors := AnchorsOf(s, journal, Sha256(ObjBytes(SnapshotObj(snap))));
            && content.Some?
            && Get(s'.files, SnapshotFile(run)) == Some(SnapshotObj(snap))
            && Get(s'.files, DeltaFile(run)) == Some(DeltaObj(Delta(Some(run), workItem, content.value, anchors)))
  {
    var op := BuildDelta(s, journal, run, workItem).op;
    assert Get(s'.files, op.rewrites[0].file) == Some(op.rewrites[0].obj);
    assert Get(s'.files, op.rewrites[1].file) == Some(op.rewrites[1].obj);
    forall id | ObservationFile(id) in s.files
      ensures Get(s'.files, ObservationFile(id)) == Get(s.files, ObservationFile(id))
    {
      assert Untouched(s, s', op, ObservationFile(id));
    }
  }

  /** A rerun is a no-op exactly for the work item of the first generation, however the stores grew. */
  lemma RerunIsNoopIff(s: Store, s': Store, journal: seq<Line<JRecord>>, run: string, workItem: Option<string>,
                       again: Option<string>)
    requires Grown(s, s') && Sane(s) && Sane(s') && DeltaHolds(s, run, workItem)
    requires Get(s'.files, SnapshotFile(run)) == Get(s.files, SnapshotFile(run))
    requires Get(s'.files, DeltaFile(run)) == Get(s.files, DeltaFile(run))
    ensures BuildDelta(s', journal, run, again) == if again == workItem then Noop else Refuse
    ensures DeltaHolds(s', run, workItem)
  {
    DeriveStable(s, s', Get(s.files, SnapshotFile(run)).value.snapshot);
  }

  // ---- File names ---------------------------------------------------------------------------

  lemma NamesDiffer(run: string)
    ensures SnapshotFile(run) != DeltaFile(run)
  {
    assert |"rid-" + run + ".input.json"| != |"rid-" + run + ".json"|;
  }

  lemma SameEnds(a: string, b: string, pre: string, post: string)
    ensures pre + a + post == pre + b + post <==> a == b
  {
    if pre + a + post == pre + b + post {
      assert |a| == |b|;
      assert (pre + a + post)[|pre|..|pre| + |a|] == a;
      assert (pre + b + post)[|pre|..|pre| + |b|] == b;
    }
  }

  /** The files of two runs coincide only when one run is the other one with ".input" appended. */
  lemma NamesCollideIff(r: string, q: string)
    ensures SnapshotFile(r) == SnapshotFile(q) <==> r == q
    ensures DeltaFile(r) == DeltaFile(q) <==> r == q
    ensures DeltaFile(q) == SnapshotFile(r) <==> q == r + ".input"
  {
    SameEnds(r, q, "rid-", ".input.json");
    SameEnds(r, q, "rid-", ".json");
    SameEnds(r + ".input", q, "rid-", ".json");
    assert "rid-" + (r + ".input") + ".json" == "rid-" + r + ".input.json";
  }

  /** The snapshot of the run has been replaced by the delta of the run with ".input" appended. */
  predicate Destroyed(s: Store, run: string) {
    var snap := Get(s.files, SnapshotFile(run));
    snap.Some? && snap.value.DeltaObj?
  }

  lemma DestroyedIsRefused(s: Store, journal: seq<Line<JRecord>>, run: string, w: Option<string>)
    requires Destroyed(s, run)
    ensures BuildDelta(s, journal, run, w).Refuse?
  {
  }

  /** Generating the delta of run `r.input` destroys the snapshot of run r: the rerun of r is refused. */
  lemma InputRunDestroysSnapshot(s: Store, s': Store, j: seq<Line<JRecord>>, j': seq<Line<JRecord>>,
                                 r: string, w: Option<string>, w': Option<string>)
    requires BuildDelta(s, j, r + ".input", w).Write? && Wrote(s, s', BuildDelta(s, j, r + ".input", w).op)
    ensures Destroyed(s', r) && BuildDelta(s', j', r, w').Refuse?
  {
    NamesCollideIff(r, r + ".input");
    var op := BuildDelta(s, j, r + ".input", w).op;
    assert Get(s'.files, op.rewrites[1].file) == Some(op.rewrites[1].obj);
  }

  lemma DeltaSpares(s: Store, journal: seq<Line<JRecord>>, name: string, w: Option<string>, f: FilePath)
    requires BuildDelta(s, journal, name, w).Write?
    requires f !in {SnapshotFile(name), DeltaFile(name), DeltaChain}
    ensures forall i :: 0 <= i < |BuildDelta(s, journal, name, w).op.rewrites| ==>
              BuildDelta(s, journal, name, w).op.rewrites[i].file != f
  {
  }

  lemma OtherNames(run: string, name: string)
    requires name != run && name != run + ".input"
    ensures SnapshotFile(run) !in {SnapshotFile(name), DeltaFile(name), DeltaChain}
  {
    NamesCollideIff(run, name);
  }

  lemma FileStays(s: Store, s': Store, op: Intents, f: FilePath)
    requires Wrote(s, s', op) && f != ExpectedHeads
    requires forall i :: 0 <= i < |op.rewrites| ==> op.rewrites[i].file != f
    ensures Get(s'.files, f) == Get(s.files, f)
  {
    assert Untouched(s, s', op, f);
  }

  /** A destroyed snapshot stays destroyed, whatever delta is generated afterwards. */
  lemma DeltaKeepsDestroyed(s: Store, s': Store, journal: seq<Line<JRecord>>, name: string, w: Option<string>,
                            run: string)
    requires Destroyed(s, run) && BuildDelta(s, journal, name, w).Write?
    requires Wrote(s, s', BuildDelta(s, journal, name, w).op)
    ensures Destroyed(s', run)
  {
    if name == run + ".input" {
      InputRunDestroysSnapshot(s, s', journal, journal, run, w, w);
    } else {
      OtherNames(run, name);
      DeltaSpares(s, journal, name, w, SnapshotFile(run));
      FileStays(s, s', BuildDelta(s, journal, name, w).op, SnapshotFile(run));
    }
  }
}
