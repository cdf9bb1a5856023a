/**
 * Review of findings: when a disposition is accepted, what every request does to a finding, and, over
 * whole runs, that only the operator's messages decide and that a release baseline is set once.
 */
module AlfReviews {
  import opened Wrappers
  import opened HashChain
  import opened AlfRecords
  import opened AlfJournal
  import opened AlfLayers
  import opened AlfDelta
  import opened AlfRuns
  import opened AlfAccounting

  // ---- When a disposition is accepted -----------------------------------------------------------------

  /** The operator decides what is under operator review, and may merge what is still triaged. */
  predicate MayBecome(from: Status, to: Status) {
    match to
    case ApprovedForPlanning => from == OperatorReview
    case Deferred => from == OperatorReview
    case Rejected => from == OperatorReview
    case AcceptedRisk => from == OperatorReview
    case Superseded => from == OperatorReview
    case NotReproducible => from == OperatorReview
    case Merged => from == Triaged
    case _ => false
  }

  /** A message of the operator that names the finding and is younger than its last revision. */
  predicate Speaks(msg: Message, e: EntryId, history: seq<Row>) {
    && msg.fromOperator && e in msg.named
    && history != [] && history[|history| - 1].RevisionRow? && history[|history| - 1].body.at < msg.at
  }

  ghost predicate Unused(dispositions: seq<Row>, id: MessageId) {
    forall i :: 0 <= i < |dispositions| && dispositions[i].DispositionRow? ==> dispositions[i].message != id
  }

  /**
   * A disposition is accepted iff the finding may go there, a message of the operator says so that has
   * disposed of nothing yet, a deferral is dated and explained, and what is to be planned has passed
   * the promotion gate.  It is never a silent no-op.
   */
  lemma DisposeIff(s: Store, e: EntryId, target: Status, msg: Option<Message>, deferral: bool, now: nat)
    ensures var built, f := BuildDispose(s, e, target, msg, deferral, now), FindingOf(s, e);
            && !built.Noop?
            && (built.Write? <==>
                  && f.Some? && MayBecome(f.value.status, target)
                  && msg.Some? && Speaks(msg.value, e, Rows(s, History(e)))
                  && Unused(Rows(s, Dispositions), msg.value.id)
                  && (target == Deferred ==> deferral)
                  && (target == ApprovedForPlanning ==> f.value.promotable))
  {
  }

  // ---- What a request does to a finding -----------------------------------------------------------------

  /** The fields that no request but update_finding and the review of the finding itself may touch. */
  predicate SameRecord(f: Finding, g: Finding) {
    g == f.(occurrences := g.occurrences, affectedRuns := g.affectedRuns, waste := g.waste)
  }

  /** What is left of a finding after a regression: it is prioritized again, and keeps its baseline. */
  predicate ReopenedFrom(f: Finding, g: Finding) {
    && SameRecord(f, g.(status := f.status, tier := f.tier, score := f.score))
    && g.status == Prioritized
  }

  predicate Edits(r: Request, e: EntryId) {
    r.UpdateFinding? && r.entry == e
  }

  /** How a request may change finding e from f to g, if it is no edit by hand. */
  ghost predicate MayChange(s: Store, s': Store, r: Request, e: EntryId, f: Finding, g: Finding) {
    match r
    case SetBaseline(x, _) =>
      if x == e then f.baseline.None? && g == f.(baseline := Some(Baseline(f.tier, f.score))) else g == f
    case Surface(x, _) => if x == e then f.status == Prioritized && g == f.(status := OperatorReview) else g == f
    case Dispose(x, target, msg, _, _) =>
      if x == e
      then && g == f.(status := target) && MayBecome(f.status, target)
           && msg.Some? && Speaks(msg.value, e, Rows(s, History(e)))
           && Unused(Rows(s, Dispositions), msg.value.id)
           && Rows(s', Dispositions) == Rows(s, Dispositions) + [DispositionRow(e, target, msg.value.id)]
      else g == f
    case Attribute(x, _, _, _) => if x == e then SameRecord(f, g) else g == f
    case RecordRecurrence(x, _, _) =>
      if x != e then g == f
      else if f.status == Released || f.status == Monitoring then ReopenedFrom(f, g)
      else SameRecord(f, g)
    case RecordRegression(x, _, _) => if x == e then ReopenedFrom(f, g) else g == f
    case _ => g == f
  }

  lemma HeadEntry(s: Store, e: EntryId)
    requires LayerInv(s) && FindingOf(s, e).Some?
    ensures FindingOf(s, e).value.entry == e
  {
    assert EntryInv(s, e);
    var lines := Lines(s, History(e));
    assert RevisionAt(lines, e, |lines| - 1);
  }

  lemma DisposeChanges(s: Store, s': Store, x: EntryId, target: Status, msg: Option<Message>, deferral: bool, now: nat,
                       e: EntryId)
    requires LayerInv(s) && FindingOf(s, e).Some? && BuildDispose(s, x, target, msg, deferral, now).Write?
    requires Wrote(s, s', BuildDispose(s, x, target, msg, deferral, now).op)
    ensures FindingOf(s', e).Some?
    ensures MayChange(s, s', Dispose(x, target, msg, deferral, now), e, FindingOf(s, e).value, FindingOf(s', e).value)
  {
    HeadEntry(s, e);
    DisposeIff(s, x, target, msg, deferral, now);
    var extra := [Append(Dispositions, DispositionRow(x, target, msg.value.id))];
    UpdateEffect(s, s', x, FindingOf(s, x).value.(status := target), "dispose", None, now, extra, e);
    UpdateRows(s, x, FindingOf(s, x).value.(status := target), "dispose", None, now, extra);
  }

  lemma FoldChanges(s: Store, s': Store, x: EntryId, occ: Occurrence, kind: AttKind, now: nat, e: EntryId)
    requires LayerInv(s) && FindingOf(s, e).Some? && BuildAttribute(s, x, occ, kind, now).Write?
    requires Wrote(s, s', BuildAttribute(s, x, occ, kind, now).op)
    ensures FindingOf(s', e).Some?
    ensures var f, g := FindingOf(s, e).value, FindingOf(s', e).value;
            if x == e then SameRecord(f, g) else g == f
  {
    HeadEntry(s, e);
    var next := Folded(FindingOf(s, x).value, occ, Counts(kind), !RunAttributed(Rows(s, Ledger), x, occ.run));
    UpdateEffect(s, s', x, next, "attribute", occ.run, now, [Append(Ledger, LedgerLine(x, occ, kind))], e);
  }

  lemma RegressionChanges(s: Store, s': Store, x: EntryId, occ: Occurrence, now: nat, e: EntryId)
    requires LayerInv(s) && FindingOf(s, e).Some? && BuildRegression(s, x, occ, now).Write?
    requires Wrote(s, s', BuildRegression(s, x, occ, now).op)
    ensures FindingOf(s', e).Some?
    ensures var f, g := FindingOf(s, e).value, FindingOf(s', e).value;
            if x == e then ReopenedFrom(f, g) else g == f
  {
    HeadEntry(s, e);
    var folded := Folded(FindingOf(s, x).value, occ, true, !RunAttributed(Rows(s, Ledger), x, occ.run));
    UpdateEffect(s, s', x, Reopened(folded), "regression_reopen", occ.run, now,
                 [Append(Ledger, LedgerLine(x, occ, Regression))], e);
  }

  lemma RecurrenceChanges(s: Store, s': Store, x: EntryId, occ: Occurrence, now: nat, e: EntryId)
    requires LayerInv(s) && FindingOf(s, e).Some? && BuildRecurrence(s, x, occ, now).Write?
    requires Wrote(s, s', BuildRecurrence(s, x, occ, now).op)
    ensures FindingOf(s', e).Some?
    ensures MayChange(s, s', RecordRecurrence(x, occ, now), e, FindingOf(s, e).value, FindingOf(s', e).value)
  {
    if IsReleased(FindingOf(s, x).value.status) {
      RegressionChanges(s, s', x, occ, now, e);
    } else {
      FoldChanges(s, s', x, occ, Recurrence, now, e);
    }
  }

  /** An operation that does not rewrite the head of e. */
  lemma HeadStays(s: Store, s': Store, op: Intents, e: EntryId)
    requires Wrote(s, s', op)
    requires forall i :: 0 <= i < |op.rewrites| ==> op.rewrites[i].file != FindingHead(e)
    ensures FindingOf(s', e) == FindingOf(s, e)
  {
    assert Untouched(s, s', op, FindingHead(e));
  }

  lemma CaptureChanges(s: Store, s': Store, obs: Observation, e: EntryId)
    requires BuildCapture(s, obs).Write? && Wrote(s, s', BuildCapture(s, obs).op)
    ensures FindingOf(s', e) == FindingOf(s, e)
  {
    HeadStays(s, s', BuildCapture(s, obs).op, e);
  }

  lemma CreateChanges(s: Store, s': Store, finding: Finding, run: RunId, now: nat, e: EntryId)
    requires LayerInv(s) && FindingOf(s, e).Some? && Wrote(s, s', BuildCreate(s, finding, run, now).op)
    ensures FindingOf(s', e) == FindingOf(s, e)
  {
    assert FindingHead(e) in s.files;
    HeadStays(s, s', BuildCreate(s, finding, run, now).op, e);
  }

  lemma DeltaChanges(s: Store, s': Store, journal: seq<Line<JRecord>>, run: string, w: Option<string>, e: EntryId)
    requires BuildDelta(s, journal, run, w).Write? && Wrote(s, s', BuildDelta(s, journal, run, w).op)
    ensures FindingOf(s', e) == FindingOf(s, e)
  {
    DeltaSpares(s, journal, run, w, FindingHead(e));
    HeadStays(s, s', BuildDelta(s, journal, run, w).op, e);
  }

  lemma BaselineChanges(s: Store, s': Store, x: EntryId, now: nat, e: EntryId)
    requires LayerInv(s) && FindingOf(s, e).Some? && BuildBaseline(s, x, now).Write?
    requires Wrote(s, s', BuildBaseline(s, x, now).op)
    ensures FindingOf(s', e).Some?
    ensures MayChange(s, s', SetBaseline(x, now), e, FindingOf(s, e).value, FindingOf(s', e).value)
  {
    HeadEntry(s, e);
    var f := FindingOf(s, x).value;
    UpdateEffect(s, s', x, f.(baseline := Some(Baseline(f.tier, f.score))), "release_baseline", None, now, [], e);
  }

  lemma SurfaceChanges(s: Store, s': Store, x: EntryId, now: nat, e: EntryId)
    requires LayerInv(s) && FindingOf(s, e).Some? && BuildSurface(s, x, now).Write?
    requires Wrote(s, s', BuildSurface(s, x, now).op)
    ensures FindingOf(s', e).Some?
    ensures MayChange(s, s', Surface(x, now), e, FindingOf(s, e).value, FindingOf(s', e).value)
  {
    HeadEntry(s, e);
    UpdateEffect(s, s', x, FindingOf(s, x).value.(status := OperatorReview), "surface_for_review", None, now, [], e);
  }

  lemma EditChanges(s: Store, s': Store, x: EntryId, next: Finding, reason: string, run: RunId, now: nat, e: EntryId)
    requires FindingOf(s, e).Some? && BuildUpdate(s, x, next, reason, run, now).Write?
    requires Wrote(s, s', BuildUpdate(s, x, next, reason, run, now).op)
    ensures FindingOf(s', e).Some? && (x != e ==> FindingOf(s', e) == FindingOf(s, e))
  {
    UpdateEffect(s, s', x, next, reason, run, now, [], e);
  }

  /** What every request does to every finding. */
  lemma RequestChanges(s: Store, s': Store, journal: seq<Line<JRecord>>, r: Request, e: EntryId)
    requires LayerInv(s) && FindingOf(s, e).Some? && BuildOf(s, journal, r).Write?
    requires Wrote(s, s', BuildOf(s, journal, r).op)
    ensures FindingOf(s', e).Some?
    ensures !Edits(r, e) ==> MayChange(s, s', r, e, FindingOf(s, e).value, FindingOf(s', e).value)
  {
    match r
    case Attribute(x, occ, kind, now) => FoldChanges(s, s', x, occ, kind, now, e);
    case RecordRecurrence(x, occ, now) => RecurrenceChanges(s, s', x, occ, now, e);
    case RecordRegression(x, occ, now) => RegressionChanges(s, s', x, occ, now, e);
    case Dispose(x, target, msg, deferral, now) => DisposeChanges(s, s', x, target, msg, deferral, now, e);
    case SetBaseline(x, now) => BaselineChanges(s, s', x, now, e);
    case Surface(x, now) => SurfaceChanges(s, s', x, now, e);
    case UpdateFinding(x, next, reason, run, now) => EditChanges(s, s', x, next, reason, run, now, e);
    case Capture(obs) => CaptureChanges(s, s', obs, e);
    case CreateFinding(f, run, now) => CreateChanges(s, s', f, run, now, e);
    case GenerateDelta(run, w) => DeltaChanges(s, s', journal, run, w, e);
  }

  lemma EventChanges(d: Disk, event: Event, e: EntryId)
    requires Quiescent(d) && FindingOf(d.store, e).Some?
    ensures Quiescent(AfterEvent(d, event)) && FindingOf(AfterEvent(d, event).store, e).Some?
    ensures var s, s' := d.store, AfterEvent(d, event).store;
            s' == s || Edits(event.request, e)
            || MayChange(s, s', event.request, e, FindingOf(s, e).value, FindingOf(s', e).value)
    ensures Rows(d.store, Dispositions) <= Rows(AfterEvent(d, event).store, Dispositions)
  {
    EventKeeps(d, event);
    if AfterEvent(d, event).store != d.store {
      RequestChanges(d.store, AfterEvent(d, event).store, d.journal, event.request, e);
    }
  }

  // ---- What a request puts on record -------------------------------------------------------------------

  /** The finding that a request is about. */
  function About(s: Store, r: Request): Option<EntryId> {
    match r
    case Capture(_) => None
    case CreateFinding(_, _, _) => Some(LastEntry(s) + 1)
    case UpdateFinding(e, _, _, _, _) => Some(e)
    case Attribute(e, _, _, _) => Some(e)
    case RecordRecurrence(e, _, _) => Some(e)
    case RecordRegression(e, _, _) => Some(e)
    case SetBaseline(e, _) => Some(e)
    case Surface(e, _) => Some(e)
    case Dispose(e, _, _, _, _) => Some(e)
    case GenerateDelta(_, _) => None
  }

  /** The run that a request belongs to, and when it was made. */
  function MadeIn(r: Request): RunId {
    match r
    case CreateFinding(_, run, _) => run
    case UpdateFinding(_, _, _, run, _) => run
    case Attribute(_, occ, _, _) => occ.run
    case RecordRecurrence(_, occ, _) => occ.run
    case RecordRegression(_, occ, _) => occ.run
    case _ => None
  }

  predicate MadeAt(r: Request, now: nat) {
    match r
    case CreateFinding(_, _, at) => at == now
    case UpdateFinding(_, _, _, _, at) => at == now
    case Attribute(_, _, _, at) => at == now
    case RecordRecurrence(_, _, at) => at == now
    case RecordRegression(_, _, at) => at == now
    case SetBaseline(_, at) => at == now
    case Surface(_, at) => at == now
    case Dispose(_, _, _, _, at) => at == now
    case _ => false
  }

  /** The history of e has one more revision: the finding as it is now, by this run, at this time. */
  ghost predicate Revised(s: Store, s': Store, e: EntryId, run: RunId, now: nat) {
    var rows, rows' := Rows(s, History(e)), Rows(s', History(e));
    && |rows'| == |rows| + 1 && rows'[..|rows|] == rows
    && rows'[|rows|].RevisionRow?
    && rows'[|rows|].body.run == run && rows'[|rows|].body.at == now && rows'[|rows|].body.no == |rows| + 1
    && FindingOf(s', e) == Some(rows'[|rows|].body.record)
  }

  lemma UpdateRevises(s: Store, s': Store, e: EntryId, next: Finding, reason: string, run: RunId, now: nat,
                      extra: seq<Append>)
    requires LayerInv(s) && Wrote(s, s', Update(s, e, next, reason, run, now, extra).op)
    requires |extra| <= 1 && (|extra| == 1 ==> !extra[0].chain.History?)
    ensures Revised(s, s', e, run, now)
    ensures forall x :: x != e ==> Rows(s', History(x)) == Rows(s, History(x))
    ensures Rows(s', Ledger)
            == Rows(s, Ledger) + if |extra| == 1 && extra[0].chain == Ledger then [extra[0].row] else []
  {
    assert EntryInv(s, e);
    UpdateRows(s, e, next, reason, run, now, extra);
    NextNoIsLength(s, e);
    UpdateEffect(s, s', e, next, reason, run, now, extra, e);
  }

  lemma CreateRevises(s: Store, s': Store, finding: Finding, run: RunId, now: nat)
    requires LayerInv(s) && Wrote(s, s', BuildCreate(s, finding, run, now).op)
    ensures Revised(s, s', LastEntry(s) + 1, run, now)
    ensures forall x :: x != LastEntry(s) + 1 ==> Rows(s', History(x)) == Rows(s, History(x))
    ensures Rows(s', Ledger) == Rows(s, Ledger)
  {
    var e, f, op := LastEntry(s) + 1, finding.(entry := LastEntry(s) + 1), BuildCreate(s, finding, run, now).op;
    assert EntryInv(s, e) && FindingHead(e) !in s.files;
    OnlyRow(History(e), Revision(s, e, 1, f, "created", run, now));
    assert Get(s'.files, op.rewrites[0].file) == Some(op.rewrites[0].obj);
  }

  /** The kind under which an occurrence is logged; None if the request logs none. */
  function LogsAs(s: Store, r: Request): Option<(EntryId, Occurrence, AttKind)> {
    match r
    case Attribute(e, occ, kind, _) => Some((e, occ, kind))
    case RecordRegression(e, occ, _) => Some((e, occ, Regression))
    case RecordRecurrence(e, occ, _) =>
      var f := FindingOf(s, e);
      Some((e, occ, if f.Some? && (f.value.status.Released? || f.value.status.Monitoring?) then Regression
                    else Recurrence))
    case _ => None
  }

  /** The ledger has one more line, for this occurrence, or is as it was. */
  ghost predicate Logged(s: Store, s': Store, line: Option<(EntryId, Occurrence, AttKind)>) {
    match line
    case None => Rows(s', Ledger) == Rows(s, Ledger)
    case Some((e, occ, kind)) =>
      Rows(s', Ledger)
      == Rows(s, Ledger) + [LedgerRow(AttId(occ.id, e, kind), occ.id, occ.observation, e, kind, occ.run)]
  }

  /** What a request leaves in the history of e and on the ledger. */
  ghost predicate OnRecord(s: Store, s': Store, r: Request, e: EntryId, now: nat) {
    && (if About(s, r) == Some(e) then Revised(s, s', e, MadeIn(r), now)
        else Rows(s', History(e)) == Rows(s, History(e)))
    && Logged(s, s', LogsAs(s, r))
  }

  /**
   * Everything is on record.  A request that changes a finding extends its history by one revision with
   * the finding as it then is, the run and the time of the request, and no other history; an occurrence
   * that it folds in is on the ledger under its kind.
   */
  lemma RequestIsOnRecord(s: Store, s': Store, journal: seq<Line<JRecord>>, r: Request, e: EntryId, now: nat)
    requires LayerInv(s) && BuildOf(s, journal, r).Write? && Wrote(s, s', BuildOf(s, journal, r).op)
    requires About(s, r).Some? ==> MadeAt(r, now)
    ensures OnRecord(s, s', r, e, now)
  {
    if r.Capture? || r.GenerateDelta? || r.CreateFinding? {
      QuietOnRecord(s, s', journal, r, e, now);
    } else if r.Attribute? || r.RecordRegression? || r.RecordRecurrence? {
      FoldRevises(s, s', journal, r, now);
    } else {
      ReviewRevises(s, s', journal, r, now);
    }
  }

  lemma QuietOnRecord(s: Store, s': Store, journal: seq<Line<JRecord>>, r: Request, e: EntryId, now: nat)
    requires LayerInv(s) && BuildOf(s, journal, r).Write? && Wrote(s, s', BuildOf(s, journal, r).op)
    requires r.Capture? || r.GenerateDelta? || (r.CreateFinding? && MadeAt(r, now))
    ensures OnRecord(s, s', r, e, now)
  {
    match r
    case Capture(obs) => CaptureOnRecord(s, s', obs, e, now);
    case GenerateDelta(run, w) => DeltaOnRecord(s, s', journal, run, w, e, now);
    case CreateFinding(f, run, at) => CreateOnRecord(s, s', f, run, at, e);
  }

  lemma CaptureOnRecord(s: Store, s': Store, obs: Observation, e: EntryId, now: nat)
    requires BuildCapture(s, obs).Write? && Wrote(s, s', BuildCapture(s, obs).op)
    ensures OnRecord(s, s', Capture(obs), e, now)
  {
    CaptureAppends(s, obs, BuildCapture(s, obs).op, History(e));
    CaptureAppends(s, obs, BuildCapture(s, obs).op, Ledger);
  }

  /** A delta appends to no chained file. */
  lemma DeltaAppendsNothing(s: Store, journal: seq<Line<JRecord>>, run: string, w: Option<string>)
    requires BuildDelta(s, journal, run, w).Write?
    ensures BuildDelta(s, journal, run, w).op.appends == []
  {
  }

  lemma NoAppendsNoRows(s: Store, s': Store, op: Intents, p: Path)
    requires Wrote(s, s', op) && op.appends == []
    ensures Rows(s', p) == Rows(s, p)
  {
    assert RowsFor(op.appends, p) == [];
  }

  lemma DeltaOnRecord(s: Store, s': Store, journal: seq<Line<JRecord>>, run: string, w: Option<string>, e: EntryId,
                      now: nat)
    requires BuildDelta(s, journal, run, w).Write? && Wrote(s, s', BuildDelta(s, journal, run, w).op)
    ensures OnRecord(s, s', GenerateDelta(run, w), e, now)
  {
    var op := BuildDelta(s, journal, run, w).op;
    DeltaAppendsNothing(s, journal, run, w);
    NoAppendsNoRows(s, s', op, History(e));
    NoAppendsNoRows(s, s', op, Ledger);
  }

  lemma CreateOnRecord(s: Store, s': Store, finding: Finding, run: RunId, now: nat, e: EntryId)
    requires LayerInv(s) && Wrote(s, s', BuildCreate(s, finding, run, now).op)
    ensures OnRecord(s, s', CreateFinding(finding, run, now), e, now)
  {
    CreateRevises(s, s', finding, run, now);
  }

  lemma FoldRevises(s: Store, s': Store, journal: seq<Line<JRecord>>, r: Request, now: nat)
    requires LayerInv(s) && BuildOf(s, journal, r).Write? && Wrote(s, s', BuildOf(s, journal, r).op)
    requires r.Attribute? || r.RecordRegression? || r.RecordRecurrence?
    requires MadeAt(r, now)
    ensures Revised(s, s', r.entry, MadeIn(r), now) && Logged(s, s', LogsAs(s, r))
    ensures forall y :: y != r.entry ==> Rows(s', History(y)) == Rows(s, History(y))
  {
    match r
    case Attribute(x, occ, kind, at) => AttributeRevises(s, s', x, occ, kind, at);
    case RecordRegression(x, occ, at) => RegressionRevises(s, s', x, occ, at);
    case RecordRecurrence(x, occ, at) => RecurrenceRevises(s, s', x, occ, at);
  }

  lemma AttributeRevises(s: Store, s': Store, x: EntryId, occ: Occurrence, kind: AttKind, now: nat)
    requires LayerInv(s) && BuildAttribute(s, x, occ, kind, now).Write?
    requires Wrote(s, s', BuildAttribute(s, x, occ, kind, now).op)
    ensures Revised(s, s', x, occ.run, now) && Logged(s, s', Some((x, occ, kind)))
    ensures forall y :: y != x ==> Rows(s', History(y)) == Rows(s, History(y))
  {
    var next := Folded(FindingOf(s, x).value, occ, Counts(kind), !RunAttributed(Rows(s, Ledger), x, occ.run));
    UpdateRevises(s, s', x, next, "attribute", occ.run, now, [Append(Ledger, LedgerLine(x, occ, kind))]);
  }

  lemma RegressionRevises(s: Store, s': Store, x: EntryId, occ: Occurrence, now: nat)
    requires LayerInv(s) && BuildRegression(s, x, occ, now).Write?
    requires Wrote(s, s', BuildRegression(s, x, occ, now).op)
    ensures Revised(s, s', x, occ.run, now) && Logged(s, s', Some((x, occ, Regression)))
    ensures forall y :: y != x ==> Rows(s', History(y)) == Rows(s, History(y))
  {
    var folded := Folded(FindingOf(s, x).value, occ, true, !RunAttributed(Rows(s, Ledger), x, occ.run));
    UpdateRevises(s, s', x, Reopened(folded), "regression_reopen", occ.run, now,
                  [Append(Ledger, LedgerLine(x, occ, Regression))]);
  }

  lemma RecurrenceRevises(s: Store, s': Store, x: EntryId, occ: Occurrence, now: nat)
    requires LayerInv(s) && BuildRecurrence(s, x, occ, now).Write?
    requires Wrote(s, s', BuildRecurrence(s, x, occ, now).op)
    ensures Revised(s, s', x, occ.run, now) && Logged(s, s', LogsAs(s, RecordRecurrence(x, occ, now)))
    ensures forall y :: y != x ==> Rows(s', History(y)) == Rows(s, History(y))
  {
    if IsReleased(FindingOf(s, x).value.status) {
      RegressionRevises(s, s', x, occ, now);
    } else {
      AttributeRevises(s, s', x, occ, Recurrence, now);
    }
  }

  /** The entry alone has been revised, without a run, and the ledger is as it was. */
  ghost predicate RevisedAlone(s: Store, s': Store, x: EntryId, run: RunId, now: nat) {
    && Revised(s, s', x, run, now) && Logged(s, s', None)
    && forall y :: y != x ==> Rows(s', History(y)) == Rows(s, History(y))
  }

  lemma EditRevises(s: Store, s': Store, x: EntryId, next: Finding, reason: string, run: RunId, now: nat)
    requires LayerInv(s) && BuildUpdate(s, x, next, reason, run, now).Write?
    requires Wrote(s, s', BuildUpdate(s, x, next, reason, run, now).op)
    ensures RevisedAlone(s, s', x, run, now)
  {
    UpdateRevises(s, s', x, next, reason, run, now, []);
  }

  lemma BaselineRevises(s: Store, s': Store, x: EntryId, now: nat)
    requires LayerInv(s) && BuildBaseline(s, x, now).Write? && Wrote(s, s', BuildBaseline(s, x, now).op)
    ensures RevisedAlone(s, s', x, None, now)
  {
    var f := FindingOf(s, x).value;
    var next := f.(baseline := Some(Baseline(f.tier, f.score)));
    assert BuildBaseline(s, x, now) == Update(s, x, next, "release_baseline", None, now, []);
    UpdateRevises(s, s', x, next, "release_baseline", None, now, []);
  }

  lemma SurfaceRevises(s: Store, s': Store, x: EntryId, now: nat)
    requires LayerInv(s) && BuildSurface(s, x, now).Write? && Wrote(s, s', BuildSurface(s, x, now).op)
    ensures RevisedAlone(s, s', x, None, now)
  {
    var next := FindingOf(s, x).value.(status := OperatorReview);
    assert BuildSurface(s, x, now) == Update(s, x, next, "surface_for_review", None, now, []);
    UpdateRevises(s, s', x, next, "surface_for_review", None, now, []);
  }

  lemma DisposeRevises(s: Store, s': Store, x: EntryId, target: Status, msg: Option<Message>, deferral: bool, now: nat)
    requires LayerInv(s) && BuildDispose(s, x, target, msg, deferral, now).Write?
    requires Wrote(s, s', BuildDispose(s, x, target, msg, deferral, now).op)
    ensures RevisedAlone(s, s', x, None, now)
  {
    UpdateRevises(s, s', x, FindingOf(s, x).value.(status := target), "dispose", None, now,
                  [Append(Dispositions, DispositionRow(x, target, msg.value.id))]);
  }

  lemma ReviewRevises(s: Store, s': Store, journal: seq<Line<JRecord>>, r: Request, now: nat)
    requires LayerInv(s) && BuildOf(s, journal, r).Write? && Wrote(s, s', BuildOf(s, journal, r).op)
    requires r.UpdateFinding? || r.SetBaseline? || r.Surface? || r.Dispose?
    requires MadeAt(r, now)
    ensures RevisedAlone(s, s', r.entry, MadeIn(r), now)
  {
    match r
    case UpdateFinding(x, next, reason, run, at) => EditRevises(s, s', x, next, reason, run, at);
    case SetBaseline(x, at) => BaselineRevises(s, s', x, at);
    case Surface(x, at) => SurfaceRevises(s, s', x, at);
    case Dispose(x, target, msg, deferral, at) => DisposeRevises(s, s', x, target, msg, deferral, at);
  }

  // ---- Over whole runs --------------------------------------------------------------------------------------

  predicate NoEdits(events: seq<Event>, e: EntryId) {
    forall i :: 0 <= i < |events| ==> !Edits(events[i].request, e)
  }

  /** The statuses that stand for a decision of the operator. */
  predicate Decided(status: Status) {
    || status.ApprovedForPlanning? || status.Deferred? || status.Rejected? || status.AcceptedRisk?
    || status.Superseded? || status.NotReproducible? || status.Merged?
  }

  /** The operator said so, in a message that names the finding and is on record for this decision. */
  ghost predicate SaidSo(events: seq<Event>, dispositions: seq<Row>, e: EntryId, status: Status) {
    exists i :: 0 <= i < |events| && SaysSo(events[i].request, dispositions, e, status)
  }

  predicate SaysSo(r: Request, dispositions: seq<Row>, e: EntryId, status: Status) {
    && r.Dispose? && r.entry == e && r.target == status
    && r.msg.Some? && r.msg.value.fromOperator && e in r.msg.value.named
    && DispositionRow(e, status, r.msg.value.id) in dispositions
  }

  lemma SaidBefore(events: seq<Event>, first: Event, dispositions: seq<Row>, e: EntryId, status: Status)
    requires SaidSo(events, dispositions, e, status)
    ensures SaidSo([first] + events, dispositions, e, status)
  {
    var i :| 0 <= i < |events| && SaysSo(events[i].request, dispositions, e, status);
    assert ([first] + events)[i + 1] == events[i];
  }

  lemma {:induction false} RunChanges(d: Disk, events: seq<Event>, e: EntryId)
    requires Quiescent(d) && FindingOf(d.store, e).Some?
    ensures Quiescent(AfterEvents(d, events)) && FindingOf(AfterEvents(d, events).store, e).Some?
    ensures Rows(d.store, Dispositions) <= Rows(AfterEvents(d, events).store, Dispositions)
    decreases |events|
  {
    if events != [] {
      EventChanges(d, events[0], e);
      RunChanges(AfterEvent(d, events[0]), events[1..], e);
    }
  }

  /**
   * Only the operator decides.  Over any run of requests and crashes without a hand edit of the finding:
   * if it ends in a status that stands for a decision and did not start in it, a dispose request of the
   * run asked for that status with a message of the operator that names the finding, and the message is
   * on record for exactly this decision.
   */
  lemma {:induction false} OnlyTheOperatorDecides(d: Disk, events: seq<Event>, e: EntryId)
    requires Quiescent(d) && FindingOf(d.store, e).Some? && NoEdits(events, e)
    ensures var after := AfterEvents(d, events).store;
            && FindingOf(after, e).Some?
            && var status := FindingOf(after, e).value.status;
               Decided(status) && status != FindingOf(d.store, e).value.status ==>
                 SaidSo(events, Rows(after, Dispositions), e, status)
    decreases |events|
  {
    if events != [] {
      var d1, rest := AfterEvent(d, events[0]), events[1..];
      EventChanges(d, events[0], e);
      assert !Edits(events[0].request, e);
      OnlyTheOperatorDecides(d1, rest, e);
      RunChanges(d1, rest, e);
      DecidedStep(d.store, d1.store, AfterEvents(d1, rest).store, events, e);
    }
  }

  lemma DecidedStep(s: Store, s1: Store, after: Store, events: seq<Event>, e: EntryId)
    requires events != [] && FindingOf(s, e).Some? && FindingOf(s1, e).Some? && FindingOf(after, e).Some?
    requires s1 == s || MayChange(s, s1, events[0].request, e, FindingOf(s, e).value, FindingOf(s1, e).value)
    requires Rows(s1, Dispositions) <= Rows(after, Dispositions)
    requires var status := FindingOf(after, e).value.status;
             Decided(status) && status != FindingOf(s1, e).value.status ==>
               SaidSo(events[1..], Rows(after, Dispositions), e, status)
    ensures var status := FindingOf(after, e).value.status;
            Decided(status) && status != FindingOf(s, e).value.status ==>
              SaidSo(events, Rows(after, Dispositions), e, status)
  {
    var status := FindingOf(after, e).value.status;
    if Decided(status) && status != FindingOf(s, e).value.status {
      if status != FindingOf(s1, e).value.status {
        SaidBefore(events[1..], events[0], Rows(after, Dispositions), e, status);
        assert events == [events[0]] + events[1..];
      } else {
        DecidedNow(s, s1, events[0].request, e);
        OnRecordLater(events[0].request, Rows(s1, Dispositions), Rows(after, Dispositions), e, status);
      }
    }
  }

  lemma OnRecordLater(r: Request, dispositions: seq<Row>, later: seq<Row>, e: EntryId, status: Status)
    requires SaysSo(r, dispositions, e, status) && dispositions <= later
    ensures SaysSo(r, later, e, status)
  {
    var i :| 0 <= i < |dispositions| && dispositions[i] == DispositionRow(e, status, r.msg.value.id);
    assert later[i] == dispositions[i];
  }

  lemma DecidedNow(s: Store, s': Store, r: Request, e: EntryId)
    requires FindingOf(s, e).Some? && FindingOf(s', e).Some?
    requires MayChange(s, s', r, e, FindingOf(s, e).value, FindingOf(s', e).value)
    requires Decided(FindingOf(s', e).value.status) && FindingOf(s', e).value.status != FindingOf(s, e).value.status
    ensures SaysSo(r, Rows(s', Dispositions), e, FindingOf(s', e).value.status)
  {
    if r.Dispose? && r.entry == e {
      assert Rows(s', Dispositions)[|Rows(s, Dispositions)|] == DispositionRow(e, r.target, r.msg.value.id);
    }
  }

  /** The request set the baseline to what the finding had at that moment. */
  ghost predicate SetAt(d: Disk, events: seq<Event>, i: nat, e: EntryId, baseline: Baseline) {
    && i < |events| && events[i].request.SetBaseline? && events[i].request.entry == e
    && var f := FindingOf(AfterEvents(d, events[..i]).store, e);
       f.Some? && baseline == Baseline(f.value.tier, f.value.score)
  }

  lemma SetLater(d: Disk, first: Event, events: seq<Event>, i: nat, e: EntryId, baseline: Baseline)
    requires SetAt(AfterEvent(d, first), events, i, e, baseline)
    ensures SetAt(d, [first] + events, i + 1, e, baseline)
  {
    var all := [first] + events;
    assert all[..i + 1] == [first] + events[..i] && all[..i + 1][1..] == events[..i];
    assert AfterEvents(d, all[..i + 1]) == AfterEvents(AfterEvent(d, first), events[..i]);
  }

  ghost predicate SetDuring(d: Disk, events: seq<Event>, e: EntryId, baseline: Baseline) {
    exists i: nat :: SetAt(d, events, i, e, baseline)
  }

  lemma SetDuringLater(d: Disk, events: seq<Event>, e: EntryId, baseline: Baseline)
    requires events != [] && SetDuring(AfterEvent(d, events[0]), events[1..], e, baseline)
    ensures SetDuring(d, events, e, baseline)
  {
    var i: nat :| SetAt(AfterEvent(d, events[0]), events[1..], i, e, baseline);
    SetLater(d, events[0], events[1..], i, e, baseline);
    assert events == [events[0]] + events[1..];
  }

  lemma SetNow(d: Disk, events: seq<Event>, e: EntryId, baseline: Baseline)
    requires events != [] && events[0].request.SetBaseline? && events[0].request.entry == e
    requires FindingOf(d.store, e).Some?
    requires baseline == Baseline(FindingOf(d.store, e).value.tier, FindingOf(d.store, e).value.score)
    ensures SetDuring(d, events, e, baseline)
  {
    assert events[..0] == [];
    assert AfterEvents(d, []) == d;
    assert SetAt(d, events, 0, e, baseline);
  }

  /** A request that is no edit by hand keeps a baseline, or sets it to the current tier and score. */
  lemma BaselineStep(s: Store, s1: Store, r: Request, e: EntryId, f: Finding, f1: Finding)
    requires f1 == f || MayChange(s, s1, r, e, f, f1)
    ensures f.baseline.Some? ==> f1.baseline == f.baseline
    ensures f.baseline.None? && f1.baseline.Some? ==>
              r.SetBaseline? && r.entry == e && f1.baseline == Some(Baseline(f.tier, f.score))
  {
  }

  /**
   * The release baseline is set once.  Over any run without a hand edit of the finding, a baseline that
   * is there stays as it is; one that appears was set by a set_release_baseline request of the run, to
   * the tier and score that the finding had right before.
   */
  lemma {:induction false} BaselineIsSetOnce(d: Disk, events: seq<Event>, e: EntryId)
    requires Quiescent(d) && FindingOf(d.store, e).Some? && NoEdits(events, e)
    ensures FindingOf(AfterEvents(d, events).store, e).Some?
    ensures var before, after := FindingOf(d.store, e).value, FindingOf(AfterEvents(d, events).store, e).value;
            && (before.baseline.Some? ==> after.baseline == before.baseline)
            && (before.baseline.None? && after.baseline.Some? ==>
                  SetDuring(d, events, e, after.baseline.value))
    decreases |events|
  {
    if events != [] {
      var d1, rest := AfterEvent(d, events[0]), events[1..];
      EventChanges(d, events[0], e);
      assert !Edits(events[0].request, e);
      BaselineIsSetOnce(d1, rest, e);
      var f, f1 := FindingOf(d.store, e).value, FindingOf(d1.store, e).value;
      BaselineStep(d.store, d1.store, events[0].request, e, f, f1);
      var b := FindingOf(AfterEvents(d1, rest).store, e).value.baseline;
      if f.baseline.None? && b.Some? {
        if f1.baseline.None? {
          SetDuringLater(d, events, e, b.value);
        } else {
          SetNow(d, events, e, b.value);
        }
      }
    }
  }
}
