/**
 * Exactly-once accounting over whole runs: what the counters of a finding are worth in terms of the
 * attribution ledger (tools/clearwright_alf_synth.py), whatever crashes on the way.
 */
module AlfAccounting {
  import opened Wrappers
  import opened HashChain
  import opened AlfRecords
  import opened AlfJournal
  import opened AlfScoring
  import opened AlfLayers
  import opened AlfDelta
  import opened AlfRuns

  // ---- What the ledger says about one entry -------------------------------------------------

  predicate IsLineOf(row: Row, e: EntryId) {
    row.LedgerRow? && row.entry == e
  }

  function LinesOf(ledger: seq<Row>, e: EntryId): seq<Row> {
    if ledger == [] then []
    else
      var last := ledger[|ledger| - 1];
      LinesOf(ledger[..|ledger| - 1], e) + if IsLineOf(last, e) then [last] else []
  }

  /** The recurrence and regression lines of an entry. */
  function CountingLines(ledger: seq<Row>, e: EntryId): nat {
    if ledger == [] then 0
    else
      var last := ledger[|ledger| - 1];
      CountingLines(ledger[..|ledger| - 1], e) + if IsLineOf(last, e) && Counts(last.kind) then 1 else 0
  }

  function RunsOf(ledger: seq<Row>, e: EntryId): set<RunId> {
    set i | 0 <= i < |ledger| && IsLineOf(ledger[i], e) :: ledger[i].run
  }

  lemma RunsOfOneMore(ledger: seq<Row>, row: Row, e: EntryId)
    ensures RunsOf(ledger + [row], e) == RunsOf(ledger, e) + if IsLineOf(row, e) then {row.run} else {}
  {
    var after := ledger + [row];
    forall run ensures run in RunsOf(ledger, e) ==> run in RunsOf(after, e) {
      if run in RunsOf(ledger, e) {
        var i :| 0 <= i < |ledger| && IsLineOf(ledger[i], e) && ledger[i].run == run;
        assert after[i] == ledger[i];
      }
    }
    assert after[|ledger|] == row;
    assert forall i :: 0 <= i < |ledger| ==> after[i] == ledger[i];
  }

  lemma OneMoreLine(ledger: seq<Row>, row: Row, e: EntryId)
    ensures LinesOf(ledger + [row], e) == LinesOf(ledger, e) + if IsLineOf(row, e) then [row] else []
    ensures CountingLines(ledger + [row], e)
            == CountingLines(ledger, e) + if IsLineOf(row, e) && Counts(row.kind) then 1 else 0
    ensures |RunsOf(ledger + [row], e)|
            == |RunsOf(ledger, e)| + if IsLineOf(row, e) && !RunAttributed(ledger, e, row.run) then 1 else 0
  {
    assert (ledger + [row])[..|ledger|] == ledger;
    RunsOfOneMore(ledger, row, e);
    var runs := RunsOf(ledger, e);
    if !IsLineOf(row, e) {
      assert runs + {} == runs;
    } else {
      assert RunAttributed(ledger, e, row.run) <==> row.run in runs;
      if row.run in runs {
        assert runs + {row.run} == runs;
      }
    }
  }

  // ---- What a request folds into an entry -----------------------------------------------------

  /** One occurrence counted into an entry. */
  datatype Fold = Fold(occ: Occurrence, kind: AttKind)

  /** What a request attributes to entry e if its operation takes effect. */
  function FoldOf(s: Store, r: Request, e: EntryId): seq<Fold> {
    match r
    case Attribute(x, occ, kind, _) => if x == e then [Fold(occ, kind)] else []
    case RecordRecurrence(x, occ, _) =>
      if x != e then []
      else if FindingOf(s, x).Some? && IsReleased(FindingOf(s, x).value.status) then [Fold(occ, Regression)]
      else [Fold(occ, Recurrence)]
    case RecordRegression(x, occ, _) => if x == e then [Fold(occ, Regression)] else []
    case _ => []
  }

  /** The folds of a run, in order: those of the events whose operation took effect. */
  ghost function Accepted(d: Disk, events: seq<Event>, e: EntryId): seq<Fold>
    decreases |events|
  {
    if events == [] then []
    else
      var d1 := AfterEvent(d, events[0]);
      (if d1.store == d.store then [] else FoldOf(d.store, events[0].request, e)) + Accepted(d1, events[1..], e)
  }

  /** Counters that update_finding set by hand: the difference it made, beside the ledger. */
  datatype Edit = Edit(occurrences: int, runs: int, waste: Waste)
  {
    function Plus(other: Edit): Edit {
      Edit(occurrences + other.occurrences, runs + other.runs, waste.Plus(other.waste))
    }
  }

  const NO_EDIT := Edit(0, 0, NO_WASTE)

  function Minus(v: Waste, w: Waste): Waste {
    Waste(v.operatorMinutes - w.operatorMinutes, v.executionDelay - w.executionDelay, v.tokens - w.tokens,
          v.apiAttempts - w.apiAttempts, v.toolAttempts - w.toolAttempts, v.councilAttempts - w.councilAttempts)
  }

  function EditOf(s: Store, r: Request, e: EntryId): Edit {
    if r.UpdateFinding? && r.entry == e && FindingOf(s, e).Some? then
      var f := FindingOf(s, e).value;
      Edit(r.next.occurrences - f.occurrences, r.next.affectedRuns - f.affectedRuns, Minus(r.next.waste, f.waste))
    else NO_EDIT
  }

  /** The edits of a run: those of the events whose operation took effect. */
  ghost function Edits(d: Disk, events: seq<Event>, e: EntryId): Edit
    decreases |events|
  {
    if events == [] then NO_EDIT
    else
      var d1 := AfterEvent(d, events[0]);
      (if d1.store == d.store then NO_EDIT else EditOf(d.store, events[0].request, e)).Plus(Edits(d1, events[1..], e))
  }

  function FoldLines(e: EntryId, folds: seq<Fold>): seq<Row> {
    seq(|folds|, i requires 0 <= i < |folds| => LedgerLine(e, folds[i].occ, folds[i].kind))
  }

  function MetricsOf(folds: seq<Fold>): Waste {
    if folds == [] then NO_WASTE else folds[0].occ.metrics.Plus(MetricsOf(folds[1..]))
  }

  lemma {:induction false} MetricsConcat(a: seq<Fold>, b: seq<Fold>)
    ensures MetricsOf(a + b) == MetricsOf(a).Plus(MetricsOf(b))
  {
    if a == [] {
      assert a + b == b;
    } else {
      assert (a + b)[0] == a[0] && (a + b)[1..] == a[1..] + b;
      MetricsConcat(a[1..], b);
    }
  }

  /** What the ledger says about an entry. */
  datatype Tally = Tally(lines: seq<Row>, counting: int, runs: int)

  function TallyOf(ledger: seq<Row>, e: EntryId): Tally {
    Tally(LinesOf(ledger, e), CountingLines(ledger, e), |RunsOf(ledger, e)|)
  }

  /** The counters of f' are those of f plus the given folds and edits, and the ledger has the folds line by line. */
  predicate Balanced(f: Finding, f': Finding, t: Tally, t': Tally, e: EntryId, folds: seq<Fold>, edit: Edit) {
    && t'.lines == t.lines + FoldLines(e, folds)
    && f'.occurrences - f.occurrences == t'.counting - t.counting + edit.occurrences
    && f'.affectedRuns - f.affectedRuns == t'.runs - t.runs + edit.runs
    && f'.waste == f.waste.Plus(MetricsOf(folds)).Plus(edit.waste)
  }

  ghost predicate Accounted(s: Store, s': Store, e: EntryId, folds: seq<Fold>, edit: Edit) {
    && FindingOf(s, e).Some? && FindingOf(s', e).Some?
    && Balanced(FindingOf(s, e).value, FindingOf(s', e).value,
                TallyOf(Rows(s, Ledger), e), TallyOf(Rows(s', Ledger), e), e, folds, edit)
  }

  lemma LinesTrans(e: EntryId, tf: Tally, tg: Tally, th: Tally, fg: seq<Fold>, gh: seq<Fold>)
    requires tg.lines == tf.lines + FoldLines(e, fg) && th.lines == tg.lines + FoldLines(e, gh)
    ensures th.lines == tf.lines + FoldLines(e, fg + gh)
  {
  }

  lemma WasteSum(a: Waste, m: Waste, x: Waste, n: Waste, y: Waste)
    ensures a.Plus(m).Plus(x).Plus(n).Plus(y) == a.Plus(m.Plus(n)).Plus(x.Plus(y))
  {
  }

  lemma WasteTrans(a: Waste, b: Waste, c: Waste, fg: seq<Fold>, gh: seq<Fold>, x: Waste, y: Waste)
    requires b == a.Plus(MetricsOf(fg)).Plus(x) && c == b.Plus(MetricsOf(gh)).Plus(y)
    ensures c == a.Plus(MetricsOf(fg + gh)).Plus(x.Plus(y))
  {
    MetricsConcat(fg, gh);
    WasteSum(a, MetricsOf(fg), x, MetricsOf(gh), y);
  }

  lemma AccountedTrans(a: Store, b: Store, c: Store, e: EntryId, ab: seq<Fold>, bc: seq<Fold>, x: Edit, y: Edit)
    requires Accounted(a, b, e, ab, x) && Accounted(b, c, e, bc, y)
    ensures Accounted(a, c, e, ab + bc, x.Plus(y))
  {
    LinesTrans(e, TallyOf(Rows(a, Ledger), e), TallyOf(Rows(b, Ledger), e), TallyOf(Rows(c, Ledger), e), ab, bc);
    WasteTrans(FindingOf(a, e).value.waste, FindingOf(b, e).value.waste, FindingOf(c, e).value.waste, ab, bc,
               x.waste, y.waste);
  }

  predicate EditedBy(f: Finding, f': Finding, edit: Edit) {
    && f'.occurrences == f.occurrences + edit.occurrences && f'.affectedRuns == f.affectedRuns + edit.runs
    && f'.waste == f.waste.Plus(edit.waste)
  }

  lemma BalancedEdit(f: Finding, f': Finding, t: Tally, e: EntryId, edit: Edit)
    requires EditedBy(f, f', edit)
    ensures Balanced(f, f', t, t, e, [], edit)
  {
  }

  /** The ledger is as it was, or has one more line that belongs to another entry. */
  lemma AccountedEdit(s: Store, s': Store, e: EntryId, added: seq<Row>, edit: Edit)
    requires FindingOf(s, e).Some? && FindingOf(s', e).Some?
    requires EditedBy(FindingOf(s, e).value, FindingOf(s', e).value, edit)
    requires Rows(s', Ledger) == Rows(s, Ledger) + added
    requires |added| <= 1 && (|added| == 1 ==> !IsLineOf(added[0], e))
    ensures Accounted(s, s', e, [], edit)
  {
    BalancedEdit(FindingOf(s, e).value, FindingOf(s', e).value, TallyOf(Rows(s, Ledger), e), e, edit);
    if added == [] {
      assert Rows(s', Ledger) == Rows(s, Ledger);
    } else {
      assert added == [added[0]];
      OneMoreLine(Rows(s, Ledger), added[0], e);
    }
  }

  /** A finding update, seen from any entry. */
  lemma UpdateEffect(s: Store, s': Store, x: EntryId, next: Finding, reason: string, run: RunId, now: nat,
                     extra: seq<Append>, e: EntryId)
    requires Wrote(s, s', Update(s, x, next, reason, run, now, extra).op)
    requires |extra| <= 1 && (|extra| == 1 ==> !extra[0].chain.History?)
    ensures FindingOf(s', e) == if e == x then Some(next.(entry := x)) else FindingOf(s, e)
    ensures Rows(s', Ledger)
            == Rows(s, Ledger) + if |extra| == 1 && extra[0].chain == Ledger then [extra[0].row] else []
  {
    var op := Update(s, x, next, reason, run, now, extra).op;
    var own := op.appends[0];
    if extra == [] {
      assert op.appends == [own];
      RowsForTwo(own, own, Ledger);
    } else {
      assert op.appends == [own, extra[0]];
      RowsForTwo(own, extra[0], Ledger);
      RowsForTwo(extra[0], own, Ledger);
    }
    assert op.rewrites == [Replace(FindingHead(x), FindingObj(next.(entry := x)))];
    assert Get(s'.files, op.rewrites[0].file) == Some(op.rewrites[0].obj);
    assert Untouched(s, s', op, FindingHead(e));
  }

  /** One fold and its line balance the counters of the entry. */
  lemma BalancedFold(f: Finding, f': Finding, ledger: seq<Row>, e: EntryId, fold: Fold)
    requires var folded := Folded(f, fold.occ, Counts(fold.kind), !RunAttributed(ledger, e, fold.occ.run));
             f'.occurrences == folded.occurrences && f'.affectedRuns == folded.affectedRuns
             && f'.waste == folded.waste
    ensures Balanced(f, f', TallyOf(ledger, e), TallyOf(ledger + [LedgerLine(e, fold.occ, fold.kind)], e),
                     e, [fold], NO_EDIT)
  {
    OneMoreLine(ledger, LedgerLine(e, fold.occ, fold.kind), e);
    assert [fold][1..] == [];
    assert MetricsOf([fold]) == fold.occ.metrics;
    assert FoldLines(e, [fold]) == [LedgerLine(e, fold.occ, fold.kind)];
  }

  /** An update that folds one occurrence in and logs it. */
  lemma FoldEffect(s: Store, s': Store, x: EntryId, next: Finding, reason: string, now: nat, fold: Fold, e: EntryId)
    requires FindingOf(s, x).Some? && FindingOf(s, e).Some?
    requires Wrote(s, s', Update(s, x, next, reason, fold.occ.run, now,
                                 [Append(Ledger, LedgerLine(x, fold.occ, fold.kind))]).op)
    requires var folded := Folded(FindingOf(s, x).value, fold.occ, Counts(fold.kind),
                                  !RunAttributed(Rows(s, Ledger), x, fold.occ.run));
             next.occurrences == folded.occurrences && next.affectedRuns == folded.affectedRuns
             && next.waste == folded.waste
    ensures Accounted(s, s', e, if x == e then [fold] else [], NO_EDIT)
  {
    var row := LedgerLine(x, fold.occ, fold.kind);
    UpdateEffect(s, s', x, next, reason, fold.occ.run, now, [Append(Ledger, row)], e);
    if x == e {
      BalancedFold(FindingOf(s, e).value, FindingOf(s', e).value, Rows(s, Ledger), e, fold);
    } else {
      AccountedEdit(s, s', e, [row], NO_EDIT);
    }
  }

  lemma AttributeAccounts(s: Store, s': Store, x: EntryId, occ: Occurrence, kind: AttKind, now: nat, e: EntryId)
    requires FindingOf(s, e).Some? && BuildAttribute(s, x, occ, kind, now).Write?
    requires Wrote(s, s', BuildAttribute(s, x, occ, kind, now).op)
    ensures Accounted(s, s', e, if x == e then [Fold(occ, kind)] else [], NO_EDIT)
  {
    var next := Folded(FindingOf(s, x).value, occ, Counts(kind), !RunAttributed(Rows(s, Ledger), x, occ.run));
    FoldEffect(s, s', x, next, "attribute", now, Fold(occ, kind), e);
  }

  lemma RegressionAccounts(s: Store, s': Store, x: EntryId, occ: Occurrence, now: nat, e: EntryId)
    requires FindingOf(s, e).Some? && BuildRegression(s, x, occ, now).Write?
    requires Wrote(s, s', BuildRegression(s, x, occ, now).op)
    ensures Accounted(s, s', e, if x == e then [Fold(occ, Regression)] else [], NO_EDIT)
  {
    var folded := Folded(FindingOf(s, x).value, occ, true, !RunAttributed(Rows(s, Ledger), x, occ.run));
    FoldEffect(s, s', x, Reopened(folded), "regression_reopen", now, Fold(occ, Regression), e);
  }

  /** An update of entry x that keeps the counters and writes no ledger line. */
  lemma UpdateAccounts(s: Store, s': Store, x: EntryId, next: Finding, reason: string, now: nat, extra: seq<Append>,
                       e: EntryId)
    requires FindingOf(s, e).Some? && FindingOf(s, x).Some? && EditedBy(FindingOf(s, x).value, next, NO_EDIT)
    requires Wrote(s, s', Update(s, x, next, reason, None, now, extra).op)
    requires |extra| <= 1 && (|extra| == 1 ==> extra[0].chain == Dispositions)
    ensures Accounted(s, s', e, [], NO_EDIT)
  {
    UpdateEffect(s, s', x, next, reason, None, now, extra, e);
    AccountedEdit(s, s', e, [], NO_EDIT);
  }

  /** An operation that touches neither the ledger nor the head of e. */
  lemma AwayAccounts(s: Store, s': Store, op: Intents, e: EntryId)
    requires FindingOf(s, e).Some? && Wrote(s, s', op) && RowsFor(op.appends, Ledger) == []
    requires forall i :: 0 <= i < |op.rewrites| ==> op.rewrites[i].file != FindingHead(e)
    ensures Accounted(s, s', e, [], NO_EDIT)
  {
    assert Untouched(s, s', op, FindingHead(e));
    AccountedEdit(s, s', e, [], NO_EDIT);
  }

  lemma CaptureAccounts(s: Store, s': Store, obs: Observation, e: EntryId)
    requires FindingOf(s, e).Some? && BuildCapture(s, obs).Write? && Wrote(s, s', BuildCapture(s, obs).op)
    ensures Accounted(s, s', e, [], NO_EDIT)
  {
    CaptureAppends(s, obs, BuildCapture(s, obs).op, Ledger);
    AwayAccounts(s, s', BuildCapture(s, obs).op, e);
  }

  lemma CreateAccounts(s: Store, s': Store, finding: Finding, run: RunId, now: nat, e: EntryId)
    requires LayerInv(s) && FindingOf(s, e).Some? && Wrote(s, s', BuildCreate(s, finding, run, now).op)
    ensures Accounted(s, s', e, [], NO_EDIT)
  {
    var op := BuildCreate(s, finding, run, now).op;
    RowsForTwo(op.appends[0], op.appends[0], Ledger);
    assert op.appends == [op.appends[0]];
    AwayAccounts(s, s', op, e);
  }

  lemma DisposeAccounts(s: Store, s': Store, x: EntryId, target: Status, msg: Option<Message>, deferral: bool,
                        now: nat, e: EntryId)
    requires FindingOf(s, e).Some? && BuildDispose(s, x, target, msg, deferral, now).Write?
    requires Wrote(s, s', BuildDispose(s, x, target, msg, deferral, now).op)
    ensures Accounted(s, s', e, [], NO_EDIT)
  {
    UpdateAccounts(s, s', x, FindingOf(s, x).value.(status := target), "dispose", now,
                   [Append(Dispositions, DispositionRow(x, target, msg.value.id))], e);
  }

  lemma DeltaAccounts(s: Store, s': Store, journal: seq<Line<JRecord>>, run: string, w: Option<string>, e: EntryId)
    requires FindingOf(s, e).Some? && BuildDelta(s, journal, run, w).Write?
    requires Wrote(s, s', BuildDelta(s, journal, run, w).op)
    ensures Accounted(s, s', e, [], NO_EDIT)
  {
    AwayAccounts(s, s', BuildDelta(s, journal, run, w).op, e);
  }

  /** A request that leaves the ledger and every counter alone. */
  lemma OthersAccount(s: Store, s': Store, journal: seq<Line<JRecord>>, r: Request, e: EntryId)
    requires LayerInv(s) && FindingOf(s, e).Some? && BuildOf(s, journal, r).Write?
    requires Wrote(s, s', BuildOf(s, journal, r).op)
    requires r.SetBaseline? || r.Surface? || r.Dispose?
    ensures Accounted(s, s', e, [], NO_EDIT)
  {
    match r
    case SetBaseline(x, now) =>
      var f := FindingOf(s, x).value;
      UpdateAccounts(s, s', x, f.(baseline := Some(Baseline(f.tier, f.score))), "release_baseline", now, [], e);
    case Surface(x, now) =>
      UpdateAccounts(s, s', x, FindingOf(s, x).value.(status := OperatorReview), "surface_for_review", now, [], e);
    case Dispose(x, target, msg, deferral, now) =>
      DisposeAccounts(s, s', x, target, msg, deferral, now, e);
  }

  lemma RecurrenceAccounts(s: Store, s': Store, x: EntryId, occ: Occurrence, now: nat, e: EntryId)
    requires FindingOf(s, e).Some? && BuildRecurrence(s, x, occ, now).Write?
    requires Wrote(s, s', BuildRecurrence(s, x, occ, now).op)
    ensures Accounted(s, s', e, FoldOf(s, RecordRecurrence(x, occ, now), e), NO_EDIT)
  {
    if IsReleased(FindingOf(s, x).value.status) {
      RegressionAccounts(s, s', x, occ, now, e);
    } else {
      AttributeAccounts(s, s', x, occ, Recurrence, now, e);
    }
  }

  lemma EditAccounts(s: Store, s': Store, x: EntryId, next: Finding, reason: string, run: RunId, now: nat, e: EntryId)
    requires FindingOf(s, e).Some? && BuildUpdate(s, x, next, reason, run, now).Write?
    requires Wrote(s, s', BuildUpdate(s, x, next, reason, run, now).op)
    ensures Accounted(s, s', e, [], EditOf(s, UpdateFinding(x, next, reason, run, now), e))
  {
    UpdateEffect(s, s', x, next, reason, run, now, [], e);
    AccountedEdit(s, s', e, [], EditOf(s, UpdateFinding(x, next, reason, run, now), e));
  }

  lemma RequestAccounts(s: Store, s': Store, journal: seq<Line<JRecord>>, r: Request, e: EntryId)
    requires LayerInv(s) && FindingOf(s, e).Some? && BuildOf(s, journal, r).Write?
    requires Wrote(s, s', BuildOf(s, journal, r).op)
    ensures Accounted(s, s', e, FoldOf(s, r, e), EditOf(s, r, e))
  {
    match r
    case Attribute(_, _, _, _) => FoldsAccount(s, s', journal, r, e);
    case RecordRecurrence(_, _, _) => FoldsAccount(s, s', journal, r, e);
    case RecordRegression(_, _, _) => FoldsAccount(s, s', journal, r, e);
    case UpdateFinding(x, next, reason, run, now) => EditAccounts(s, s', x, next, reason, run, now, e);
    case Capture(_) => QuietAccounts(s, s', journal, r, e);
    case CreateFinding(_, _, _) => QuietAccounts(s, s', journal, r, e);
    case GenerateDelta(_, _) => QuietAccounts(s, s', journal, r, e);
    case _ => OthersAccount(s, s', journal, r, e);
  }

  lemma FoldsAccount(s: Store, s': Store, journal: seq<Line<JRecord>>, r: Request, e: EntryId)
    requires LayerInv(s) && FindingOf(s, e).Some? && BuildOf(s, journal, r).Write?
    requires Wrote(s, s', BuildOf(s, journal, r).op)
    requires r.Attribute? || r.RecordRecurrence? || r.RecordRegression?
    ensures Accounted(s, s', e, FoldOf(s, r, e), NO_EDIT)
  {
    match r
    case Attribute(x, occ, kind, now) => AttributeAccounts(s, s', x, occ, kind, now, e);
    case RecordRecurrence(x, occ, now) => RecurrenceAccounts(s, s', x, occ, now, e);
    case RecordRegression(x, occ, now) => RegressionAccounts(s, s', x, occ, now, e);
  }

  lemma QuietAccounts(s: Store, s': Store, journal: seq<Line<JRecord>>, r: Request, e: EntryId)
    requires LayerInv(s) && FindingOf(s, e).Some? && BuildOf(s, journal, r).Write?
    requires Wrote(s, s', BuildOf(s, journal, r).op)
    requires r.Capture? || r.CreateFinding? || r.GenerateDelta?
    ensures Accounted(s, s', e, [], NO_EDIT)
  {
    match r
    case Capture(obs) => CaptureAccounts(s, s', obs, e);
    case CreateFinding(f, run, now) => CreateAccounts(s, s', f, run, now, e);
    case GenerateDelta(run, w) => DeltaAccounts(s, s', journal, run, w, e);
  }

  /**
   * Exactly-once accounting.  Over any run of requests with any crashes, the ledger lines of an entry
   * grow by exactly the accepted attributions, its occurrence count by its recurrence and regression
   * lines, its affected runs by its distinct run ids, and its waste by the attributed metrics; what
   * update_finding wrote into the counters comes on top, and is all that does.
   */
  lemma {:induction false} RunsAccount(d: Disk, events: seq<Event>, e: EntryId)
    requires Quiescent(d) && FindingOf(d.store, e).Some?
    ensures Accounted(d.store, AfterEvents(d, events).store, e, Accepted(d, events, e), Edits(d, events, e))
    ensures LedgerInv(AfterEvents(d, events).store)
    decreases |events|
  {
    if events == [] {
      AccountedEdit(d.store, d.store, e, [], NO_EDIT);
    } else {
      var d1 := AfterEvent(d, events[0]);
      EventKeeps(d, events[0]);
      var first := if d1.store == d.store then [] else FoldOf(d.store, events[0].request, e);
      var edit := if d1.store == d.store then NO_EDIT else EditOf(d.store, events[0].request, e);
      if d1.store == d.store {
        AccountedEdit(d.store, d1.store, e, [], NO_EDIT);
      } else {
        RequestAccounts(d.store, d1.store, d.journal, events[0].request, e);
      }
      RunsAccount(d1, events[1..], e);
      AccountedTrans(d.store, d1.store, AfterEvents(d, events).store, e,
                     first, Accepted(d1, events[1..], e), edit, Edits(d1, events[1..], e));
    }
  }

  // ---- Replays ---------------------------------------------------------------------------------

  /** Replaying an accepted attribution of a given type is a no-op. */
  lemma AttributeReplayIsNoop(s: Store, s': Store, e: EntryId, occ: Occurrence, kind: AttKind, now: nat, later: nat)
    requires BuildAttribute(s, e, occ, kind, now).Write? && Wrote(s, s', BuildAttribute(s, e, occ, kind, now).op)
    ensures BuildAttribute(s', e, occ, kind, later).Noop?
  {
    var next := Folded(FindingOf(s, e).value, occ, Counts(kind), !RunAttributed(Rows(s, Ledger), e, occ.run));
    var line := LedgerLine(e, occ, kind);
    UpdateEffect(s, s', e, next, "attribute", occ.run, now, [Append(Ledger, line)], e);
    assert Rows(s', Ledger)[|Rows(s, Ledger)|] == line;
  }

  /** The kind of line record_recurrence logs for a finding with a given status. */
  function LoggedKind(status: Status): AttKind {
    if IsReleased(status) then Regression else Recurrence
  }

  /** An accepted record_recurrence logs its line. */
  lemma RecurrenceLogs(s: Store, s': Store, e: EntryId, occ: Occurrence, now: nat)
    requires BuildRecurrence(s, e, occ, now).Write? && Wrote(s, s', BuildRecurrence(s, e, occ, now).op)
    ensures Rows(s', Ledger) == Rows(s, Ledger) + [LedgerLine(e, occ, LoggedKind(FindingOf(s, e).value.status))]
    ensures FindingOf(s', e).Some? && !IsReleased(FindingOf(s', e).value.status)
  {
    var f := FindingOf(s, e).value;
    var folded := Folded(f, occ, true, !RunAttributed(Rows(s, Ledger), e, occ.run));
    var line := LedgerLine(e, occ, LoggedKind(f.status));
    if IsReleased(f.status) {
      UpdateEffect(s, s', e, Reopened(folded), "regression_reopen", occ.run, now, [Append(Ledger, line)], e);
    } else {
      UpdateEffect(s, s', e, folded, "attribute", occ.run, now, [Append(Ledger, line)], e);
    }
  }

  /**
   * Replaying record_recurrence in any later store counts the same occurrence a second time exactly
   * when the finding has changed sides in between, from released to not released or back, and the
   * pair has no line of the kind that is logged on the new side.
   */
  lemma RecurrenceReplayCountsIff(s: Store, s': Store, t: Store, e: EntryId, occ: Occurrence, now: nat, later: nat)
    requires BuildRecurrence(s, e, occ, now).Write? && Wrote(s, s', BuildRecurrence(s, e, occ, now).op)
    requires Rows(s', Ledger) <= Rows(t, Ledger) && FindingOf(t, e).Some?
    ensures var before, after := FindingOf(s, e).value.status, FindingOf(t, e).value.status;
            BuildRecurrence(t, e, occ, later).Write?
            <==> IsReleased(before) != IsReleased(after)
                 && !LedgerHas(Rows(t, Ledger), AttId(occ.id, e, LoggedKind(after)))
    ensures BuildRecurrence(t, e, occ, later).Write? || BuildRecurrence(t, e, occ, later).Noop?
  {
    RecurrenceLogs(s, s', e, occ, now);
    assert Rows(t, Ledger)[|Rows(s, Ledger)|] == LedgerLine(e, occ, LoggedKind(FindingOf(s, e).value.status));
  }

  /** An immediate replay counts again exactly when the first call reopened a released finding. */
  lemma ImmediateReplayCountsIff(s: Store, s': Store, e: EntryId, occ: Occurrence, now: nat, later: nat)
    requires BuildRecurrence(s, e, occ, now).Write? && Wrote(s, s', BuildRecurrence(s, e, occ, now).op)
    ensures BuildRecurrence(s', e, occ, later).Write?
            <==> IsReleased(FindingOf(s, e).value.status) && !LedgerHas(Rows(s, Ledger), AttId(occ.id, e, Recurrence))
  {
    RecurrenceLogs(s, s', e, occ, now);
    RecurrenceReplayCountsIff(s, s', s', e, occ, now, later);
    if IsReleased(FindingOf(s, e).value.status) {
      LedgerHasOneMore(Rows(s, Ledger), LedgerLine(e, occ, Regression), AttId(occ.id, e, Recurrence));
    }
  }

  lemma LedgerHasOneMore(ledger: seq<Row>, row: Row, id: AttId)
    requires row.LedgerRow? && row.attribution != id
    ensures LedgerHas(ledger + [row], id) <==> LedgerHas(ledger, id)
  {
    assert forall i :: 0 <= i < |ledger| ==> (ledger + [row])[i] == ledger[i];
  }

  // ---- The regression floor --------------------------------------------------------------------

  /** The finding that record_regression stores is never less urgent than its release baseline. */
  lemma StoredRegressionFloor(s: Store, s': Store, e: EntryId, occ: Occurrence, now: nat)
    requires BuildRegression(s, e, occ, now).Write? && Wrote(s, s', BuildRegression(s, e, occ, now).op)
    ensures FindingOf(s', e).Some?
    ensures var f, g := FindingOf(s, e).value, FindingOf(s', e).value;
            && g.status.Prioritized? && g.tier.Some? && g.score.Some? && g.baseline == f.baseline
            && (f.baseline.Some? && f.baseline.value.tier.Some? ==> g.tier.value <= f.baseline.value.tier.value)
            && (f.baseline.Some? && f.baseline.value.tier.Some? && f.baseline.value.score.Some? ==>
                  AtLeastAsUrgent(Priority(g.tier.value, g.score.value),
                                  Priority(f.baseline.value.tier.value, f.baseline.value.score.value)))
            && AtLeastAsUrgent(Priority(g.tier.value, g.score.value),
                               Priority(AssignTier(VectorOf(g)), ComputeScore(g, g.occurrences, true)))
            && MadeOf(Priority(g.tier.value, g.score.value),
                      Priority(AssignTier(VectorOf(g)), ComputeScore(g, g.occurrences, true)), f.baseline)
  {
    var f := FindingOf(s, e).value;
    var folded := Folded(f, occ, true, !RunAttributed(Rows(s, Ledger), e, occ.run));
    UpdateEffect(s, s', e, Reopened(folded), "regression_reopen", occ.run, now,
                 [Append(Ledger, LedgerLine(e, occ, Regression))], e);
    RegressionFloor(Priority(AssignTier(VectorOf(folded)), ComputeScore(folded, folded.occurrences, true)), f.baseline);
  }
}
