/**
 * What a Run Improvement Delta says, in terms of the rows of the stores: which findings and
 * observations are new, whose priority and waste have moved and from where to where, and which
 * regressions were seen.
 */
module AlfDeltaContent {
  import opened Wrappers
  import opened HashChain
  import opened AlfRecords
  import opened AlfJournal
  import opened AlfPost
  import opened AlfLayers
  import opened AlfDelta
  import opened AlfRuns

  // ---- A run in the history of a finding ------------------------------------------------------------

  predicate OfRun(history: seq<Row>, run: RunId, i: nat) {
    i < |history| && history[i].RevisionRow? && history[i].body.run == run
  }

  /** The run made revision i of the finding, and none before it. */
  predicate FirstOfRun(history: seq<Row>, run: RunId, i: nat) {
    OfRun(history, run, i) && forall j: nat :: j < i ==> !OfRun(history, run, j)
  }

  predicate LastOfRun(history: seq<Row>, run: RunId, i: nat) {
    OfRun(history, run, i) && forall j: nat :: i < j < |history| ==> !OfRun(history, run, j)
  }

  ghost predicate Touches(history: seq<Row>, run: RunId) {
    exists i: nat :: OfRun(history, run, i)
  }

  /** The finding did not exist before the run. */
  predicate BornIn(history: seq<Row>, run: RunId) {
    OfRun(history, run, 0)
  }

  /** Tier and score of the record at i, and of nothing. */
  function PriorityAt(history: seq<Row>, i: int): (Option<int>, Option<int>) {
    if 0 <= i < |history| && history[i].RevisionRow? then (history[i].body.record.tier, history[i].body.record.score)
    else (None, None)
  }

  function WasteAt(history: seq<Row>, i: int): Waste {
    if 0 <= i < |history| && history[i].RevisionRow? then history[i].body.record.waste else NO_WASTE
  }

  /** The run took the priority from what it was just before it to what it was at its last revision. */
  ghost predicate PriorityMoved(history: seq<Row>, run: RunId, c: PriorityChange) {
    exists first: nat, last: nat :: FirstOfRun(history, run, first) && LastOfRun(history, run, last)
      && PriorityAt(history, first - 1) == (c.oldTier, c.oldScore)
      && PriorityAt(history, last) == (c.newTier, c.newScore)
      && (c.oldTier, c.oldScore) != (c.newTier, c.newScore)
  }

  ghost predicate WasteMoved(history: seq<Row>, run: RunId, c: WasteChange) {
    exists first: nat, last: nat :: FirstOfRun(history, run, first) && LastOfRun(history, run, last)
      && WasteAt(history, first - 1) == c.before && WasteAt(history, last) == c.after && c.before != c.after
  }

  // ---- What the derivation computes from a history ----------------------------------------------------

  predicate Revisions(rows: seq<Row>) {
    forall i :: 0 <= i < |rows| ==> rows[i].RevisionRow?
  }

  /** A revision with a greater number becomes the endpoint and leaves the first number alone. */
  lemma NextRevision(revs: seq<Row>, row: Row)
    requires Revisions(revs) && row.RevisionRow?
    requires revs != [] ==> Endpoint(revs).RevisionRow? && Endpoint(revs).body.no < row.body.no
                            && FirstNo(revs) <= row.body.no
    ensures Endpoint(revs + [row]) == row
    ensures FirstNo(revs + [row]) == if revs == [] then row.body.no else FirstNo(revs)
  {
    assert (revs + [row])[..|revs|] == revs;
  }

  /** The revisions of the run reach from number first + 1 to the one at last. */
  ghost predicate Spans(history: seq<Row>, run: RunId, revs: seq<Row>, first: nat, last: nat) {
    && Revisions(revs) && revs != []
    && FirstOfRun(history, run, first) && LastOfRun(history, run, last)
    && FirstNo(revs) == first + 1 && Endpoint(revs) == history[last]
  }

  lemma {:induction false} RunRevisionsMean(history: seq<Row>, run: RunId) returns (first: nat, last: nat)
    requires Numbered(history)
    ensures RunRevisions(history, run) == [] <==> !Touches(history, run)
    ensures Touches(history, run) ==> Spans(history, run, RunRevisions(history, run), first, last)
    decreases |history|
  {
    first, last := 0, 0;
    if history != [] {
      var n := |history| - 1;
      var before := history[..n];
      first, last := RunRevisionsMean(before, run);
      SameRun(history, run);
      var revs := RunRevisions(before, run);
      if OfRun(history, run, n) {
        assert RunRevisions(history, run) == revs + [history[n]];
        NextRevision(revs, history[n]);
        first := if Touches(before, run) then first else n;
        last := n;
      } else {
        assert RunRevisions(history, run) == revs;
      }
    }
  }

  lemma SameRun(history: seq<Row>, run: RunId)
    requires history != []
    ensures var before := history[..|history| - 1];
            && (forall i: nat :: i < |before| ==> (OfRun(before, run, i) <==> OfRun(history, run, i)))
            && (Touches(history, run) <==> Touches(before, run) || OfRun(history, run, |history| - 1))
  {
    var before := history[..|history| - 1];
    if Touches(history, run) {
      var i: nat :| OfRun(history, run, i);
      assert i < |before| ==> OfRun(before, run, i);
    }
    if Touches(before, run) {
      var i: nat :| OfRun(before, run, i);
      assert OfRun(history, run, i);
    }
  }

  lemma {:induction false} FilterBelow(history: seq<Row>, no: nat)
    requires Numbered(history) && 1 <= no
    ensures Filter(history, (r: Row) => r.RevisionRow? && r.body.no < no)
            == history[..if no - 1 <= |history| then no - 1 else |history|]
    decreases |history|
  {
    if history != [] {
      var n := |history| - 1;
      FilterBelow(history[..n], no);
      if no - 1 <= n {
        assert history[..n][..no - 1] == history[..no - 1];
      } else {
        assert history == history[..n] + [history[n]];
      }
    }
  }

  /** The baseline is the record just before the run's first revision. */
  lemma BaselineMeans(history: seq<Row>, e: EntryId, first: nat)
    requires Numbered(history) && first < |history|
    ensures var b := BaselineOf(history, e, first + 1);
            && b.entry == e
            && (b.status.None? <==> first == 0)
            && (first == 0 ==> b.tier.None?)
            && (b.tier, b.score) == PriorityAt(history, first - 1)
            && b.waste == WasteAt(history, first - 1)
  {
    FilterBelow(history, first + 1);
    if first > 0 {
      assert history[..first][first - 1] == history[first - 1];
    }
  }

  // ---- The references to findings -----------------------------------------------------------------------

  /** What the snapshot records about one entry. */
  ghost predicate Referenced(s: Store, run: RunId, e: EntryId, ref: RevRef, base: BaseRef) {
    exists first: nat, last: nat ::
      && FirstOfRun(Rows(s, History(e)), run, first) && LastOfRun(Rows(s, History(e)), run, last)
      && ref == RevRef(e, Rows(s, History(e))[last].body.no, Rows(s, History(e))[last].revisionSha)
      && base == BaselineOf(Rows(s, History(e)), e, first + 1)
  }

  lemma RefsStep(s: Store, run: RunId, upTo: EntryId)
    requires LayerInv(s) && upTo > 0
    ensures var rows := Rows(s, History(upTo));
            var before, after := RevisionRefs(s, run, upTo - 1), RevisionRefs(s, run, upTo);
            && Numbered(rows)
            && (Touches(rows, run) ==>
                  exists ref, base :: Referenced(s, run, upTo, ref, base)
                                      && after == (before.0 + [ref], before.1 + [base]))
            && (!Touches(rows, run) ==> after == before)
  {
    var rows := Rows(s, History(upTo));
    assert EntryInv(s, upTo);
    NumberedRows(s, upTo);
    var first, last := RunRevisionsMean(rows, run);
    if Touches(rows, run) {
      var ref := RevRef(upTo, rows[last].body.no, rows[last].revisionSha);
      var base := BaselineOf(rows, upTo, first + 1);
      assert Lines(s, History(upTo)) != [];
      assert Referenced(s, run, upTo, ref, base);
    }
  }

  lemma {:induction false} BasesMean(s: Store, run: RunId, upTo: EntryId)
    requires LayerInv(s)
    ensures var bases := RevisionRefs(s, run, upTo).1;
            && (forall i :: 0 <= i < |bases| ==> 1 <= bases[i].entry <= upTo)
            && forall e: EntryId, ref, base ::
                 1 <= e <= upTo && Referenced(s, run, e, ref, base) ==> BaseFor(bases, e) == base
    decreases upTo
  {
    if upTo > 0 {
      BasesMean(s, run, upTo - 1);
      RefsStep(s, run, upTo);
      var before, bases := RevisionRefs(s, run, upTo - 1).1, RevisionRefs(s, run, upTo).1;
      if Touches(Rows(s, History(upTo)), run) {
        var own, ownBase :| Referenced(s, run, upTo, own, ownBase) && bases == before + [ownBase];
        BasesStep(s, run, upTo, before, own, ownBase);
      } else {
        assert forall ref, base :: !Referenced(s, run, upTo, ref, base);
      }
    }
  }

  lemma BasesStep(s: Store, run: RunId, upTo: EntryId, before: seq<BaseRef>, own: RevRef, ownBase: BaseRef)
    requires upTo > 0 && Referenced(s, run, upTo, own, ownBase)
    requires forall e: EntryId, ref, base ::
               1 <= e < upTo && Referenced(s, run, e, ref, base) ==> BaseFor(before, e) == base
    ensures forall e: EntryId, ref, base ::
              1 <= e <= upTo && Referenced(s, run, e, ref, base) ==> BaseFor(before + [ownBase], e) == base
  {
    forall e: EntryId, ref, base | 1 <= e <= upTo && Referenced(s, run, e, ref, base)
      ensures BaseFor(before + [ownBase], e) == base
    {
      if e < upTo {
        LaterBase(before, ownBase, e);
      } else {
        SameReference(s, run, e, ref, base, own, ownBase);
      }
    }
  }

  lemma LaterBase(bases: seq<BaseRef>, last: BaseRef, e: EntryId)
    requires last.entry != e
    ensures BaseFor(bases + [last], e) == BaseFor(bases, e)
  {
    assert (bases + [last])[..|bases|] == bases;
  }

  lemma SameReference(s: Store, run: RunId, e: EntryId, ref: RevRef, base: BaseRef, ref': RevRef, base': BaseRef)
    requires Referenced(s, run, e, ref, base) && Referenced(s, run, e, ref', base')
    ensures ref == ref' && base == base'
  {
  }

  // ---- The findings of a delta --------------------------------------------------------------------------

  /** What one entry adds to the delta. */
  function PartOf(e: EntryId, rec: Finding, b: BaseRef): FindingPart {
    FindingPart(
      if b.tier.None? && b.status.None? then [e] else [],
      if (b.tier, b.score) != (rec.tier, rec.score)
      then [PriorityChange(e, b.tier, b.score, rec.tier, rec.score)] else [],
      if b.waste != rec.waste then [WasteChange(e, b.waste, rec.waste)] else [])
  }

  function Joined(p: FindingPart, q: FindingPart): FindingPart {
    FindingPart(p.created + q.created, p.priority + q.priority, p.waste + q.waste)
  }

  lemma ChangesUnfold(s: Store, refs: seq<RevRef>, ref: RevRef, bases: seq<BaseRef>)
    requires FindingChanges(s, refs, bases).Some? && Resolve(s, ref).Some?
    ensures FindingChanges(s, refs + [ref], bases)
            == Some(Joined(FindingChanges(s, refs, bases).value,
                           PartOf(ref.entry, Resolve(s, ref).value, BaseFor(bases, ref.entry))))
  {
    assert (refs + [ref])[..|refs|] == refs;
  }

  /** The part of one entry says what happened to its finding. */
  ghost predicate Tells(history: seq<Row>, run: RunId, e: EntryId, part: FindingPart) {
    && part.created == (if BornIn(history, run) then [e] else [])
    && |part.priority| <= 1 && |part.waste| <= 1
    && (forall c :: c in part.priority <==> c.entry == e && PriorityMoved(history, run, c))
    && (forall c :: c in part.waste <==> c.entry == e && WasteMoved(history, run, c))
  }

  /** A reference to a stored revision leads to its record. */
  lemma StoredResolves(s: Store, e: EntryId, i: nat, ref: RevRef)
    requires EntryInv(s, e) && i < |Rows(s, History(e))|
    requires Rows(s, History(e))[i].RevisionRow?
    requires ref == RevRef(e, Rows(s, History(e))[i].body.no, Rows(s, History(e))[i].revisionSha)
    ensures Resolve(s, ref) == Some(Rows(s, History(e))[i].body.record)
  {
    var rows := Rows(s, History(e));
    NumberedRows(s, e);
    assert RevisionAt(Lines(s, History(e)), e, i);
    MatchesOf(rows, ref.no);
  }

  lemma OneEntry(s: Store, run: RunId, e: EntryId, ref: RevRef, base: BaseRef)
    requires LayerInv(s) && Referenced(s, run, e, ref, base)
    ensures ref.entry == e && Resolve(s, ref).Some?
    ensures Tells(Rows(s, History(e)), run, e, PartOf(e, Resolve(s, ref).value, base))
  {
    var rows := Rows(s, History(e));
    assert EntryInv(s, e);
    NumberedRows(s, e);
    var first: nat, last: nat :|
      && FirstOfRun(rows, run, first) && LastOfRun(rows, run, last)
      && ref == RevRef(e, rows[last].body.no, rows[last].revisionSha) && base == BaselineOf(rows, e, first + 1);
    StoredResolves(s, e, last, ref);
    BaselineMeans(rows, e, first);
    PartTells(rows, run, e, first, last, base);
  }

  lemma PartTells(history: seq<Row>, run: RunId, e: EntryId, first: nat, last: nat, base: BaseRef)
    requires FirstOfRun(history, run, first) && LastOfRun(history, run, last)
    requires base.status.None? <==> first == 0
    requires first == 0 ==> base.tier.None?
    requires (base.tier, base.score) == PriorityAt(history, first - 1) && base.waste == WasteAt(history, first - 1)
    ensures Tells(history, run, e, PartOf(e, history[last].body.record, base))
  {
    var part := PartOf(e, history[last].body.record, base);
    forall c ensures c in part.priority <==> c.entry == e && PriorityMoved(history, run, c) {
      if PriorityMoved(history, run, c) {
        OneSpan(history, run, first, last);
      }
    }
    forall c ensures c in part.waste <==> c.entry == e && WasteMoved(history, run, c) {
      if WasteMoved(history, run, c) {
        OneSpan(history, run, first, last);
      }
    }
  }

  /** A run has one first and one last revision. */
  lemma OneSpan(history: seq<Row>, run: RunId, first: nat, last: nat)
    requires FirstOfRun(history, run, first) && LastOfRun(history, run, last)
    ensures forall i: nat :: FirstOfRun(history, run, i) ==> i == first
    ensures forall i: nat :: LastOfRun(history, run, i) ==> i == last
  {
  }

  /** A delta lists the findings up to an entry number by what happened to them, each once, in order. */
  ghost predicate Accounts(s: Store, run: RunId, upTo: EntryId, p: FindingPart) {
    && (forall e: EntryId :: e in p.created <==> 1 <= e <= upTo && BornIn(Rows(s, History(e)), run))
    && (forall c :: c in p.priority <==>
          1 <= c.entry <= upTo && PriorityMoved(Rows(s, History(c.entry)), run, c))
    && (forall c :: c in p.waste <==> 1 <= c.entry <= upTo && WasteMoved(Rows(s, History(c.entry)), run, c))
    && (forall i, j :: 0 <= i < j < |p.created| ==> p.created[i] < p.created[j])
    && (forall i, j :: 0 <= i < j < |p.priority| ==> p.priority[i].entry < p.priority[j].entry)
    && (forall i, j :: 0 <= i < j < |p.waste| ==> p.waste[i].entry < p.waste[j].entry)
  }

  lemma NothingTold(history: seq<Row>, run: RunId, e: EntryId)
    requires !Touches(history, run)
    ensures Tells(history, run, e, FindingPart([], [], []))
  {
    assert !OfRun(history, run, 0);
  }

  lemma AccountsStep(s: Store, run: RunId, e: EntryId, before: FindingPart, part: FindingPart)
    requires e > 0 && Accounts(s, run, e - 1, before) && Tells(Rows(s, History(e)), run, e, part)
    ensures Accounts(s, run, e, Joined(before, part))
  {
    var p := Joined(before, part);
    forall i | 0 <= i < |before.created| ensures before.created[i] < e {
      assert before.created[i] in before.created;
    }
    forall i | 0 <= i < |before.priority| ensures before.priority[i].entry < e {
      assert before.priority[i] in before.priority;
    }
    forall i | 0 <= i < |part.priority| ensures part.priority[i].entry == e {
      assert part.priority[i] in part.priority;
    }
    forall i | 0 <= i < |before.waste| ensures before.waste[i].entry < e {
      assert before.waste[i] in before.waste;
    }
    forall i | 0 <= i < |part.waste| ensures part.waste[i].entry == e {
      assert part.waste[i] in part.waste;
    }
  }

  lemma {:induction false} ChangesMean(s: Store, run: RunId, upTo: EntryId, bases: seq<BaseRef>)
    requires LayerInv(s)
    requires forall e: EntryId, ref, base ::
               1 <= e <= upTo && Referenced(s, run, e, ref, base) ==> BaseFor(bases, e) == base
    ensures var changes := FindingChanges(s, RevisionRefs(s, run, upTo).0, bases);
            changes.Some? && Accounts(s, run, upTo, changes.value)
    decreases upTo
  {
    if upTo > 0 {
      ChangesMean(s, run, upTo - 1, bases);
      RefsStep(s, run, upTo);
      var refs := RevisionRefs(s, run, upTo - 1).0;
      var before := FindingChanges(s, refs, bases).value;
      var rows := Rows(s, History(upTo));
      if Touches(rows, run) {
        var ref, base :| Referenced(s, run, upTo, ref, base) && RevisionRefs(s, run, upTo).0 == refs + [ref];
        OneEntry(s, run, upTo, ref, base);
        ChangesUnfold(s, refs, ref, bases);
        AccountsStep(s, run, upTo, before, PartOf(upTo, Resolve(s, ref).value, base));
      } else {
        NothingTold(rows, run, upTo);
        AccountsStep(s, run, upTo, before, FindingPart([], [], []));
        assert Joined(before, FindingPart([], [], [])) == before;
      }
    }
  }

  // ---- The observations of a delta ------------------------------------------------------------------------

  /** The run has an occurrence of the observation. */
  ghost predicate Occurred(occs: seq<Row>, run: RunId, id: ObsId) {
    exists i :: 0 <= i < |occs| && occs[i].OccurrenceRow? && occs[i].run == run && occs[i].observation == id
  }

  /** The index names the run as the one that first captured the observation. */
  ghost predicate FirstCapturedBy(index: seq<Row>, run: RunId, id: ObsId) {
    exists i :: 0 <= i < |index| && index[i].IndexRow? && index[i].observation == id && index[i].run == run
  }

  ghost predicate Cites(occs: seq<OccRef>, id: ObsId) {
    exists i :: 0 <= i < |occs| && occs[i].observation == id
  }

  ghost predicate Holds(refs: seq<ObsRef>, id: ObsId) {
    exists i :: 0 <= i < |refs| && refs[i].observation == id
  }

  lemma OccurredSnoc(occs: seq<Row>, row: Row, run: RunId, id: ObsId)
    ensures Occurred(occs + [row], run, id)
            <==> Occurred(occs, run, id) || (row.OccurrenceRow? && row.run == run && row.observation == id)
  {
    var all := occs + [row];
    if Occurred(occs, run, id) {
      var i :| 0 <= i < |occs| && occs[i].OccurrenceRow? && occs[i].run == run && occs[i].observation == id;
      assert all[i] == occs[i];
    }
    if row.OccurrenceRow? && row.run == run && row.observation == id {
      assert all[|occs|] == row;
    }
    if Occurred(all, run, id) {
      var i :| 0 <= i < |all| && all[i].OccurrenceRow? && all[i].run == run && all[i].observation == id;
      assert i < |occs| ==> all[i] == occs[i];
    }
  }

  lemma CitesConcat(refs: seq<OccRef>, own: seq<OccRef>, id: ObsId)
    ensures Cites(refs + own, id) <==> Cites(refs, id) || Cites(own, id)
  {
    var all := refs + own;
    if Cites(refs, id) {
      var i :| 0 <= i < |refs| && refs[i].observation == id;
      assert all[i] == refs[i];
    }
    if Cites(own, id) {
      var i :| 0 <= i < |own| && own[i].observation == id;
      assert all[|refs| + i] == own[i];
    }
    if Cites(all, id) {
      var i :| 0 <= i < |all| && all[i].observation == id;
      assert if i < |refs| then all[i] == refs[i] else all[i] == own[i - |refs|];
    }
  }

  lemma {:induction false} OccRefsMean(lines: seq<Line<Row>>, run: RunId, id: ObsId)
    ensures Cites(OccRefs(lines, run), id) <==> Occurred(Payloads(lines), run, id)
    decreases |lines|
  {
    if lines != [] {
      var n := |lines| - 1;
      var row := lines[n].payload;
      var refs := OccRefs(lines[..n], run);
      var own := if row.OccurrenceRow? && row.run == run
                 then [OccRef(row.occurrence, row.observation, run, lines[n].sha)] else [];
      OccRefsMean(lines[..n], run, id);
      assert Payloads(lines) == Payloads(lines[..n]) + [row];
      OccurredSnoc(Payloads(lines[..n]), row, run, id);
      CitesConcat(refs, own, id);
      assert own != [] ==> own[0].observation == row.observation;
    }
  }

  lemma IndexRowMeans(index: seq<Row>, id: ObsId, run: RunId)
    requires forall i, j :: 0 <= i < j < |index| ==> index[i].IndexRow? && index[j].IndexRow?
                                                     && index[i].observation != index[j].observation
    requires |index| == 1 ==> index[0].IndexRow?
    ensures IndexHas(index, id) <==> IndexRowOf(index, id).Some?
    ensures IndexRowOf(index, id).Some? ==> IndexRowOf(index, id).value.IndexRow?
    ensures IndexRowOf(index, id).Some? && IndexRowOf(index, id).value.run == run <==> FirstCapturedBy(index, run, id)
  {
    var p := (r: Row) => r.IndexRow? && r.observation == id;
    FindLastHolds(index, p);
    if FindLast(index, p).Some? {
      var k :| 0 <= k < |index| && index[k] == FindLast(index, p).value;
    }
    if IndexHas(index, id) {
      var i :| 0 <= i < |index| && index[i].IndexRow? && index[i].observation == id;
      assert p(index[i]);
    }
  }

  lemma HoldsSnoc(refs: seq<ObsRef>, ref: ObsRef, id: ObsId)
    ensures Holds(refs + [ref], id) <==> Holds(refs, id) || ref.observation == id
  {
    var all := refs + [ref];
    assert all[|refs|] == ref && forall i :: 0 <= i < |refs| ==> all[i] == refs[i];
    if Holds(refs, id) {
      var i :| 0 <= i < |refs| && refs[i].observation == id;
      assert all[i].observation == id;
    }
  }

  lemma {:induction false} ObsRefsMean(index: seq<Row>, occs: seq<OccRef>, id: ObsId)
    requires forall i :: 0 <= i < |occs| ==> IndexRowOf(index, occs[i].observation).Some?
    requires forall o: ObsId :: IndexRowOf(index, o).Some? ==> IndexRowOf(index, o).value.IndexRow?
    ensures var refs := ObsRefs(index, occs);
            && (Holds(refs, id) <==> Cites(occs, id))
            && forall i, j :: 0 <= i < j < |refs| ==> refs[i].observation != refs[j].observation
    decreases |occs|
  {
    if occs != [] {
      var n := |occs| - 1;
      var own := occs[n].observation;
      ObsRefsMean(index, occs[..n], id);
      ObsRefsMean(index, occs[..n], own);
      var before, refs := ObsRefs(index, occs[..n]), ObsRefs(index, occs);
      assert occs == occs[..n] + [occs[n]];
      CitesConcat(occs[..n], [occs[n]], id);
      assert Cites([occs[n]], id) <==> own == id by {
        assert [occs[n]][0].observation == own;
      }
      if Holds(before, own) {
        assert refs == before;
      } else {
        assert refs == before + [ObsRef(own, IndexRowOf(index, own).value.sha)];
        HoldsSnoc(before, ObsRef(own, IndexRowOf(index, own).value.sha), id);
      }
    }
  }

  lemma {:induction false} NewObservationsMean(s: Store, run: RunId, refs: seq<ObsRef>, id: ObsId)
    requires forall i, j :: 0 <= i < j < |refs| ==> refs[i].observation != refs[j].observation
    ensures var news := NewObservations(s, run, refs);
            && (id in news <==> FirstSeenHere(s, run, id) && Holds(refs, id))
            && forall i, j :: 0 <= i < j < |news| ==> news[i] != news[j]
    decreases |refs|
  {
    if refs != [] {
      var n := |refs| - 1;
      NewObservationsMean(s, run, refs[..n], id);
      NewObservationsMean(s, run, refs[..n], refs[n].observation);
      assert refs == refs[..n] + [refs[n]];
      HoldsSnoc(refs[..n], refs[n], id);
      var before := NewObservations(s, run, refs[..n]);
      assert refs[n].observation !in before;
      var news := NewObservations(s, run, refs);
      assert news == before || news == before + [refs[n].observation];
    }
  }

  lemma StoredObservations(s: Store, run: RunId, id: ObsId)
    requires LayerInv(s)
    ensures var news := NewObservations(s, run, BuildSnapshot(s, run).observations);
            && (id in news <==> Occurred(Rows(s, Occurrences), run, id) && FirstCapturedBy(Rows(s, Index), run, id))
            && forall i, j :: 0 <= i < j < |news| ==> news[i] != news[j]
  {
    var index, occs := Rows(s, Index), OccRefs(Lines(s, Occurrences), run);
    IndexIsSound(s);
    forall o: ObsId
      ensures IndexRowOf(index, o).Some? ==> IndexRowOf(index, o).value.IndexRow?
    {
      IndexRowMeans(index, o, run);
    }
    IndexRowMeans(index, id, run);
    CitedAreIndexed(s, run);
    OccRefsMean(Lines(s, Occurrences), run, id);
    ObsRefsMean(index, occs, id);
    NewObservationsMean(s, run, ObsRefs(index, occs), id);
  }

  lemma CitedAreIndexed(s: Store, run: RunId)
    requires LayerInv(s)
    ensures var occs := OccRefs(Lines(s, Occurrences), run);
            forall i :: 0 <= i < |occs| ==> IndexRowOf(Rows(s, Index), occs[i].observation).Some?
  {
    var occs := OccRefs(Lines(s, Occurrences), run);
    IndexIsSound(s);
    forall i | 0 <= i < |occs| ensures IndexRowOf(Rows(s, Index), occs[i].observation).Some? {
      assert Cites(occs, occs[i].observation);
      OccRefsMean(Lines(s, Occurrences), run, occs[i].observation);
      OccurrencesAreIndexed(s, run, occs[i].observation);
      IndexRowMeans(Rows(s, Index), occs[i].observation, run);
    }
  }

  lemma IndexIsSound(s: Store)
    requires LayerInv(s)
    ensures var index := Rows(s, Index);
            && (forall i, j :: 0 <= i < j < |index| ==> index[i].IndexRow? && index[j].IndexRow?
                                                        && index[i].observation != index[j].observation)
            && (|index| == 1 ==> index[0].IndexRow?)
  {
    var index := Rows(s, Index);
    assert forall i :: 0 <= i < |index| ==> IndexedObservation(s, index[i]);
  }

  lemma OccurrencesAreIndexed(s: Store, run: RunId, id: ObsId)
    requires LayerInv(s) && Occurred(Rows(s, Occurrences), run, id)
    ensures IndexHas(Rows(s, Index), id)
  {
    var occs := Rows(s, Occurrences);
    var i :| 0 <= i < |occs| && occs[i].OccurrenceRow? && occs[i].run == run && occs[i].observation == id;
    assert ObservationFile(occs[i].observation) in s.files;
  }

  // ---- The regressions of a delta ---------------------------------------------------------------------------

  /** The run's regression lines in the ledger, in file order: entry and observation. */
  function RegressionsIn(ledger: seq<Row>, run: RunId): seq<RegressionNote>
    decreases |ledger|
  {
    if ledger == [] then []
    else
      var last := ledger[|ledger| - 1];
      RegressionsIn(ledger[..|ledger| - 1], run)
      + if last.LedgerRow? && last.kind == Regression && last.run == run
        then [RegressionNote(last.entry, last.observation)] else []
  }

  predicate Found(all: seq<Line<Row>>, l: Line<Row>) {
    LedgerByLine(all, l.sha) == Some(l)
  }

  /** Every line is found under its digest. */
  ghost predicate FoundByDigest(all: seq<Line<Row>>, lines: seq<Line<Row>>) {
    forall l :: l in lines ==> Found(all, l)
  }

  lemma OneMoreRegression(s: Store, refs: seq<AttRef>, ref: AttRef)
    ensures var line := LedgerByLine(Lines(s, Ledger), ref.lineSha);
            Regressions(s, refs + [ref])
            == Regressions(s, refs)
               + if ref.kind.Regression? && line.Some? && line.value.payload.LedgerRow?
                 then [RegressionNote(line.value.payload.entry, line.value.payload.observation)] else []
  {
    assert (refs + [ref])[..|refs|] == refs;
  }

  /** The regression that one line of the ledger is for the run, if it is one. */
  function RegressionOf(row: Row, run: RunId): seq<RegressionNote> {
    if row.LedgerRow? && row.kind == Regression && row.run == run then [RegressionNote(row.entry, row.observation)]
    else []
  }

  lemma RegressionsStep(s: Store, lines: seq<Line<Row>>, run: RunId)
    requires lines != []
    requires Found(Lines(s, Ledger), lines[|lines| - 1])
    ensures Regressions(s, AttRefs(lines, run))
            == Regressions(s, AttRefs(lines[..|lines| - 1], run)) + RegressionOf(lines[|lines| - 1].payload, run)
  {
    var last := lines[|lines| - 1];
    var refs, row := AttRefs(lines[..|lines| - 1], run), last.payload;
    if row.LedgerRow? && row.run == run && !row.kind.DeltaReport? {
      var ref := AttRef(row.attribution, row.kind, last.sha);
      assert AttRefs(lines, run) == refs + [ref];
      OneMoreRegression(s, refs, ref);
    } else {
      assert AttRefs(lines, run) == refs;
    }
  }

  lemma RegressionsInStep(rows: seq<Row>, row: Row, run: RunId)
    ensures RegressionsIn(rows + [row], run) == RegressionsIn(rows, run) + RegressionOf(row, run)
  {
    assert (rows + [row])[..|rows|] == rows;
  }

  lemma {:induction false} RegressionsMean(s: Store, lines: seq<Line<Row>>, run: RunId)
    requires FoundByDigest(Lines(s, Ledger), lines)
    ensures Regressions(s, AttRefs(lines, run)) == RegressionsIn(Payloads(lines), run)
    decreases |lines|
  {
    if lines != [] {
      var front := lines[..|lines| - 1];
      RegressionsMean(s, front, run);
      RegressionsStep(s, lines, run);
      RegressionsInStep(Payloads(front), lines[|lines| - 1].payload, run);
      PayloadsSnoc(lines);
    }
  }

  lemma PayloadsSnoc(lines: seq<Line<Row>>)
    requires lines != []
    ensures Payloads(lines) == Payloads(lines[..|lines| - 1]) + [lines[|lines| - 1].payload]
  {
  }

  lemma LedgerIsFound(s: Store)
    requires Sane(s)
    ensures FoundByDigest(Lines(s, Ledger), Lines(s, Ledger))
  {
    var lines := Lines(s, Ledger);
    forall m | m in lines ensures Found(lines, m) {
      var i :| 0 <= i < |lines| && lines[i] == m;
      var p := (l: Line<Row>) => l.sha == m.sha;
      FindLastHolds(lines, p);
      assert p(lines[i]);
      var found := FindLast(lines, p).value;
      var k :| 0 <= k < |lines| && lines[k] == found;
      assert LinkOk(lines, i) && LinkOk(lines, k);
      assert Rows(s, Ledger)[i] == lines[i].payload && Rows(s, Ledger)[k] == lines[k].payload;
    }
  }

  // ---- The delta --------------------------------------------------------------------------------------------

  /** The content says of the rows of the stores what a delta is for. */
  ghost predicate SaysWhatHappened(s: Store, run: RunId, c: DeltaContent) {
    && Accounts(s, run, LastEntry(s), FindingPart(c.newFindings, c.priorityChanged, c.wasteChanges))
    && (forall id :: id in c.newObservations
                     <==> Occurred(Rows(s, Occurrences), run, id) && FirstCapturedBy(Rows(s, Index), run, id))
    && (forall i, j :: 0 <= i < j < |c.newObservations| ==> c.newObservations[i] != c.newObservations[j])
    && c.regressions == RegressionsIn(Rows(s, Ledger), run)
  }

  lemma DerivedSays(s: Store, run: RunId)
    requires Sane(s) && DeriveDelta(s, BuildSnapshot(s, run)).Some?
    ensures SaysWhatHappened(s, run, DeriveDelta(s, BuildSnapshot(s, run)).value)
  {
    BasesMean(s, run, LastEntry(s));
    ChangesMean(s, run, LastEntry(s), RevisionRefs(s, run, LastEntry(s)).1);
    LedgerIsFound(s);
    RegressionsMean(s, Lines(s, Ledger), run);
    forall id
      ensures id in NewObservations(s, run, BuildSnapshot(s, run).observations)
              <==> Occurred(Rows(s, Occurrences), run, id) && FirstCapturedBy(Rows(s, Index), run, id)
    {
      StoredObservations(s, run, id);
    }
    var anyId: ObsId :| true;
    StoredObservations(s, run, anyId);
  }

  /**
   * What a generated delta contains.  A finding is new iff the run made its first revision; its priority
   * or waste has changed iff it differs between the record just before the run's first revision and that
   * of the run's last one, and the delta gives exactly these two values; an observation is new iff the
   * run has an occurrence of it and was the first to capture it; the regressions are the run's
   * regression lines of the ledger.  Each finding is listed once, in order of its entry number.
   */
  lemma DeltaSaysWhatHappened(s: Store, journal: seq<Line<JRecord>>, run: string, w: Option<string>)
    requires Sane(s) && BuildDelta(s, journal, run, w).Write?
    ensures exists delta: Delta ::
              && Replace(DeltaFile(run), DeltaObj(delta)) in BuildDelta(s, journal, run, w).op.rewrites
              && delta.run == Some(run) && delta.workItem == w
              && SaysWhatHappened(s, Some(run), delta.content)
  {
    DerivedSays(s, Some(run));
    var rewrites := BuildDelta(s, journal, run, w).op.rewrites;
    assert rewrites[1].obj.DeltaObj?;
    assert rewrites[1] == Replace(DeltaFile(run), DeltaObj(rewrites[1].obj.delta));
  }

  // ---- A first delta is never refused ---------------------------------------------------------------------

  /** Each reference to an occurrence names a line of the file, with its digest. */
  ghost predicate FromLines(refs: seq<OccRef>, lines: seq<Line<Row>>) {
    forall k :: 0 <= k < |refs| ==>
      exists i :: 0 <= i < |lines| && lines[i].payload.OccurrenceRow?
                  && lines[i].payload.occurrence == refs[k].occurrence && lines[i].sha == refs[k].lineSha
  }

  lemma {:induction false} OccRefsFromLines(lines: seq<Line<Row>>, run: RunId)
    ensures FromLines(OccRefs(lines, run), lines)
    decreases |lines|
  {
    if lines != [] {
      var n := |lines| - 1;
      OccRefsFromLines(lines[..n], run);
      var refs, all := OccRefs(lines[..n], run), OccRefs(lines, run);
      forall k | 0 <= k < |all|
        ensures exists i :: 0 <= i < |lines| && lines[i].payload.OccurrenceRow?
                            && lines[i].payload.occurrence == all[k].occurrence && lines[i].sha == all[k].lineSha
      {
        if k < |refs| {
          assert all[k] == refs[k];
          var i :| 0 <= i < n && lines[..n][i].payload.OccurrenceRow?
                   && lines[..n][i].payload.occurrence == refs[k].occurrence && lines[..n][i].sha == refs[k].lineSha;
          assert lines[i] == lines[..n][i];
        } else {
          assert lines[n].payload.OccurrenceRow?;
        }
      }
    }
  }

  ghost predicate FromLedger(refs: seq<AttRef>, lines: seq<Line<Row>>) {
    forall k :: 0 <= k < |refs| ==>
      exists i :: 0 <= i < |lines| && lines[i].payload.LedgerRow?
                  && lines[i].payload.attribution == refs[k].attribution && lines[i].sha == refs[k].lineSha
  }

  lemma {:induction false} AttRefsFromLedger(lines: seq<Line<Row>>, run: RunId)
    ensures FromLedger(AttRefs(lines, run), lines)
    decreases |lines|
  {
    if lines != [] {
      var n := |lines| - 1;
      AttRefsFromLedger(lines[..n], run);
      var refs, all := AttRefs(lines[..n], run), AttRefs(lines, run);
      forall k | 0 <= k < |all|
        ensures exists i :: 0 <= i < |lines| && lines[i].payload.LedgerRow?
                            && lines[i].payload.attribution == all[k].attribution && lines[i].sha == all[k].lineSha
      {
        if k < |refs| {
          assert all[k] == refs[k];
          var i :| 0 <= i < n && lines[..n][i].payload.LedgerRow?
                   && lines[..n][i].payload.attribution == refs[k].attribution && lines[..n][i].sha == refs[k].lineSha;
          assert lines[i] == lines[..n][i];
        } else {
          assert lines[n].payload.LedgerRow?;
        }
      }
    }
  }

  lemma OccurrenceRefsHold(s: Store, run: RunId)
    requires Sane(s)
    ensures var refs := BuildSnapshot(s, run).occurrences;
            forall k :: 0 <= k < |refs| ==> OccRefHolds(s, refs[k])
  {
    var lines, refs := Lines(s, Occurrences), OccRefs(Lines(s, Occurrences), run);
    OccRefsFromLines(lines, run);
    forall k | 0 <= k < |refs| ensures OccRefHolds(s, refs[k]) {
      var p := (l: Line<Row>) => l.payload.OccurrenceRow? && l.payload.occurrence == refs[k].occurrence;
      var i :| 0 <= i < |lines| && lines[i].payload.OccurrenceRow?
               && lines[i].payload.occurrence == refs[k].occurrence && lines[i].sha == refs[k].lineSha;
      FindLastHolds(lines, p);
      assert p(lines[i]);
      var j :| 0 <= j < |lines| && lines[j] == FindLast(lines, p).value;
      assert Rows(s, Occurrences)[i] == lines[i].payload && Rows(s, Occurrences)[j] == lines[j].payload;
    }
  }

  lemma AttributionRefsHold(s: Store, run: RunId)
    requires Sane(s)
    ensures var refs := BuildSnapshot(s, run).attributions;
            forall k :: 0 <= k < |refs| ==> AttRefHolds(s, refs[k])
  {
    var lines, refs := Lines(s, Ledger), AttRefs(Lines(s, Ledger), run);
    AttRefsFromLedger(lines, run);
    forall k | 0 <= k < |refs| ensures AttRefHolds(s, refs[k]) {
      var p := (l: Line<Row>) => l.payload.LedgerRow? && l.payload.attribution == refs[k].attribution;
      var i :| 0 <= i < |lines| && lines[i].payload.LedgerRow?
               && lines[i].payload.attribution == refs[k].attribution && lines[i].sha == refs[k].lineSha;
      FindLastHolds(lines, p);
      assert p(lines[i]);
      var j :| 0 <= j < |lines| && lines[j] == FindLast(lines, p).value;
      assert Rows(s, Ledger)[i] == lines[i].payload && Rows(s, Ledger)[j] == lines[j].payload;
    }
  }

  lemma {:induction false} ObsRefsFromIndex(index: seq<Row>, occs: seq<OccRef>)
    ensures forall k :: 0 <= k < |ObsRefs(index, occs)| ==>
              var row := IndexRowOf(index, ObsRefs(index, occs)[k].observation);
              row.Some? && row.value.IndexRow? && row.value.sha == ObsRefs(index, occs)[k].sha
    decreases |occs|
  {
    if occs != [] {
      ObsRefsFromIndex(index, occs[..|occs| - 1]);
    }
  }

  lemma ObservationRefsHold(s: Store, run: RunId)
    requires Sane(s)
    ensures var refs := BuildSnapshot(s, run).observations;
            forall k :: 0 <= k < |refs| ==> ObsRefHolds(s, refs[k])
  {
    var index, refs := Rows(s, Index), BuildSnapshot(s, run).observations;
    ObsRefsFromIndex(index, OccRefs(Lines(s, Occurrences), run));
    forall k | 0 <= k < |refs| ensures ObsRefHolds(s, refs[k]) {
      var p := (r: Row) => r.IndexRow? && r.observation == refs[k].observation;
      FindLastHolds(index, p);
      var j :| 0 <= j < |index| && index[j] == FindLast(index, p).value;
      assert IndexedObservation(s, index[j]);
    }
  }

  lemma IdsAreUnique(s: Store)
    requires LayerInv(s)
    ensures UniqueOccurrences(Rows(s, Occurrences)) && UniqueIndex(Rows(s, Index)) && UniqueLedger(Rows(s, Ledger))
  {
  }

  lemma SnapshotHolds(s: Store, run: RunId)
    requires Sane(s)
    ensures RefsHold(s, BuildSnapshot(s, run))
  {
    OccurrenceRefsHold(s, run);
    AttributionRefsHold(s, run);
    ObservationRefsHold(s, run);
    IdsAreUnique(s);
  }

  /** The derivation never fails on the stores themselves: a first request for a delta is never refused. */
  lemma FirstDeltaIsWritten(s: Store, journal: seq<Line<JRecord>>, run: string, w: Option<string>)
    requires Sane(s) && SnapshotFile(run) !in s.files
    ensures BuildDelta(s, journal, run, w).Write?
  {
    SnapshotHolds(s, Some(run));
    BasesMean(s, Some(run), LastEntry(s));
    ChangesMean(s, Some(run), LastEntry(s), RevisionRefs(s, Some(run), LastEntry(s)).1);
  }

  // ---- The anchors of a delta --------------------------------------------------------------------------

  /** The anchors of the delta generated last. */
  function LastAnchors(s: Store): Option<AnchorsHash> {
    var last := Get(s.files, DeltaChain);
    if last.Some? && last.value.DeltaChainObj? then Some(last.value.lastAnchors) else None
  }

  ghost predicate RecordHeads(heads: seq<Head<Row>>, s: Store, upTo: EntryId) {
    |heads| == upTo && forall e: EntryId :: 1 <= e <= upTo ==> Records(heads[e - 1], Lines(s, History(e)))
  }

  lemma {:induction false} FindingHeadsRecord(s: Store, upTo: EntryId)
    ensures RecordHeads(FindingHeads(s, upTo), s, upTo)
    decreases upTo
  {
    if upTo > 0 {
      FindingHeadsRecord(s, upTo - 1);
    }
  }

  /** The anchors record the stores and the journal as they are, the snapshot, and the delta before. */
  ghost predicate Anchored(a: Anchors, s: Store, journal: seq<Line<JRecord>>, snapshot: Obj) {
    && Records(a.index, Lines(s, Index)) && Records(a.ledger, Lines(s, Ledger)) && Records(a.journal, journal)
    && RecordHeads(a.findingHeads, s, LastEntry(s))
    && a.inputSnapshot == ContentSha(ObjBytes(snapshot))
    && a.prevDelta == LastAnchors(s)
  }

  /**
   * A delta that is generated is anchored to the state that it was derived from and linked to the delta
   * generated before it, and becomes the one that the next is linked to.
   */
  lemma DeltaIsAnchored(s: Store, s': Store, journal: seq<Line<JRecord>>, run: string, w: Option<string>)
    requires BuildDelta(s, journal, run, w).Write? && Wrote(s, s', BuildDelta(s, journal, run, w).op)
    ensures exists delta: Delta, snapshot: Obj ::
              && Get(s'.files, DeltaFile(run)) == Some(DeltaObj(delta))
              && Get(s'.files, SnapshotFile(run)) == Some(snapshot)
              && Anchored(delta.anchors, s, journal, snapshot)
              && LastAnchors(s') == Some(AnchorsSha(delta.anchors))
  {
    var rewrites := BuildDelta(s, journal, run, w).op.rewrites;
    FindingHeadsRecord(s, LastEntry(s));
    assert Get(s'.files, rewrites[0].file) == Some(rewrites[0].obj);
    assert Get(s'.files, rewrites[1].file) == Some(rewrites[1].obj);
    assert Get(s'.files, rewrites[2].file) == Some(rewrites[2].obj);
    assert Anchored(rewrites[1].obj.delta.anchors, s, journal, rewrites[0].obj);
  }

  lemma OthersSpareChain(s: Store, s': Store, journal: seq<Line<JRecord>>, r: Request)
    requires BuildOf(s, journal, r).Write? && Wrote(s, s', BuildOf(s, journal, r).op) && !r.GenerateDelta?
    ensures LastAnchors(s') == LastAnchors(s)
  {
    SparesChain(s, journal, r);
    assert Untouched(s, s', BuildOf(s, journal, r).op, DeltaChain);
  }

  lemma SparesChain(s: Store, journal: seq<Line<JRecord>>, r: Request)
    requires BuildOf(s, journal, r).Write? && !r.GenerateDelta?
    ensures forall i :: 0 <= i < |BuildOf(s, journal, r).op.rewrites| ==>
              BuildOf(s, journal, r).op.rewrites[i].file != DeltaChain
  {
  }

  /** The delta of the run is stored in s', tells what happened up to s, and is the last of the chain. */
  ghost predicate LinkedDelta(s: Store, s': Store, journal: seq<Line<JRecord>>, run: string) {
    exists delta: Delta, snapshot: Obj ::
      && Get(s'.files, DeltaFile(run)) == Some(DeltaObj(delta))
      && SaysWhatHappened(s, Some(run), delta.content)
      && Anchored(delta.anchors, s, journal, snapshot)
      && LastAnchors(s') == Some(AnchorsSha(delta.anchors))
  }

  /**
   * In any run with crashes, a request for a delta that takes effect leaves a delta that says what
   * happened in the run and links to the one before it; no other request touches the chain of deltas.
   */
  lemma DeltasAreLinked(d: Disk, e: Event)
    requires Quiescent(d)
    ensures var s, s', r := d.store, AfterEvent(d, e).store, e.request;
            if r.GenerateDelta? && s' != s
            then LinkedDelta(s, s', d.journal, r.name)
            else LastAnchors(s') == LastAnchors(s)
  {
    var s, s', r := d.store, AfterEvent(d, e).store, e.request;
    EventKeeps(d, e);
    if s' != s {
      if r.GenerateDelta? {
        DeltaRequest(s, s', d.journal, r);
      } else {
        OthersSpareChain(s, s', d.journal, r);
      }
    }
  }

  lemma DeltaRequest(s: Store, s': Store, journal: seq<Line<JRecord>>, r: Request)
    requires Sane(s) && r.GenerateDelta? && BuildOf(s, journal, r).Write? && Wrote(s, s', BuildOf(s, journal, r).op)
    ensures LinkedDelta(s, s', journal, r.name)
  {
    GeneratedDelta(s, s', journal, r.name, r.workItem);
  }

  lemma GeneratedDelta(s: Store, s': Store, journal: seq<Line<JRecord>>, run: string, w: Option<string>)
    requires Sane(s) && BuildDelta(s, journal, run, w).Write? && Wrote(s, s', BuildDelta(s, journal, run, w).op)
    ensures LinkedDelta(s, s', journal, run)
  {
    DeltaSaysWhatHappened(s, journal, run, w);
    DeltaIsAnchored(s, s', journal, run, w);
    var rewrites := BuildDelta(s, journal, run, w).op.rewrites;
    NamesDiffer(run);
    assert Get(s'.files, rewrites[1].file) == Some(rewrites[1].obj);
    assert rewrites[0].file == SnapshotFile(run) && rewrites[1].file == DeltaFile(run)
           && rewrites[2].file == DeltaChain;
  }
}
