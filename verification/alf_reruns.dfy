/**
 * What a verified no-op verifies: a rerun of generate_delta that answers "noop" has authenticated
 * everything that the delta was made from.
 */
module AlfReruns {
  import opened Wrappers
  import opened HashChain
  import opened AlfRecords
  import opened AlfJournal
  import opened AlfLayers
  import opened AlfDelta
  import opened AlfDeltaContent

  // ---- Everything of the run is referenced ------------------------------------------------------------

  ghost predicate RefersTo(refs: seq<OccRef>, l: Line<Row>) {
    l.payload.OccurrenceRow? && OccRef(l.payload.occurrence, l.payload.observation, l.payload.run, l.sha) in refs
  }

  predicate OccurrenceOf(l: Line<Row>, run: RunId) {
    l.payload.OccurrenceRow? && l.payload.run == run
  }

  lemma {:induction false} OccurrencesAreReferenced(lines: seq<Line<Row>>, run: RunId)
    ensures forall l :: l in lines && OccurrenceOf(l, run) ==> RefersTo(OccRefs(lines, run), l)
    decreases |lines|
  {
    if lines != [] {
      var n := |lines| - 1;
      OccurrencesAreReferenced(lines[..n], run);
      forall l | l in lines && OccurrenceOf(l, run) ensures RefersTo(OccRefs(lines, run), l) {
        assert l in lines[..n] || l == lines[n];
      }
    }
  }

  /** The snapshot takes the run's attributions, but not those that a delta report makes. */
  predicate AttributionOf(l: Line<Row>, run: RunId) {
    l.payload.LedgerRow? && l.payload.run == run && l.payload.kind != DeltaReport
  }

  lemma {:induction false} AttributionsIff(lines: seq<Line<Row>>, run: RunId, ref: AttRef)
    ensures ref in AttRefs(lines, run)
            <==> exists l :: l in lines && AttributionOf(l, run)
                             && ref == AttRef(l.payload.attribution, l.payload.kind, l.sha)
    decreases |lines|
  {
    if lines != [] {
      var n := |lines| - 1;
      AttributionsIff(lines[..n], run, ref);
      assert forall l :: l in lines <==> l in lines[..n] || l == lines[n];
    }
  }

  // ---- One reference, authenticated -----------------------------------------------------------------

  /** A line with the same digest in an intact file is the same line. */
  lemma SameDigest(lines: seq<Line<Row>>, i: nat, l: Line<Row>)
    requires ChainOk(lines) && i < |lines| && lines[i].sha == l.sha && l.sha == Sha(l.payload, l.prev)
    ensures lines[i] == l
  {
    assert LinkOk(lines, i);
  }

  predicate SelfDigested(l: Line<Row>) {
    l.sha == Sha(l.payload, l.prev)
  }

  lemma ChainIsDigested(lines: seq<Line<Row>>)
    requires ChainOk(lines)
    ensures forall l :: l in lines ==> SelfDigested(l)
  {
    forall l | l in lines ensures SelfDigested(l) {
      var i :| 0 <= i < |lines| && lines[i] == l;
      assert LinkOk(lines, i);
    }
  }

  lemma LiveOccurrence(cut: Store, snap: Snapshot, l: Line<Row>)
    requires RefsHold(cut, snap) && RefersTo(snap.occurrences, l) && SelfDigested(l)
    ensures l in Lines(cut, Occurrences)
  {
    var ref := OccRef(l.payload.occurrence, l.payload.observation, l.payload.run, l.sha);
    var k :| 0 <= k < |snap.occurrences| && snap.occurrences[k] == ref;
    assert OccRefHolds(cut, snap.occurrences[k]);
    var lines := Lines(cut, Occurrences);
    FindLastHolds(lines, (m: Line<Row>) => m.payload.OccurrenceRow? && m.payload.occurrence == ref.occurrence);
    var i :| 0 <= i < |lines| && lines[i] == OccLine(lines, ref.occurrence).value;
    SameDigest(lines, i, l);
  }

  lemma LiveAttribution(cut: Store, snap: Snapshot, l: Line<Row>)
    requires RefsHold(cut, snap) && l.payload.LedgerRow? && SelfDigested(l)
    requires AttRef(l.payload.attribution, l.payload.kind, l.sha) in snap.attributions
    ensures l in Lines(cut, Ledger)
  {
    var ref := AttRef(l.payload.attribution, l.payload.kind, l.sha);
    var k :| 0 <= k < |snap.attributions| && snap.attributions[k] == ref;
    assert AttRefHolds(cut, snap.attributions[k]);
    var lines := Lines(cut, Ledger);
    FindLastHolds(lines, (m: Line<Row>) => m.payload.LedgerRow? && m.payload.attribution == ref.attribution);
    var i :| 0 <= i < |lines| && lines[i] == AttLine(lines, ref.attribution).value;
    SameDigest(lines, i, l);
  }

  lemma LiveObservation(s: Store, cut: Store, run: RunId, id: ObsId)
    requires Sane(s) && RefsHold(cut, BuildSnapshot(s, run)) && Occurred(Rows(s, Occurrences), run, id)
    ensures ObservationFile(id) in s.files
    ensures Get(cut.files, ObservationFile(id)) == Get(s.files, ObservationFile(id))
  {
    var snap, occs := BuildSnapshot(s, run), OccRefs(Lines(s, Occurrences), run);
    IndexIsSound(s);
    forall o: ObsId ensures IndexRowOf(Rows(s, Index), o).Some? ==> IndexRowOf(Rows(s, Index), o).value.IndexRow? {
      IndexRowMeans(Rows(s, Index), o, run);
    }
    CitedAreIndexed(s, run);
    OccRefsMean(Lines(s, Occurrences), run, id);
    ObsRefsMean(Rows(s, Index), occs, id);
    var k :| 0 <= k < |snap.observations| && snap.observations[k].observation == id;
    ObservationRefsHold(s, run);
    assert ObsRefHolds(s, snap.observations[k]) && ObsRefHolds(cut, snap.observations[k]);
  }

  // ---- The revisions ----------------------------------------------------------------------------------

  lemma {:induction false} ChangesResolve(s: Store, refs: seq<RevRef>, bases: seq<BaseRef>)
    requires FindingChanges(s, refs, bases).Some?
    ensures forall k :: 0 <= k < |refs| ==> Resolve(s, refs[k]).Some?
    decreases |refs|
  {
    if refs != [] {
      var n := |refs| - 1;
      ChangesResolve(s, refs[..n], bases);
      forall k | 0 <= k < |refs| ensures Resolve(s, refs[k]).Some? {
        assert k < n ==> refs[..n][k] == refs[k];
      }
    }
  }

  lemma {:induction false} RevisionsAreReferenced(s: Store, run: RunId, upTo: EntryId, e: EntryId, last: nat)
    requires LayerInv(s) && 1 <= e <= upTo && LastOfRun(Rows(s, History(e)), run, last)
    ensures RevRef(e, Rows(s, History(e))[last].body.no, Rows(s, History(e))[last].revisionSha)
            in RevisionRefs(s, run, upTo).0
    decreases upTo
  {
    if e < upTo {
      RevisionsAreReferenced(s, run, upTo - 1, e, last);
      EarlierRefs(s, run, upTo);
    } else {
      OwnRevision(s, run, e, last);
    }
  }

  lemma EarlierRefs(s: Store, run: RunId, upTo: EntryId)
    requires LayerInv(s) && upTo > 0
    ensures RevisionRefs(s, run, upTo - 1).0 <= RevisionRefs(s, run, upTo).0
  {
    RefsStep(s, run, upTo);
  }

  lemma OwnRevision(s: Store, run: RunId, e: EntryId, last: nat)
    requires LayerInv(s) && 1 <= e && LastOfRun(Rows(s, History(e)), run, last)
    ensures RevRef(e, Rows(s, History(e))[last].body.no, Rows(s, History(e))[last].revisionSha)
            in RevisionRefs(s, run, e).0
  {
    var rows := Rows(s, History(e));
    RefsStep(s, run, e);
    assert Touches(rows, run);
    var ref, base :| Referenced(s, run, e, ref, base) && RevisionRefs(s, run, e)
                                                        == (RevisionRefs(s, run, e - 1).0 + [ref],
                                                            RevisionRefs(s, run, e - 1).1 + [base]);
    var first: nat, l: nat :|
      && FirstOfRun(rows, run, first) && LastOfRun(rows, run, l)
      && ref == RevRef(e, rows[l].body.no, rows[l].revisionSha) && base == BaselineOf(rows, e, first + 1);
    OneSpan(rows, run, first, l);
  }

  /** A reference that resolves leads to the very revision, with all that its digest covers. */
  lemma ResolvedRevision(history: seq<Row>, ref: RevRef, body: RevisionBody)
    requires ResolveIn(history, ref).Some? && ref.revisionSha == RevisionSha(body)
    ensures exists row :: row in history && row.RevisionRow? && row.body == body
  {
    var p := (r: Row) => r.RevisionRow? && r.body.no == ref.no;
    FilterHolds(history, p);
    var matches := Filter(history, p);
    assert matches[0] in history && matches[0].body == body;
  }

  lemma LiveRevision(s: Store, cut: Store, run: RunId, e: EntryId, last: nat)
    requires Sane(s) && LastOfRun(Rows(s, History(e)), run, last)
    requires DeriveDelta(cut, BuildSnapshot(s, run)).Some?
    ensures exists row :: row in Rows(cut, History(e)) && row.RevisionRow?
                          && row.body == Rows(s, History(e))[last].body
    ensures ChainOk(Lines(cut, History(e)))
  {
    var snap, rows := BuildSnapshot(s, run), Rows(s, History(e));
    assert EntryInv(s, e) && RevisionAt(Lines(s, History(e)), e, last);
    assert 1 <= e <= LastEntry(s);
    RevisionsAreReferenced(s, run, LastEntry(s), e, last);
    var ref := RevRef(e, rows[last].body.no, rows[last].revisionSha);
    var k :| 0 <= k < |snap.revisions| && snap.revisions[k] == ref;
    ChangesResolve(cut, snap.revisions, snap.baselines);
    ResolvedRevision(Rows(cut, History(e)), ref, rows[last].body);
  }

  // ---- The theorem --------------------------------------------------------------------------------------

  /** Everything that the delta of the run was made from in s is still there in cut. */
  ghost predicate StillThere(s: Store, cut: Store, run: RunId) {
    && (forall l :: l in Lines(s, Occurrences) && OccurrenceOf(l, run) ==> l in Lines(cut, Occurrences))
    && (forall l :: l in Lines(s, Ledger) && AttributionOf(l, run) ==> l in Lines(cut, Ledger))
    && (forall id :: Occurred(Rows(s, Occurrences), run, id) ==>
          ObservationFile(id) in s.files
          && Get(cut.files, ObservationFile(id)) == Get(s.files, ObservationFile(id)))
    && (forall e: EntryId, last: nat :: LastOfRun(Rows(s, History(e)), run, last) ==>
          && ChainOk(Lines(cut, History(e)))
          && exists row :: row in Rows(cut, History(e)) && row.RevisionRow?
                           && row.body == Rows(s, History(e))[last].body)
  }

  lemma DerivedIsThere(s: Store, cut: Store, run: RunId)
    requires Sane(s) && DeriveDelta(cut, BuildSnapshot(s, run)).Some?
    ensures StillThere(s, cut, run)
  {
    var snap := BuildSnapshot(s, run);
    ChainIsDigested(Lines(s, Occurrences));
    ChainIsDigested(Lines(s, Ledger));
    OccurrencesAreReferenced(Lines(s, Occurrences), run);
    forall l | l in Lines(s, Occurrences) && OccurrenceOf(l, run) ensures l in Lines(cut, Occurrences) {
      LiveOccurrence(cut, snap, l);
    }
    forall l | l in Lines(s, Ledger) && AttributionOf(l, run) ensures l in Lines(cut, Ledger) {
      AttributionsIff(Lines(s, Ledger), run, AttRef(l.payload.attribution, l.payload.kind, l.sha));
      LiveAttribution(cut, snap, l);
    }
    forall id | Occurred(Rows(s, Occurrences), run, id)
      ensures ObservationFile(id) in s.files
              && Get(cut.files, ObservationFile(id)) == Get(s.files, ObservationFile(id))
    {
      LiveObservation(s, cut, run, id);
    }
    forall e: EntryId, last: nat | LastOfRun(Rows(s, History(e)), run, last)
      ensures ChainOk(Lines(cut, History(e)))
      ensures exists row :: row in Rows(cut, History(e)) && row.RevisionRow?
                            && row.body == Rows(s, History(e))[last].body
    {
      LiveRevision(s, cut, run, e, last);
    }
  }

  /**
   * A no-op is evidence.  A delta was generated from the store s.  On any later store whatsoever, sane
   * or not, in which the delta file is as it was written and some snapshot file exists, a rerun that
   * answers "noop" implies that the snapshot is the one that was written, and that every occurrence and
   * attribution of the run, every observation it saw and every finding's last revision by it is still
   * there, byte for byte.
   */
  lemma NoopIsEvidence(s: Store, s': Store, cut: Store, journal: seq<Line<JRecord>>, later: seq<Line<JRecord>>,
                       run: string, w: Option<string>, again: Option<string>)
    requires Sane(s) && BuildDelta(s, journal, run, w).Write? && Wrote(s, s', BuildDelta(s, journal, run, w).op)
    requires Get(cut.files, DeltaFile(run)) == Get(s'.files, DeltaFile(run))
    requires SnapshotFile(run) in cut.files && BuildDelta(cut, later, run, again).Noop?
    ensures Get(cut.files, SnapshotFile(run)) == Get(s'.files, SnapshotFile(run)) && again == w
    ensures StillThere(s, cut, Some(run))
  {
    var rewrites := BuildDelta(s, journal, run, w).op.rewrites;
    assert Get(s'.files, rewrites[0].file) == Some(rewrites[0].obj);
    assert Get(s'.files, rewrites[1].file) == Some(rewrites[1].obj);
    assert rewrites[0].obj == SnapshotObj(BuildSnapshot(s, Some(run)));
    DerivedIsThere(s, cut, Some(run));
  }
}
