/**
 * Captures over whole runs: what one capture writes, and which run the index names for an
 * observation.
 */
module AlfCaptures {
  import opened Wrappers
  import opened HashChain
  import opened AlfRecords
  import opened AlfJournal
  import opened AlfLayers
  import opened AlfRuns
  import opened AlfDeltaContent

  /**
   * What a capture writes: always one occurrence, for the run, with the metrics; and, the first time,
   * the observation with its index row, whose digest is that of the stored bytes.
   */
  lemma CaptureMeans(s: Store, s': Store, obs: Observation)
    requires BuildCapture(s, obs).Write? && Wrote(s, s', BuildCapture(s, obs).op)
    ensures var id := ObsIdOf(obs);
            var known := ObservationFile(id) in s.files;
            && Rows(s', Occurrences)
               == Rows(s, Occurrences) + [OccurrenceRow(OccId(id, obs.run), id, obs.run, obs.metrics)]
            && (known ==> Rows(s', Index) == Rows(s, Index)
                          && Get(s'.files, ObservationFile(id)) == Get(s.files, ObservationFile(id)))
            && (!known ==>
                  && Get(s'.files, ObservationFile(id)) == Some(ObservationObj(obs))
                  && Rows(s', Index)
                     == Rows(s, Index) + [IndexRow(id, ContentSha(ObjBytes(ObservationObj(obs))), obs.run)])
  {
    var op, id := BuildCapture(s, obs).op, ObsIdOf(obs);
    var own := Append(Occurrences, OccurrenceRow(OccId(id, obs.run), id, obs.run, obs.metrics));
    CaptureAppends(s, obs, op, Index);
    CaptureAppends(s, obs, op, Occurrences);
    if ObservationFile(id) in s.files {
      assert Untouched(s, s', op, ObservationFile(id));
    } else {
      assert Get(s'.files, op.rewrites[0].file) == Some(op.rewrites[0].obj);
    }
  }

  /** When a capture writes nothing: the occurrence is already on record, with the same identity. */
  lemma CaptureNoopIff(s: Store, obs: Observation)
    ensures BuildCapture(s, obs).Noop? <==>
              && (var known := Get(s.files, ObservationFile(ObsIdOf(obs)));
                  known.Some? ==> known.value.ObservationObj? && known.value.observation.facts == obs.facts
                                  && known.value.observation.evidence == obs.evidence)
              && exists i :: 0 <= i < |Rows(s, Occurrences)| && Rows(s, Occurrences)[i].OccurrenceRow?
                             && Rows(s, Occurrences)[i].occurrence == OccId(ObsIdOf(obs), obs.run)
  {
  }

  /** The first occurrence of the observation belongs to the run. */
  ghost predicate FirstSeenIn(occs: seq<Row>, run: RunId, id: ObsId) {
    exists k :: 0 <= k < |occs| && FirstAt(occs, id, k) && occs[k].run == run
  }

  predicate FirstAt(occs: seq<Row>, id: ObsId, k: nat) {
    && k < |occs| && occs[k].OccurrenceRow? && occs[k].observation == id
    && forall j :: 0 <= j < k ==> !(occs[j].OccurrenceRow? && occs[j].observation == id)
  }

  /** Each index row names the run of the first occurrence of its observation. */
  ghost predicate IndexNamesFirst(s: Store) {
    && (forall i :: 0 <= i < |Rows(s, Index)| ==>
          Rows(s, Index)[i].IndexRow?
          && FirstSeenIn(Rows(s, Occurrences), Rows(s, Index)[i].run, Rows(s, Index)[i].observation))
    && forall k :: 0 <= k < |Rows(s, Occurrences)| ==>
         Rows(s, Occurrences)[k].OccurrenceRow? && ObservationFile(Rows(s, Occurrences)[k].observation) in s.files
  }

  lemma FirstStays(occs: seq<Row>, row: Row, run: RunId, id: ObsId)
    requires FirstSeenIn(occs, run, id)
    ensures FirstSeenIn(occs + [row], run, id)
  {
    var k :| 0 <= k < |occs| && FirstAt(occs, id, k) && occs[k].run == run;
    assert FirstAt(occs + [row], id, k) && (occs + [row])[k] == occs[k];
  }

  lemma CaptureNamesFirst(s: Store, s': Store, obs: Observation)
    requires LayerInv(s) && IndexNamesFirst(s)
    requires BuildCapture(s, obs).Write? && Wrote(s, s', BuildCapture(s, obs).op)
    ensures IndexNamesFirst(s')
  {
    var id := ObsIdOf(obs);
    var occs := Rows(s, Occurrences);
    var row := OccurrenceRow(OccId(id, obs.run), id, obs.run, obs.metrics);
    CaptureMeans(s, s', obs);
    forall i | 0 <= i < |Rows(s, Index)|
      ensures FirstSeenIn(occs + [row], Rows(s, Index)[i].run, Rows(s, Index)[i].observation)
    {
      FirstStays(occs, row, Rows(s, Index)[i].run, Rows(s, Index)[i].observation);
    }
    if ObservationFile(id) !in s.files {
      assert FirstAt(occs + [row], id, |occs|);
    }
    forall f: FilePath | f in s.files && f.ObservationFile? ensures f in s'.files {
      ObservationsStay(s, s', obs, f);
    }
  }

  lemma ObservationsStay(s: Store, s': Store, obs: Observation, f: FilePath)
    requires BuildCapture(s, obs).Write? && Wrote(s, s', BuildCapture(s, obs).op)
    requires f in s.files && f.ObservationFile?
    ensures f in s'.files
  {
    var op := BuildCapture(s, obs).op;
    if f != ObservationFile(ObsIdOf(obs)) {
      assert Untouched(s, s', op, f);
    } else {
      assert op.rewrites == [];
      assert Untouched(s, s', op, f);
    }
  }

  lemma {:induction false} NoRows(appends: seq<Append>, p: Path)
    requires forall i :: 0 <= i < |appends| ==> appends[i].chain != p
    ensures RowsFor(appends, p) == []
    decreases |appends|
  {
    if appends != [] {
      NoRows(appends[1..], p);
    }
  }

  /** Only captures append to the index and to the occurrences. */
  lemma OthersSpareCaptures(s: Store, journal: seq<Line<JRecord>>, r: Request)
    requires BuildOf(s, journal, r).Write? && !r.Capture?
    ensures var appends := BuildOf(s, journal, r).op.appends;
            forall i :: 0 <= i < |appends| ==> appends[i].chain != Index && appends[i].chain != Occurrences
  {
  }

  lemma OthersNameFirst(s: Store, s': Store, journal: seq<Line<JRecord>>, r: Request)
    requires IndexNamesFirst(s) && BuildOf(s, journal, r).Write? && !r.Capture?
    requires Wrote(s, s', BuildOf(s, journal, r).op)
    ensures IndexNamesFirst(s')
  {
    var op := BuildOf(s, journal, r).op;
    OthersSpareCaptures(s, journal, r);
    NoRows(op.appends, Index);
    NoRows(op.appends, Occurrences);
    assert Rows(s', Index) == Rows(s, Index) && Rows(s', Occurrences) == Rows(s, Occurrences);
    forall f: FilePath | f in s.files && f.ObservationFile? ensures f in s'.files {
      RequestSpares(s, journal, r, f);
      assert Untouched(s, s', op, f);
    }
  }

  lemma EventNamesFirst(d: Disk, e: Event)
    requires Quiescent(d) && IndexNamesFirst(d.store)
    ensures Quiescent(AfterEvent(d, e)) && IndexNamesFirst(AfterEvent(d, e).store)
  {
    EventKeeps(d, e);
    if AfterEvent(d, e).store != d.store {
      if e.request.Capture? {
        CaptureRequest(d.store, AfterEvent(d, e).store, d.journal, e.request);
      } else {
        OthersNameFirst(d.store, AfterEvent(d, e).store, d.journal, e.request);
      }
    }
  }

  lemma CaptureRequest(s: Store, s': Store, journal: seq<Line<JRecord>>, r: Request)
    requires LayerInv(s) && IndexNamesFirst(s) && r.Capture?
    requires BuildOf(s, journal, r).Write? && Wrote(s, s', BuildOf(s, journal, r).op)
    ensures IndexNamesFirst(s')
  {
    CaptureNamesFirst(s, s', r.obs);
  }

  lemma {:induction false} RunsNameFirst(d: Disk, events: seq<Event>)
    requires Quiescent(d) && IndexNamesFirst(d.store)
    ensures Quiescent(AfterEvents(d, events)) && IndexNamesFirst(AfterEvents(d, events).store)
    decreases |events|
  {
    if events != [] {
      EventNamesFirst(d, events[0]);
      RunsNameFirst(AfterEvent(d, events[0]), events[1..]);
    }
  }

  /**
   * New means first.  In every store that runs of requests and crashes build from nothing, the index
   * names a run for an observation iff the first occurrence of the observation belongs to that run; so
   * the new observations of a delta are those that occurred in its run before any other.
   */
  lemma NewIsFirst(events: seq<Event>, run: RunId, content: DeltaContent, id: ObsId)
    requires SaysWhatHappened(AfterEvents(FRESH, events).store, run, content)
    ensures id in content.newObservations
            <==> FirstSeenIn(Rows(AfterEvents(FRESH, events).store, Occurrences), run, id)
  {
    FreshIsQuiescent();
    RunsNameFirst(FRESH, events);
    var s := AfterEvents(FRESH, events).store;
    NamedIffFirst(s, run, id);
    if FirstSeenIn(Rows(s, Occurrences), run, id) {
      FirstOccurred(Rows(s, Occurrences), run, id);
    }
  }

  lemma FirstOccurred(occs: seq<Row>, run: RunId, id: ObsId)
    requires FirstSeenIn(occs, run, id)
    ensures Occurred(occs, run, id)
  {
    var k :| 0 <= k < |occs| && FirstAt(occs, id, k) && occs[k].run == run;
    assert occs[k].OccurrenceRow?;
  }

  lemma NamedIffFirst(s: Store, run: RunId, id: ObsId)
    requires LayerInv(s) && IndexNamesFirst(s)
    ensures FirstCapturedBy(Rows(s, Index), run, id) <==> FirstSeenIn(Rows(s, Occurrences), run, id)
  {
    var index, occs := Rows(s, Index), Rows(s, Occurrences);
    if FirstSeenIn(occs, run, id) {
      var k :| 0 <= k < |occs| && FirstAt(occs, id, k) && occs[k].run == run;
      assert ObservationFile(occs[k].observation) in s.files;
      assert IndexHas(index, id);
      var i :| 0 <= i < |index| && index[i].IndexRow? && index[i].observation == id;
      OneFirst(occs, index[i].run, run, id);
      assert index[i].run == run;
    }
    if FirstCapturedBy(index, run, id) {
      var i :| 0 <= i < |index| && index[i].IndexRow? && index[i].observation == id && index[i].run == run;
      assert FirstSeenIn(occs, index[i].run, index[i].observation);
    }
  }

  lemma OneFirst(occs: seq<Row>, a: RunId, b: RunId, id: ObsId)
    requires FirstSeenIn(occs, a, id) && FirstSeenIn(occs, b, id)
    ensures a == b
  {
    var i :| 0 <= i < |occs| && FirstAt(occs, id, i) && occs[i].run == a;
    var j :| 0 <= j < |occs| && FirstAt(occs, id, j) && occs[j].run == b;
    assert i == j;
  }
}
