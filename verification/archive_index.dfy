/**
 * The archive as a whole (tools/clearwright_archive.py): journals, manifests and the index that is
 * merged one manifest at a time, over runs with crashes, halts and recoveries.
 */
module ArchiveIndex {
  import opened Wrappers
  import opened ArchiveMoves

  type OpId = string
  type RecordId = string

  datatype Row = Row(id: RecordId, kind: string, path: Path)
  datatype IndexEntry = IndexEntry(kind: string, paths: seq<Path>)
  type Index = map<RecordId, IndexEntry>

  /** The rows of the manifest of a journal. */
  function RowsOf(items: seq<Item>): seq<Row> {
    seq(|items|, i requires 0 <= i < |items| => Row(items[i].id, items[i].kind, items[i].dst))
  }

  // ---- The index ------------------------------------------------------------------------------

  function MergeRow(index: Index, row: Row): Index {
    var entry := GetOr(index, row.id, IndexEntry(row.kind, []));
    if row.path in entry.paths then index else index[row.id := entry.(paths := entry.paths + [row.path])]
  }

  /** `_merge_manifest_into_index`. */
  function Merge(index: Index, rows: seq<Row>): Index {
    if rows == [] then index else MergeRow(Merge(index, rows[..|rows| - 1]), rows[|rows| - 1])
  }

  /** `rebuild_index` over the manifests in the order of a directory listing. */
  function Rebuild(manifests: map<OpId, seq<Row>>, listing: seq<OpId>): Index {
    if listing == [] then map[]
    else Merge(Rebuild(manifests, listing[..|listing| - 1]), GetOr(manifests, listing[|listing| - 1], []))
  }

  /** `resolve_archived`: the paths recorded under an id. */
  function PathsOf(index: Index, id: RecordId): set<Path> {
    if id in index then set p | p in index[id].paths else {}
  }

  predicate Names(rows: seq<Row>, id: RecordId, p: Path) {
    exists i :: 0 <= i < |rows| && rows[i].id == id && rows[i].path == p
  }

  lemma {:induction false} MergeMeans(index: Index, rows: seq<Row>, id: RecordId, p: Path)
    ensures p in PathsOf(Merge(index, rows), id) <==> p in PathsOf(index, id) || Names(rows, id, p)
    decreases |rows|
  {
    if rows != [] {
      var front, last := rows[..|rows| - 1], rows[|rows| - 1];
      MergeMeans(index, front, id, p);
      assert forall i :: 0 <= i < |front| ==> front[i] == rows[i];
      assert Names(rows, id, p) <==> Names(front, id, p) || (last.id == id && last.path == p) by {
        if last.id == id && last.path == p {
          assert rows[|rows| - 1] == last;
        }
        if Names(front, id, p) {
          var i :| 0 <= i < |front| && front[i].id == id && front[i].path == p;
          assert rows[i] == front[i];
        }
      }
    }
  }

  /** Some manifest of the listing names the path. */
  predicate Listed(manifests: map<OpId, seq<Row>>, listing: seq<OpId>, id: RecordId, p: Path) {
    exists k :: 0 <= k < |listing| && Names(GetOr(manifests, listing[k], []), id, p)
  }

  lemma {:induction false} RebuildMeans(manifests: map<OpId, seq<Row>>, listing: seq<OpId>, id: RecordId, p: Path)
    ensures p in PathsOf(Rebuild(manifests, listing), id) <==> Listed(manifests, listing, id, p)
    decreases |listing|
  {
    if listing != [] {
      var front, last := listing[..|listing| - 1], listing[|listing| - 1];
      RebuildMeans(manifests, front, id, p);
      MergeMeans(Rebuild(manifests, front), GetOr(manifests, last, []), id, p);
      if Listed(manifests, front, id, p) {
        var k :| 0 <= k < |front| && Names(GetOr(manifests, front[k], []), id, p);
        assert listing[k] == front[k];
      }
      if Names(GetOr(manifests, last, []), id, p) {
        assert listing[|listing| - 1] == last;
      }
      if Listed(manifests, listing, id, p) {
        var k :| 0 <= k < |listing| && Names(GetOr(manifests, listing[k], []), id, p);
        assert k < |front| ==> front[k] == listing[k];
      }
    }
  }

  // ---- The archive ------------------------------------------------------------------------------

  datatype Archive = Archive(files: Files, logs: map<OpId, Log>, pending: map<OpId, seq<Item>>,
                             done: map<OpId, seq<Item>>, manifests: map<OpId, seq<Row>>, index: Index)

  datatype Result = Result(archive: Archive, ending: Ending, fuse: Option<Crash>)

  /** `finalize_journal`: manifest, index, and the journal's own name, each replaced atomically. */
  function Finalize(a: Archive, op: OpId, fuse: Option<Crash>): Result
    requires op in a.pending
  {
    if Now(fuse) then Result(a, Crashed, None)
    else
      var rows := RowsOf(a.pending[op]);
      var a1 := a.(manifests := a.manifests[op := rows]);
      var f1 := Burn(fuse);
      if Now(f1) then Result(a1, Crashed, None)
      else
        var a2 := a1.(index := Merge(a1.index, rows));
        var f2 := Burn(f1);
        if Now(f2) then Result(a2, Crashed, None)
        else Result(a2.(pending := a2.pending - {op}, done := a2.done[op := a2.pending[op]]), Success, Burn(f2))
  }

  /** Execute a pending journal and finalize it. */
  function Resume(a: Archive, op: OpId, fuse: Option<Crash>): Result
    requires op in a.pending
  {
    var out := Execute(Disk(a.files, GetOr(a.logs, op, EMPTY_LOG)), a.pending[op], fuse);
    var a1 := a.(files := out.disk.files, logs := a.logs[op := out.disk.log]);
    if out.ending == Success then Finalize(a1, op, out.fuse) else Result(a1, out.ending, out.fuse)
  }

  /** `recover_pending`: every pending journal in turn; one that halts does not stop the others. */
  function Recover(a: Archive, listing: seq<OpId>, fuse: Option<Crash>): Result
    decreases |listing|
  {
    if listing == [] then Result(a, Success, fuse)
    else if listing[0] !in a.pending then Recover(a, listing[1..], fuse)
    else
      var r := Resume(a, listing[0], fuse);
      if r.ending == Crashed then r else Recover(r.archive, listing[1..], r.fuse)
  }

  /** `write_journal` and the run that follows it; the op id of a new journal is fresh. */
  function Start(a: Archive, op: OpId, items: seq<Item>, fuse: Option<Crash>): Result {
    if op in a.pending || op in a.done then Result(a, Halted, fuse)
    else if Now(fuse) then Result(a, Crashed, None)
    else Resume(a.(pending := a.pending[op := items]), op, Burn(fuse))
  }

  datatype Event =
    | Begin(op: OpId, items: seq<Item>, fuse: Option<Crash>)
    | Recovery(listing: seq<OpId>, fuse: Option<Crash>)
    | RebuildIndex(listing: seq<OpId>)

  predicate Lists(manifests: map<OpId, seq<Row>>, listing: seq<OpId>) {
    (forall op :: op in listing ==> op in manifests) && (forall op :: op in manifests ==> op in listing)
  }

  function AfterEvent(a: Archive, e: Event): Archive {
    match e
    case Begin(op, items, fuse) => Start(a, op, items, fuse).archive
    case Recovery(listing, fuse) => Recover(a, listing, fuse).archive
    case RebuildIndex(listing) =>
      if Lists(a.manifests, listing) then a.(index := Rebuild(a.manifests, listing)) else a
  }

  function AfterEvents(a: Archive, events: seq<Event>): Archive
    decreases |events|
  {
    if events == [] then a else AfterEvents(AfterEvent(a, events[0]), events[1..])
  }

  // ---- The invariant ------------------------------------------------------------------------------

  /** Some manifest names the path; a manifest of a completed journal, if `finished` is set. */
  predicate Manifested(a: Archive, id: RecordId, p: Path, finished: bool) {
    exists op :: op in a.manifests && (finished ==> op in a.done) && Names(a.manifests[op], id, p)
  }

  predicate ManifestOk(a: Archive, op: OpId)
    requires op in a.manifests
  {
    (op in a.pending && a.manifests[op] == RowsOf(a.pending[op]))
        || (op in a.done && a.manifests[op] == RowsOf(a.done[op]))
  }

  /** The index holds what completed journals archived, and nothing that no manifest names. */
  ghost predicate Sandwiched(a: Archive) {
    && (forall id, p :: Manifested(a, id, p, true) ==> p in PathsOf(a.index, id))
    && (forall id, p :: p in PathsOf(a.index, id) ==> Manifested(a, id, p, false))
  }

  ghost predicate Inv(a: Archive) {
    && a.pending.Keys !! a.done.Keys
    && (forall op :: op in a.manifests ==> ManifestOk(a, op))
    && (forall op :: op in a.done ==> op in a.manifests)
    && Sandwiched(a)
  }

  lemma MergeKeeps(a: Archive, op: OpId)
    requires Inv(a) && op in a.manifests
    ensures Inv(a.(index := Merge(a.index, a.manifests[op])))
    ensures forall id, p :: Names(a.manifests[op], id, p) ==> p in PathsOf(Merge(a.index, a.manifests[op]), id)
  {
    var b := a.(index := Merge(a.index, a.manifests[op]));
    forall id, p
      ensures Manifested(b, id, p, true) || Names(a.manifests[op], id, p) ==> p in PathsOf(b.index, id)
      ensures p in PathsOf(b.index, id) ==> Manifested(b, id, p, false)
    {
      MergeMeans(a.index, a.manifests[op], id, p);
      assert Manifested(b, id, p, true) <==> Manifested(a, id, p, true);
      assert Manifested(b, id, p, false) <==> Manifested(a, id, p, false);
    }
    assert forall o :: o in b.manifests ==> (ManifestOk(b, o) <==> ManifestOk(a, o));
  }

  lemma RetireKeeps(a: Archive, op: OpId)
    requires Inv(a) && op in a.pending && op in a.manifests
    requires forall id, p :: Names(a.manifests[op], id, p) ==> p in PathsOf(a.index, id)
    ensures Inv(a.(pending := a.pending - {op}, done := a.done[op := a.pending[op]]))
  {
  }

  lemma FinalizeKeeps(a: Archive, op: OpId, fuse: Option<Crash>)
    requires Inv(a) && op in a.pending
    ensures Inv(Finalize(a, op, fuse).archive) && Finalize(a, op, fuse).archive.files == a.files
  {
    var a1 := a.(manifests := a.manifests[op := RowsOf(a.pending[op])]);
    MergeKeeps(a1, op);
    RetireKeeps(a1.(index := Merge(a1.index, a1.manifests[op])), op);
  }

  lemma ResumeKeeps(a: Archive, op: OpId, fuse: Option<Crash>)
    requires Inv(a) && op in a.pending
    ensures Inv(Resume(a, op, fuse).archive) && Conserves(a.files, Resume(a, op, fuse).archive.files)
  {
    var d := Disk(a.files, GetOr(a.logs, op, EMPTY_LOG));
    var out := Execute(d, a.pending[op], fuse);
    RunConserves(d, a.pending[op], 0, Completed(d.log), fuse);
    var a1 := a.(files := out.disk.files, logs := a.logs[op := out.disk.log]);
    if out.ending == Success {
      FinalizeKeeps(a1, op, out.fuse);
    }
  }

  lemma {:induction false} RecoverKeeps(a: Archive, listing: seq<OpId>, fuse: Option<Crash>)
    requires Inv(a)
    ensures Inv(Recover(a, listing, fuse).archive) && Conserves(a.files, Recover(a, listing, fuse).archive.files)
    decreases |listing|
  {
    if listing != [] {
      if listing[0] !in a.pending {
        RecoverKeeps(a, listing[1..], fuse);
      } else {
        ResumeKeeps(a, listing[0], fuse);
        var r := Resume(a, listing[0], fuse);
        if r.ending != Crashed {
          RecoverKeeps(r.archive, listing[1..], r.fuse);
        }
      }
    }
  }

  lemma JournalKeeps(a: Archive, op: OpId, items: seq<Item>)
    requires Inv(a) && op !in a.pending && op !in a.done
    ensures Inv(a.(pending := a.pending[op := items]))
  {
  }

  lemma RebuildKeeps(a: Archive, listing: seq<OpId>)
    requires Inv(a) && Lists(a.manifests, listing)
    ensures Inv(a.(index := Rebuild(a.manifests, listing)))
  {
    var b := a.(index := Rebuild(a.manifests, listing));
    forall o | o in b.manifests ensures ManifestOk(b, o) {
      assert ManifestOk(a, o);
    }
    forall id, p
      ensures Manifested(b, id, p, true) ==> p in PathsOf(b.index, id)
      ensures p in PathsOf(b.index, id) ==> Manifested(b, id, p, false)
    {
      RebuildMeans(a.manifests, listing, id, p);
      if Manifested(b, id, p, true) {
        var op :| op in b.manifests && op in b.done && Names(b.manifests[op], id, p);
        assert Manifested(a, id, p, false);
      }
      if p in PathsOf(b.index, id) {
        var op :| op in a.manifests && Names(a.manifests[op], id, p);
        assert op in b.manifests;
      }
    }
  }

  lemma {:induction false} EventsKeep(a: Archive, events: seq<Event>)
    requires Inv(a)
    ensures Inv(AfterEvents(a, events)) && Conserves(a.files, AfterEvents(a, events).files)
    decreases |events|
  {
    if events != [] {
      match events[0] {
        case Begin(op, items, fuse) =>
          if op !in a.pending && op !in a.done && !Now(fuse) {
            JournalKeeps(a, op, items);
            ResumeKeeps(a.(pending := a.pending[op := items]), op, Burn(fuse));
          }
        case Recovery(listing, fuse) =>
          RecoverKeeps(a, listing, fuse);
        case RebuildIndex(listing) =>
          if Lists(a.manifests, listing) {
            RebuildKeeps(a, listing);
          }
      }
      EventsKeep(AfterEvent(a, events[0]), events[1..]);
    }
  }

  function Fresh(files: Files): Archive {
    Archive(files, map[], map[], map[], map[], map[])
  }

  /**
   * Index agreement.  After any archive operations, halted, interrupted at any step or resumed, no
   * file has been deleted or altered; and when no journal is pending, the index that was merged one
   * manifest at a time gives every id the paths a rebuild gives it, every planned destination included.
   */
  lemma IndexAgrees(files: Files, events: seq<Event>, listing: seq<OpId>)
    ensures var a := AfterEvents(Fresh(files), events);
            && Conserves(files, a.files)
            && (a.pending == map[] && Lists(a.manifests, listing) ==>
                  && (forall id :: PathsOf(a.index, id) == PathsOf(Rebuild(a.manifests, listing), id))
                  && (forall op, i :: op in a.done && 0 <= i < |a.done[op]| ==>
                        a.done[op][i].dst in PathsOf(a.index, a.done[op][i].id)))
  {
    EventsKeep(Fresh(files), events);
    var a := AfterEvents(Fresh(files), events);
    if a.pending == map[] && Lists(a.manifests, listing) {
      forall id, p ensures p in PathsOf(a.index, id) <==> p in PathsOf(Rebuild(a.manifests, listing), id) {
        RebuildMeans(a.manifests, listing, id, p);
        if Manifested(a, id, p, false) {
          var op :| op in a.manifests && Names(a.manifests[op], id, p);
          assert ManifestOk(a, op);
          assert Manifested(a, id, p, true);
        }
      }
      forall id ensures PathsOf(a.index, id) == PathsOf(Rebuild(a.manifests, listing), id) {
        assert forall p :: p in PathsOf(a.index, id) <==> p in PathsOf(Rebuild(a.manifests, listing), id);
      }
      forall op, i | op in a.done && 0 <= i < |a.done[op]|
        ensures a.done[op][i].dst in PathsOf(a.index, a.done[op][i].id)
      {
        assert ManifestOk(a, op) && a.manifests[op] == RowsOf(a.done[op]);
        assert a.manifests[op][i].path == a.done[op][i].dst;
        assert Manifested(a, a.done[op][i].id, a.done[op][i].dst, true);
      }
    }
  }
}
