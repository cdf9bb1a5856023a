/**
 * What the checkpoint is for: it records where the chained files stood before the last operation, and
 * verify_hashes holds every later state of them against it.
 */
module AlfCheckpoints {
  import opened Wrappers
  import opened HashChain
  import opened AlfRecords
  import opened AlfJournal
  import opened AlfRecovery
  import opened AlfPost
  import opened AlfCrashes
  import opened AlfLayers
  import opened AlfRuns

  // ---- What is recorded ---------------------------------------------------------------------------

  /** A request that took effect, cut off and recovered or not, leaves a checkpoint of the state before it. */
  lemma EventRecords(d: Disk, e: Event)
    requires Quiescent(d) && AfterEvent(d, e).store != d.store
    ensures LiveRecords(AfterEvent(d, e).store.files, d.store, d.journal)
  {
    var built := BuildOf(d.store, d.journal, e.request);
    BuiltIsWellFormed(d.store, d.journal, e.request);
    StepIsAtomic(d, Step(built.op, e.fuse, e.crashes));
    PostMeaning(Txn(d, built.op));
  }

  // ---- What verify_hashes makes of it ---------------------------------------------------------------

  /** The journal vouches for the bytes of the checkpoint. */
  lemma JournalVouches(d: Disk)
    requires Settled(d) && d.journal != []
    ensures ExpectedHeads in d.store.files
    ensures LatestCheckpointHash(d.journal, |d.journal|) == Some(Sha256(ObjBytes(d.store.files[ExpectedHeads])))
  {
    var n := |d.journal|;
    var begin := d.journal[n - 2].payload;
    assert d.journal[n - 1].payload == OpCommit(begin.op);
    assert Committed(d.journal, begin.op);
    assert LatestCheckpointHash(d.journal, n) == LatestCheckpointHash(d.journal, n - 1);
  }

  /** A checkpoint that verifies is the one the last operation wrote, unless it is gone. */
  lemma CheckpointIsGenuine(d: Disk, cut: Disk)
    requires Settled(d) && d.journal != [] && cut.journal == d.journal
    requires CheckpointVerifies(cut) && ExpectedHeads in cut.store.files
    ensures Get(cut.store.files, ExpectedHeads) == Get(d.store.files, ExpectedHeads)
  {
    JournalVouches(d);
  }

  lemma InPlaceKeepsPrefix(lines: seq<Line<Row>>, head: Head<Row>, later: seq<Line<Row>>)
    requires ChainOk(lines) && ChainOk(later) && Records(head, lines) && HeadInPlace(later, head)
    ensures lines <= later
  {
    AncestryFixesPrefix(lines, later, |lines|);
    assert lines[..|lines|] == lines;
  }

  /** The files that the checkpoint covers. */
  predicate Covered(p: Path) {
    p == Index || p == Occurrences || p == Ledger
  }

  /** a is a quiescent disk that an operation has left behind, which started from d. */
  ghost predicate Follows(d: Disk, a: Disk) {
    && Quiescent(d) && Quiescent(a) && a.journal != []
    && LiveRecords(a.store.files, d.store, d.journal)
    && forall p :: Covered(p) ==> Lines(d.store, p) <= Lines(a.store, p)
  }

  lemma EventFollows(d: Disk, e: Event)
    requires Quiescent(d) && AfterEvent(d, e).store != d.store
    ensures Follows(d, AfterEvent(d, e))
  {
    EventKeeps(d, e);
    EventRecords(d, e);
  }

  lemma KeepsThePast(d: Disk, a: Disk, cut: Disk, p: Path)
    requires Follows(d, a) && cut.journal == a.journal && ExpectedHeads in cut.store.files
    requires VerifyHashesOk(cut) && Covered(p)
    ensures Lines(d.store, p) <= Lines(cut.store, p)
  {
    CheckpointIsGenuine(a, cut);
    assert FileVerifies(cut, p) && ChainOk(Lines(d.store, p));
    var cp := cut.store.files[ExpectedHeads].checkpoint;
    var head := if p == Index then cp.index else if p == Occurrences then cp.occurrences else cp.ledger;
    InPlaceKeepsPrefix(Lines(d.store, p), head, Lines(cut.store, p));
  }

  /**
   * Nothing that stood before the last operation can be lost unnoticed.  Take any disk with the journal
   * that an operation left behind and with some checkpoint file, everything else arbitrary.  If
   * verify_hashes reports ok on it, the index, the occurrences and the ledger still begin with every
   * line they had before that operation, byte for byte.
   */
  lemma VerifiedKeepsThePast(d: Disk, e: Event, cut: Disk, p: Path)
    requires Quiescent(d) && AfterEvent(d, e).store != d.store
    requires cut.journal == AfterEvent(d, e).journal && ExpectedHeads in cut.store.files
    requires VerifyHashesOk(cut) && Covered(p)
    ensures Lines(d.store, p) <= Lines(cut.store, p)
  {
    EventFollows(d, e);
    KeepsThePast(d, AfterEvent(d, e), cut, p);
  }

  /** In particular, a file that is shorter than before, or has another line where it ended, is reported. */
  lemma LossIsReported(d: Disk, e: Event, cut: Disk, p: Path)
    requires Quiescent(d) && AfterEvent(d, e).store != d.store
    requires cut.journal == AfterEvent(d, e).journal && cut.store.files == AfterEvent(d, e).store.files && Covered(p)
    requires var n := |Lines(d.store, p)|;
             || |Lines(cut.store, p)| < n
             || (n > 0 && Lines(cut.store, p)[n - 1].sha != Lines(d.store, p)[n - 1].sha)
    ensures !VerifyHashesOk(cut)
  {
    EventFollows(d, e);
    if VerifyHashesOk(cut) {
      KeepsThePast(d, AfterEvent(d, e), cut, p);
    }
  }

  // ---- And what it does not see -----------------------------------------------------------------------

  /** The disk with other lines in one chained file. */
  function WithLines(d: Disk, p: Path, lines: seq<Line<Row>>): Disk {
    d.(store := d.store.(chains := d.store.chains[p := lines]))
  }

  /**
   * Exchange the lines of the occurrences or of the ledger after an operation for any others:
   * verify_hashes reports ok iff they are an intact chain that begins with the lines from before the
   * operation.  So what the last operation itself appended can be cut off unnoticed.
   */
  lemma ExchangePassesIff(d: Disk, e: Event, p: Path, lines: seq<Line<Row>>)
    requires Quiescent(d) && AfterEvent(d, e).store != d.store && !AfterEvent(d, e).journalTorn
    requires p == Occurrences || p == Ledger
    ensures VerifyHashesOk(WithLines(AfterEvent(d, e), p, lines)) <==> ChainOk(lines) && Lines(d.store, p) <= lines
  {
    EventFollows(d, e);
    ExchangeFollowing(d, AfterEvent(d, e), p, lines);
  }

  lemma ExchangeFollowing(d: Disk, a: Disk, p: Path, lines: seq<Line<Row>>)
    requires Follows(d, a) && !a.journalTorn && (p == Occurrences || p == Ledger)
    ensures VerifyHashesOk(WithLines(a, p, lines)) <==> ChainOk(lines) && Lines(d.store, p) <= lines
  {
    var cut := WithLines(a, p, lines);
    assert Lines(cut.store, p) == lines;
    if VerifyHashesOk(cut) {
      KeepsThePast(d, a, cut, p);
      assert FileVerifies(cut, p);
    }
    if ChainOk(lines) && Lines(d.store, p) <= lines {
      QuiescentVerifies(a);
      OthersVerify(a, cut, p);
      CheckpointStands(d, a, cut, p);
    }
  }

  lemma OthersVerify(a: Disk, cut: Disk, p: Path)
    requires VerifyHashesOk(a) && a.torn == {} && (p == Occurrences || p == Ledger)
    requires cut == WithLines(a, p, Lines(cut.store, p)) && ChainOk(Lines(cut.store, p))
    ensures FileVerifies(cut, Index) && FileVerifies(cut, Occurrences) && FileVerifies(cut, Ledger)
    ensures Rows(cut.store, Index) == Rows(a.store, Index)
    ensures forall e :: FileVerifies(cut, History(e)) && HeadRebuilds(cut.store, e)
  {
    assert forall q :: q != p ==> Lines(cut.store, q) == Lines(a.store, q);
    forall e ensures FileVerifies(cut, History(e)) && HeadRebuilds(cut.store, e) {
      assert FileVerifies(a, History(e)) && HeadRebuilds(a.store, e);
    }
  }

  lemma CheckpointStands(d: Disk, a: Disk, cut: Disk, p: Path)
    requires Follows(d, a) && Covered(p) && Lines(d.store, p) <= Lines(cut.store, p)
    requires cut == WithLines(a, p, Lines(cut.store, p))
    ensures CheckpointVerifies(cut)
  {
    forall q | Covered(q) ensures Lines(d.store, q) <= Lines(cut.store, q) {
      assert q != p ==> Lines(cut.store, q) == Lines(a.store, q);
    }
    HeadsInPlace(d, cut);
    VouchedVerifies(a, cut);
  }

  lemma VouchedVerifies(a: Disk, cut: Disk)
    requires Settled(a) && a.journal != [] && cut.journal == a.journal && cut.store.files == a.store.files
    requires Get(cut.store.files, ExpectedHeads).Some? && cut.store.files[ExpectedHeads].CheckpointObj?
    requires var cp := cut.store.files[ExpectedHeads].checkpoint;
             && HeadInPlace(Lines(cut.store, Index), cp.index)
             && HeadInPlace(Lines(cut.store, Occurrences), cp.occurrences)
             && HeadInPlace(Lines(cut.store, Ledger), cp.ledger)
    ensures CheckpointVerifies(cut)
  {
    JournalVouches(a);
  }

  lemma HeadsInPlace(d: Disk, cut: Disk)
    requires LiveRecords(cut.store.files, d.store, d.journal)
    requires forall q :: Covered(q) ==> Lines(d.store, q) <= Lines(cut.store, q)
    ensures var cp := cut.store.files[ExpectedHeads].checkpoint;
            && HeadInPlace(Lines(cut.store, Index), cp.index)
            && HeadInPlace(Lines(cut.store, Occurrences), cp.occurrences)
            && HeadInPlace(Lines(cut.store, Ledger), cp.ledger)
  {
    assert Covered(Index) && Covered(Occurrences) && Covered(Ledger);
  }

  // ---- Whole-file objects -------------------------------------------------------------------------------

  /** The disk with another content in one file. */
  function WithFile(d: Disk, f: FilePath, obj: Obj): Disk {
    d.(store := d.store.(files := d.store.files[f := obj]))
  }

  /**
   * No stored observation, no head of a finding and no checkpoint can be altered: of any content that is
   * put in its place, verify_hashes passes the original only.
   */
  lemma AlterationPassesIff(d: Disk, f: FilePath, obj: Obj)
    requires Quiescent(d) && !d.journalTorn && f in d.store.files
    requires f.ObservationFile? || f.FindingHead? || (f == ExpectedHeads && d.journal != [])
    ensures VerifyHashesOk(WithFile(d, f, obj)) <==> obj == d.store.files[f]
  {
    var cut := WithFile(d, f, obj);
    if obj == d.store.files[f] {
      assert cut == d;
      QuiescentVerifies(d);
    } else if VerifyHashesOk(cut) {
      match f
      case ObservationFile(id) => AlteredObservation(d, id, obj);
      case FindingHead(e) => AlteredHead(d, e, obj);
      case _ => CheckpointIsGenuine(d, cut);
    }
  }

  lemma AlteredObservation(d: Disk, id: ObsId, obj: Obj)
    requires Quiescent(d) && ObservationFile(id) in d.store.files
    requires VerifyHashesOk(WithFile(d, ObservationFile(id), obj))
    ensures obj == d.store.files[ObservationFile(id)]
  {
    var cut := WithFile(d, ObservationFile(id), obj);
    var index := Rows(d.store, Index);
    assert forall p :: Lines(cut.store, p) == Lines(d.store, p);
    assert IndexHas(index, id);
    var i :| 0 <= i < |index| && index[i].IndexRow? && index[i].observation == id;
    assert IndexedObservation(d.store, index[i]);
    assert Rows(cut.store, Index) == index;
    assert Rows(cut.store, Index)[i] == index[i];
  }

  lemma AlteredHead(d: Disk, e: EntryId, obj: Obj)
    requires Quiescent(d) && FindingHead(e) in d.store.files
    requires VerifyHashesOk(WithFile(d, FindingHead(e), obj))
    ensures obj == d.store.files[FindingHead(e)]
  {
    assert EntryInv(d.store, e);
    assert HeadRebuilds(WithFile(d, FindingHead(e), obj).store, e);
  }

  /** Nor does a chained file with an unterminated end pass. */
  lemma TornIsReported(d: Disk, p: Path)
    requires p in d.torn && (Covered(p) || p.History?)
    ensures !VerifyHashesOk(d)
  {
    if p.History? {
      assert !FileVerifies(d, History(p.entry));
    }
  }
}
