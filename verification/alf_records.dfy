/**
 * The records of the ALF store: rows of the chained JSONL files, whole-file objects, and journal
 * records.  Content hashes and truncated ids are free terms over what they hash, so they are
 * injective.
 */
module AlfRecords {
  import opened Wrappers
  import opened HashChain

  type RunId = Option<string>
  type EntryId = nat
  type MessageId = string

  // ---- Observations ----------------------------------------------------------------------

  /** One evidence entry; role and location do not take part in the observation id. */
  datatype Evidence = Evidence(source: string, sha: string, role: Option<string>, location: Option<string>)

  datatype SourceKey = SourceKey(source: string, sha: string)

  /** `facts` stands for kind, subsystem, the four subject ids, summary and metrics. */
  datatype ObsId = ObsId(facts: string, sources: seq<SourceKey>)

  datatype OccId = OccId(observation: ObsId, run: RunId)

  /** The six waste counters of tools/clearwright_alf_synth.py. */
  datatype Waste = Waste(operatorMinutes: int, executionDelay: int, tokens: int,
                         apiAttempts: int, toolAttempts: int, councilAttempts: int)
  {
    function Plus(w: Waste): Waste {
      Waste(operatorMinutes + w.operatorMinutes, executionDelay + w.executionDelay,
            tokens + w.tokens, apiAttempts + w.apiAttempts,
            toolAttempts + w.toolAttempts, councilAttempts + w.councilAttempts)
    }
  }

  const NO_WASTE := Waste(0, 0, 0, 0, 0, 0)

  datatype Observation = Observation(facts: string, evidence: seq<Evidence>, run: RunId, capturedAt: nat,
                                     metrics: Waste)

  // ---- Findings --------------------------------------------------------------------------

  datatype Status =
    | Triaged | Prioritized | OperatorReview | ApprovedForPlanning | Deferred | Rejected
    | AcceptedRisk | Superseded | NotReproducible | Merged | Released | Monitoring | Other(name: string)

  datatype FailureClass =
    | AuthorityBypassRisk | DurableRecordIntegrity | Correctness | OperationalReliability | StaleState
    | BrokenRecovery | WorkBlocker | CouncilFailure | QueueFailure | LifecycleFailure | DeploymentFailure
    | OperatorTime | ExecutionDelay | ResourceWaste | PoorFailureReporting | ExcessDeliberation
    | Clarity | UserExperience | Documentation | Maintainability

  datatype Axes = Axes(security: int, authorityIntegrity: int, recordIntegrity: int, reliability: int,
                       operatorTime: int, executionDelay: int, compute: int)

  datatype Baseline = Baseline(tier: Option<int>, score: Option<int>)

  /** `promotable` stands for an empty result of `promotion_gate_problems`. */
  datatype Finding = Finding(
    entry: EntryId, status: Status, failure: FailureClass, axes: Axes, blastRank: nat,
    occurrences: int, affectedRuns: int, waste: Waste,
    tier: Option<int>, score: Option<int>, baseline: Option<Baseline>, promotable: bool)

  // ---- Chained rows ----------------------------------------------------------------------

  datatype AttKind = DefiningAuthority | Recurrence | Regression | DeltaReport | OtherKind(name: string)

  datatype AttId = AttId(occurrence: OccId, entry: EntryId, kind: AttKind)

  datatype RevisionBody = RevisionBody(no: nat, at: nat, reason: string, run: RunId, record: Finding,
                                       prev: Digest<Row>)

  datatype RevisionHash = RevisionSha(body: RevisionBody)

  datatype Row =
    | IndexRow(observation: ObsId, sha: ContentHash, run: RunId)
    | OccurrenceRow(occurrence: OccId, observation: ObsId, run: RunId, metrics: Waste)
    | LedgerRow(attribution: AttId, occurrence: OccId, observation: ObsId, entry: EntryId, kind: AttKind, run: RunId)
    | RevisionRow(body: RevisionBody, revisionSha: RevisionHash)
    | DispositionRow(entry: EntryId, target: Status, message: MessageId)

  /** The append-only chained files. */
  datatype Path = Index | Occurrences | Ledger | History(entry: EntryId) | Dispositions

  // ---- Whole-file objects ----------------------------------------------------------------

  /** Files under deltas/ keep their file name, because names of different runs can collide. */
  datatype FilePath =
    | ObservationFile(id: ObsId) | FindingHead(entry: EntryId) | EntrySeq
    | DeltaDir(name: string) | DeltaChain | ExpectedHeads

  datatype Checkpoint = Checkpoint(journal: Head<JRecord>, index: Head<Row>, occurrences: Head<Row>, ledger: Head<Row>)

  datatype OccRef = OccRef(occurrence: OccId, observation: ObsId, run: RunId, lineSha: Digest<Row>)
  datatype ObsRef = ObsRef(observation: ObsId, sha: ContentHash)
  datatype AttRef = AttRef(attribution: AttId, kind: AttKind, lineSha: Digest<Row>)
  datatype RevRef = RevRef(entry: EntryId, no: nat, revisionSha: RevisionHash)
  datatype BaseRef = BaseRef(entry: EntryId, tier: Option<int>, score: Option<int>, status: Option<Status>,
                             waste: Waste)

  datatype Snapshot = Snapshot(run: RunId, occurrences: seq<OccRef>, observations: seq<ObsRef>,
                               attributions: seq<AttRef>, revisions: seq<RevRef>, baselines: seq<BaseRef>)

  datatype PriorityChange = PriorityChange(entry: EntryId, oldTier: Option<int>, oldScore: Option<int>,
                                           newTier: Option<int>, newScore: Option<int>)
  datatype WasteChange = WasteChange(entry: EntryId, before: Waste, after: Waste)
  datatype RegressionNote = RegressionNote(entry: EntryId, observation: ObsId)

  datatype DeltaContent = DeltaContent(newObservations: seq<ObsId>, newFindings: seq<EntryId>,
                                       priorityChanged: seq<PriorityChange>, regressions: seq<RegressionNote>,
                                       wasteChanges: seq<WasteChange>)

  datatype Anchors = Anchors(index: Head<Row>, ledger: Head<Row>, journal: Head<JRecord>,
                             findingHeads: seq<Head<Row>>, inputSnapshot: ContentHash,
                             prevDelta: Option<AnchorsHash>)
  datatype AnchorsHash = AnchorsSha(anchors: Anchors)

  datatype Delta = Delta(run: RunId, workItem: Option<string>, content: DeltaContent, anchors: Anchors)

  datatype Obj =
    | ObservationObj(observation: Observation)
    | FindingObj(finding: Finding)
    | SeqObj(last: nat)
    | SnapshotObj(snapshot: Snapshot)
    | DeltaObj(delta: Delta)
    | DeltaChainObj(lastAnchors: AnchorsHash)
    | CheckpointObj(checkpoint: Checkpoint)

  // ---- Journal ---------------------------------------------------------------------------

  /** Bytes of a staged file: a canonical line, a whole object, or the remains of a torn write. */
  datatype Payload = LineBytes(line: Line<Row>) | ObjBytes(obj: Obj) | TornBytes

  datatype ContentHash = ContentSha(bytes: Payload)

  /** The binding of one staged write, as it is recorded in the op_begin line. */
  datatype Entry =
    | AppendEntry(chain: Path, content: ContentHash, expectedPrev: Digest<Row>, position: nat)
    | ReplaceEntry(file: FilePath, content: ContentHash, expected: Option<ContentHash>)

  datatype OpId = OpId(kind: string, subjects: seq<string>, contents: seq<ContentHash>)

  datatype JRecord = OpBegin(op: OpId, writes: seq<Entry>) | OpCommit(op: OpId)
}
