# ClearWright: a verified model of its durable stores and governance rules

This project models, in Dafny, the parts of ClearWright in which a wrong step would be silent: the
records that have to survive crashes, and the rules that decide what may leave the machine, be worked
on, or count as agreed.

| files | what they model |
|---|---|
| `hash_chain`, `jsonl_bytes` | chained JSONL files, from bytes to lines, and what an accepted chain head pins down |
| `alf_records`, `alf_journal`, `alf_store` | the ALF operation journal: stage, begin, apply, commit, recover, with a crash at any step and torn appends |
| `alf_atomicity`, `alf_recovery`, `alf_post`, `alf_crashes`, `alf_staging` | crash atomicity of one operation, and of runs of operations |
| `alf_conflicts`, `alf_discipline`, `alf_interlopers` | the two ways atomicity is lost, each with its exact condition |
| `alf_scoring`, `alf_layers`, `alf_delta`, `alf_runs`, `alf_accounting` | observations, findings, attributions, dispositions and deltas on top of that journal, over whole runs |
| `alf_checkpoints`, `alf_delta_content`, `alf_reruns`, `alf_captures`, `alf_reviews` | what all this is for: which losses are noticed, what a delta says and what a no-op proves, which run saw what first, who decides |
| `lineage`, `lineage_graph`, `lineage_decisions` | sensitivity lineage: the recursive resolver, the worklist, and exactly what may leave |
| `its_framing`, `its_numbers`, `its_loop`, `its_reading`, `its_packets`, `its_printed`, `its_lengths` | length-delimited packets: printer, the parser's loop, composition check, and what negative lengths do to it |
| `archive_moves`, `archive_index`, `archive_tree` | the archive's rename journal and its index |
| `gates`, `gate_enforcement`, `gate_races`, `gate_record` | escalation gates under concurrent writers, the healing sweep, enforcement |
| `council`, `council_runs`, `council_store`, `gate_councils` | the evaluation of a council, attempt budgets, round ceiling, and what of it reaches the gates |
| `clearance`, `clearance_trails`, `clearance_loss`, `clearance_repeats`, `clearance_tools` | the clearance queue: concurrent tool processes over four lanes and the files in them |

Conventions. A state machine is a function from a state and a step to a state; a crash is a step
number together with how far the interrupted step had got. Code that changes things in place is also
given as a class whose methods are proved equal to those functions (`AlfStore.Store`,
`LineageGraphs.LineageGraph`, `ArchiveTrees.ArchiveTree`, `GateRecords.GateRecord`,
`CouncilStores.CouncilStore`, `ClearanceTools.Lanes`), or as a method with the source's loop
(`HashChain.VerifyChain`, `JsonlBytes.HealTornTail`, `ItsPackets.VerifyItsComposition`). SHA-256 is a
free term over what it hashes, so it is injective; in the packet modules, where digests are text, it is
a parameter, and lemmas that need it injective say so. Ids that the source truncates are injective too.

Results that differ from what one would expect, each with its exact condition:

* `commit` does not look for a pending operation. If a foreign commit runs over one, cut off anywhere or
  not, recovery completes exactly when the foreign op_begin line did not reach the disk, or all writes of
  the pending operation were in effect by then and none has been overwritten since
  (`AlfInterlopers.RecoveryCompletesIff`). An op_begin line that comes before the pending checkpoint
  write is in effect, or a foreign commit that completes, dooms the store: no sequence of commits and
  recoveries ever completes a recovery again (`AlfInterlopers.InterloperDooms`,
  `AlfInterlopers.OvertakenIsDoomed`, `AlfDiscipline.DoomedForever`). Without a foreign op_begin line
  nothing is lost (`AlfInterlopers.QuietCallsComplete`). Append-only growth holds regardless.
* The checkpoint records where the chained files stood before the last operation. What was there then
  cannot be lost unnoticed (`AlfCheckpoints.VerifiedKeepsThePast`), and no observation, head or
  checkpoint can be altered (`AlfCheckpoints.AlterationPassesIff`); what the last operation itself
  appended can be cut off and still verifies (`AlfCheckpoints.ExchangePassesIff`).
* An operation that gives one file two contents is not atomic; this is the only obstacle
  (`AlfConflicts.ReplayableIffConsistent`).
* Replaying `record_recurrence`, at any later time, counts a second time exactly when the finding has
  gone from released to not released in between, or back, and the pair has no line of the kind that is
  logged now (`AlfAccounting.RecurrenceReplayCountsIff`).
* Delta files of run `r` and of run `r.input` collide (`AlfDelta.NamesCollideIff`). After any run a rerun
  of `r` is a no-op exactly when it names the same work item and the delta of `r.input` has not been
  generated since (`AlfRuns.DeltaIsStableIff`).
* An observation's id ignores evidence roles, its collision check does not
  (`AlfLayers.CaptureRefusedIff`).
* `verify_its_composition` accepts negative lengths from `int()`. An accepted packet is a sequence of
  printed frames exactly when no header that was read has a negative length
  (`ItsPackets.AcceptedIffPrinted`); two accepted packets that are not are given
  (`ItsLengths.TrailingHeaderAccepted`, `ItsLengths.OverlapAccepted`). The loop ends exactly when no two
  rounds start at the same position (`ItsReading.PacketEndsIff`), and need not
  (`ItsLengths.NegativeLengthLoops`). What acceptance says about the contents holds in every case
  (`ItsPackets.CompositionFixesContents`). Printed packets are accepted exactly when no name holds a
  separator (`ItsPrinted.PrintedAcceptedIff`).
* A disposition written from a stale read loses other writes exactly when there were any
  (`Gates.DispositionLosesUpdateIff`, `Gates.CreateLosesUpdateIff`), though never the uniqueness of gates
  (`Gates.GatesStayUnique`). So one stale disposition can let an agent pass without a gate
  (`GateRaces.StaleDispositionLetsPass`). Among any writers, an escalation that an agent has swept is
  enforced exactly when the last act that decides about its gate is not an unlocked write from a view
  without this gate (`GateRaces.EnforcedIff`); a write that drops the gate does no harm if a later one
  brings it back (`GateRaces.DroppedGateComesBack`). While every unlocked write replaces the record its
  thread read, none drops a gate (`GateRaces.FreshRunsKeep`, `GateRaces.EnforcedAmongWriters`).
* `grant_proceed` and `close_gate_unresolved` validate the operator's message against the gate of one
  read and settle the gate of another. It is the same gate exactly when that gate is still unresolved
  at the second read (`GateRaces.GrantSettlesNamedIff`); otherwise the authority lands on a gate that
  nobody validated it for (`GateRaces.MessageSettlesAnotherGate`).
* The first repeat of an `ensure_gate` call that created a gate still writes an event; only repeats of
  calls that found their gate are pure reads (`Gates.RepeatIsPureIff`).
* The documentation of `grant_attempts` promises grants only after exhaustion; that holds for the first
  grant of a round and reviewer only (`CouncilRuns.GrantsNeedExhaustionIff`).
* A claim may start from any outbox status; what keeps an uncleared packet out is that the result needs
  a lease and only a CTA decision sets one (`Clearance.PlansAreEarned`). A denial that crashes between
  its two writes leaves the packet decidable (`ClearanceTools.DenialCrash`).
* A claim checks its destination after it has written it. If the packet is finished before that check,
  the claim rolls back, and the packet is done and can be claimed once more
  (`ClearanceRepeats.DoneAndStillClaimable`); a mover removes its source exactly when its destination is
  still readable at the check (`ClearanceRepeats.SourceGoesIff`).
* Decisions in place share one temporary file without a lock. If two of them overlap, the only copy of
  the packet can be lost for good, with a crash or without one (`ClearanceLoss.LostToACrash`,
  `ClearanceLoss.LostWithoutACrash`, `ClearanceLoss.LostForever`). If none starts before the one before
  it has ended, failed or crashed, no packet is lost (`ClearanceLoss.NeverLost`), and this condition is
  exact (`ClearanceLoss.StartIsSafeIff`); claimed and finished packets are safe in any case
  (`ClearanceLoss.ClaimedIsNeverLost`).

## Model

| member | source | states |
|---|---|---|
| HashChain.VerifyChain | tools/clearwright_alf.py:335-355 | the scan reports no problem iff every line carries its own hash and links to its predecessor and nothing follows the last readable line; otherwise it reports the torn tail, and the first broken line with what is wrong with it |
| HashChain.ChainExtends | tools/clearwright_alf.py:287-293 | appending one chained record keeps an intact chain intact |
| HashChain.ChainDeterminism | tools/clearwright_alf.py:327-355 | two intact files with the same head hash and line count are equal line for line |
| HashChain.AncestryFixesPrefix | tools/clearwright_alf.py:919-960 | a head found at its recorded position fixes every line before it, however the files were extended |
| JsonlBytes.HealTornTail | tools/clearwright_alf.py:216-242 | healing keeps exactly the bytes up to the last newline and moves an unterminated suffix aside |
| JsonlBytes.AppendLine | tools/clearwright_alf.py:581-586 | appending a whole line to a terminated file adds exactly that line |
| JsonlBytes.TornAppendHeals | tools/clearwright_alf.py:216-242 | whatever part of a line reached the disk, complete lines are unchanged and healing restores the old bytes |
| AlfJournal.RunGrows | tools/clearwright_alf.py:499-552 | no step of any program, complete or interrupted, changes or removes a complete line |
| AlfJournal.AppendOnly | tools/clearwright_alf.py:643-754 | under every sequence of commits and recoveries, crashed, halted or complete and from any disk, every chained file and the journal are only extended |
| AlfAtomicity.DeriveSound | tools/clearwright_alf.py:426-485 | the derived writes find their bindings met in order, and a write already in effect is a no-op |
| AlfAtomicity.ReapplyWrite | tools/clearwright_alf.py:643-681 | with the first m writes applied, applying write j <= m again succeeds and moves on only if j = m |
| AlfAtomicity.ReplayIsApply | tools/clearwright_alf.py:706-725 | replaying from staged bytes does what the interrupted commit would have done from memory |
| AlfRecovery.FreshId | tools/clearwright_alf.py:554-562 | on a settled store a commit's op id is new, so the collision check passes |
| AlfRecovery.CommitPhases | tools/clearwright_alf.py:499-552 | wherever a crash strikes a commit, the disk is before, in the middle of, or after the operation; without a crash it completes |
| AlfRecovery.PendingRecovery | tools/clearwright_alf.py:687-754 | a recovery of a pending operation finishes it, or is itself interrupted in one of the phases |
| AlfPost.PostMeaning | tools/clearwright_alf.py:426-497 | the state after an operation: every file extended by the caller's rows for it in the caller's order, every other file as the caller rewrote it, and a live checkpoint with the number of lines and the last digest that journal, index, occurrences and ledger had before |
| AlfPost.AfterIsSettled | tools/clearwright_alf.py:487-497 | after a commit the journal is paired, every chain is intact, and the live checkpoint records the four files as they were before it |
| AlfCrashes.CrashAtomicity | tools/clearwright_alf.py:499-754 | a commit cut off anywhere, then any number of recoveries cut off anywhere, then one that finishes: the store is exactly the old one or exactly the uninterrupted result, the latter iff the op_begin line was complete on disk |
| AlfCrashes.StepIsAtomic | tools/clearwright_alf.py:499-754 | over runs with recovery after each crash the store stays settled and each operation takes full effect or none |
| AlfStaging.RecoveryClearsStaging | tools/clearwright_alf.py:702-745 | a recovery that completes leaves no staging directory, on any disk, neither of operations it replayed nor of those that never began |
| AlfConflicts.ReplayableIffConsistent | tools/clearwright_alf.py:665-681 | an operation commits, and survives a crash on its op_commit line, iff no two of its rewrites give one file different contents |
| AlfDiscipline.CommitCompletes | tools/clearwright_alf.py:499-552 | a commit with a new op id runs to its end on any disk, settled or not |
| AlfDiscipline.DoomedForever | tools/clearwright_alf.py:499-754 | once the checkpoint a pending operation is bound to is gone, or two pending operations are bound to one checkpoint, every sequence of further commits and recoveries, cut off anywhere, leaves it so, and no recovery ever completes |
| AlfInterlopers.QuietCallsComplete | tools/clearwright_alf.py:687-754 | as long as no foreign op_begin line reaches the disk, a pending operation survives every sequence of commits and recoveries, and recovery then completes with all of its writes |
| AlfInterlopers.InterloperDooms | tools/clearwright_alf.py:499-552 | a foreign op_begin line over a pending operation whose checkpoint write is not in effect yet dooms the store, however far the foreign commit gets |
| AlfInterlopers.OvertakenIsDoomed | tools/clearwright_alf.py:499-552 | a commit over a pending operation completes, and dooms the pending one wherever it was |
| AlfInterlopers.RecoveryCompletesIff | tools/clearwright_alf.py:499-754 | after a foreign commit over a pending operation, cut off anywhere or not, recovery completes iff the foreign op_begin line is not on disk, or the pending writes were all in effect by then and none diverges now |
| AlfStore.Store.Commit | tools/clearwright_alf.py:499-552 | the imperative commit, crash included, has exactly the effect and ending of the step program |
| AlfStore.Store.Recover | tools/clearwright_alf.py:687-754 | the imperative recovery has exactly the effect and ending of the step program |
| AlfStore.Store.ApplyStagedWrite | tools/clearwright_alf.py:643-681 | heals the append target, then applies, skips or fails closed |
| AlfScoring.ScoreMonotone | tools/clearwright_alf_synth.py:157-185 | the score never falls when an axis, the count, the radius, the regression flag or a waste counter grows |
| AlfScoring.ScoreBounds | tools/clearwright_alf_synth.py:57-71 | with axes in 0..a the score lies in 0..20a+52, and attains the upper end exactly for a regression counted at least 11 times with every axis, the radius and a waste band at their maximum |
| AlfScoring.AxisMargins | tools/clearwright_alf_synth.py:57-61 | each impact axis is worth exactly its weight |
| AlfScoring.ImpactMargins | tools/clearwright_alf_synth.py:175-185 | findings of equal waste differ in score by their weighted impact and twice their blast radius |
| AlfScoring.HistoryMargins | tools/clearwright_alf_synth.py:63-64 | the second to the eleventh occurrence are worth two each, later ones nothing, a regression twelve |
| AlfScoring.WasteMargin | tools/clearwright_alf_synth.py:175-185 | waste is worth twice its band, and a finding without impact, radius, waste or repetition scores zero |
| AlfScoring.WasteBandIff | tools/clearwright_alf_synth.py:66-73 | a band is reached iff one of the six counters reaches its inclusive threshold |
| AlfScoring.TierMeans | tools/clearwright_alf_synth.py:119-150 | tier 0 iff a live hazard; else tier 1 or 2 by failure class and five axes, and tier 3 iff minor in all of them |
| AlfScoring.StoredTier | tools/clearwright_alf_synth.py:491-497 | a tier recomputed from a stored finding is never 0, and is 1 iff integrity is at stake or the class says so |
| AlfScoring.RegressionFloor | tools/clearwright_alf_synth.py:577-612 | never less urgent than recomputation or baseline, and made of nothing but these two |
| AlfAccounting.StoredRegressionFloor | tools/clearwright_alf_synth.py:577-612 | the finding that record_regression stores is prioritized, and its tier and score are never less urgent than its release baseline nor than the recomputation from its own counters |
| AlfLayers.CaptureKeeps | tools/clearwright_alf.py:812-857 | capture keeps index rows and observation files in bijection and occurrences unique |
| AlfLayers.CaptureRefusedIff | tools/clearwright_alf.py:760-835 | capturing a stored id is refused iff the whole evidence lists, roles included, differ |
| AlfLayers.SameIdDifferentRole | tools/clearwright_alf.py:760-771 | two observations can share an id and differ in evidence role |
| AlfLayers.UpdateKeeps | tools/clearwright_alf_synth.py:258-289 | a finding update keeps the head equal to the last revision, revisions numbered and linked, ledger ids and disposition messages unique |
| AlfCaptures.CaptureMeans | tools/clearwright_alf.py:806-852 | one occurrence with run and metrics; the first time also the observation, with an index row that carries the digest of its bytes and the run |
| AlfCaptures.CaptureNoopIff | tools/clearwright_alf.py:806-852 | a capture writes nothing iff its occurrence is on record and the stored observation has the same facts and evidence |
| AlfCaptures.NewIsFirst | tools/clearwright_alf_delta.py:189-197 | in every reachable store the new observations of a delta are those whose first occurrence belongs to its run |
| AlfReviews.DisposeIff | tools/clearwright_alf_review.py:119-165 | a disposition is accepted iff the transition is legal, an unused operator message names the finding and is younger than its last revision, a deferral is explained, and what is to be planned passed the gate |
| AlfReviews.RequestIsOnRecord | tools/clearwright_alf_synth.py:258-302 | a request that changes a finding adds one revision with the new record, its run and its time to that history only, and its occurrence to the ledger under its kind |
| AlfReviews.RequestChanges | tools/clearwright_alf_synth.py:546-612 | what each request does to each field of each finding, and to no other |
| AlfReviews.OnlyTheOperatorDecides | tools/clearwright_alf_review.py:119-165 | over any run without hand edits of a finding, a decided status was asked for by a dispose request with an operator message that names the finding and is on record for this decision |
| AlfReviews.BaselineIsSetOnce | tools/clearwright_alf_synth.py:546-555 | over any such run a baseline never changes, and one that appears was set to the tier and score of that moment |
| AlfLayers.CreateKeeps | tools/clearwright_alf_synth.py:230-255 | creating a finding starts a history under a fresh id and keeps all layer invariants |
| AlfDelta.DeriveStable | tools/clearwright_alf_delta.py:189-242 | the derivation over a stored snapshot does not change as the stores grow |
| AlfDelta.GenerateEstablishes | tools/clearwright_alf_delta.py:292-339 | a generated delta equals its own recomputation |
| AlfDeltaContent.DeltaSaysWhatHappened | tools/clearwright_alf_delta.py:88-242 | on the rows of the stores: a finding is new iff the run made its first revision; priority and waste changes are listed iff they differ between the record before the run and its last one, with these values; an observation is new iff it occurred in the run, which first captured it; regressions are the run's regression lines |
| AlfDeltaContent.FirstDeltaIsWritten | tools/clearwright_alf_delta.py:292-339 | the first request for a delta is never refused on a sane store |
| AlfDeltaContent.DeltaIsAnchored | tools/clearwright_alf_delta.py:256-290 | the anchors record index, ledger, journal, every history and the snapshot as they were, and the delta generated before |
| AlfDeltaContent.DeltasAreLinked | tools/clearwright_alf_delta.py:292-339 | in any run with crashes a delta that takes effect says what happened and links to the one before; no other request touches the chain of deltas |
| AlfDelta.RerunIsNoopIff | tools/clearwright_alf_delta.py:297-336 | however the stores grew, a rerun is a no-op iff it names the first work item, and refused otherwise |
| AlfReruns.NoopIsEvidence | tools/clearwright_alf_delta.py:48-87 | on any store whatsoever with the delta file as it was written, a rerun that answers "noop" implies that the snapshot, every occurrence and attribution of the run, every observation it saw and every last revision by it are still there |
| AlfDelta.NamesCollideIff | tools/clearwright_alf_delta.py:27-34 | files of two runs coincide exactly when one run is the other with ".input" appended |
| AlfDelta.InputRunDestroysSnapshot | tools/clearwright_alf_delta.py:27-34 | generating the delta of `r.input` replaces the snapshot of r, and every rerun of r is refused |
| AlfRuns.FreshIsQuiescent | tools/clearwright_alf.py:155-160 | an empty store is quiescent, so the whole-run results apply to every store built from nothing |
| AlfRuns.RequestKeeps | tools/clearwright_alf_synth.py:258-302 | every kind of request, hand-written updates and dispositions included, keeps the layer invariants: no operator message is used twice |
| AlfRuns.EventKeeps | tools/clearwright_alf.py:499-552 | one request with any crashes leaves a quiescent store in which it took full effect or none |
| AlfRuns.QuiescentVerifies | tools/clearwright_alf.py:863-960 | a quiescent store passes verify_hashes, checkpoint check included |
| AlfRuns.RunsStayQuiescent | tools/clearwright_alf.py:863-960 | every store that a run of requests, crashes and recoveries reaches is quiescent and passes verify_hashes |
| AlfCheckpoints.EventRecords | tools/clearwright_alf.py:487-497 | every request that takes effect, cut off and recovered or not, leaves a checkpoint of the state before it |
| AlfCheckpoints.VerifiedKeepsThePast | tools/clearwright_alf.py:911-958 | any disk with the journal of an operation and some checkpoint on which verify_hashes reports ok still has every line of index, occurrences and ledger from before that operation |
| AlfCheckpoints.LossIsReported | tools/clearwright_alf.py:911-958 | a chained file that is shorter than before the last operation, or has another digest where it ended, is reported |
| AlfCheckpoints.ExchangePassesIff | tools/clearwright_alf.py:863-958 | occurrences or ledger exchanged for other lines verify iff these are an intact chain that begins with the lines from before the last operation |
| AlfCheckpoints.AlterationPassesIff | tools/clearwright_alf.py:863-936 | of any content put in place of a stored observation, of a finding's head or of the checkpoint, verify_hashes passes the original only |
| AlfCheckpoints.TornIsReported | tools/clearwright_alf.py:863-908 | a chained file with an unterminated end is reported |
| AlfRuns.DeltaIsStableIff | tools/clearwright_alf_delta.py:292-339 | once a delta is generated, after any run of further requests and crashes a rerun is a no-op iff it names the same work item and the delta of the run with ".input" appended has not been generated since; it is refused otherwise |
| AlfRuns.DeltaIsStable | tools/clearwright_alf_delta.py:292-339 | in particular, runs that never ask for the colliding delta leave a rerun a no-op for the same work item and refused for any other |
| AlfAccounting.RunsAccount | tools/clearwright_alf_synth.py:451-620 | over any run: the ledger lines of an entry grow by exactly the accepted attributions, its count by its recurrence and regression lines, its affected runs by its distinct run ids, its waste by the attributed metrics, each plus what update_finding wrote into that counter, and attribution ids stay unique |
| AlfAccounting.AttributeReplayIsNoop | tools/clearwright_alf_synth.py:500-537 | repeating an accepted attribution of the same type does nothing |
| AlfAccounting.RecurrenceReplayCountsIff | tools/clearwright_alf_synth.py:558-576 | repeating record_recurrence in any later store counts again iff the finding has changed between released and not released and the pair has no line of the kind logged now; otherwise it is a no-op |
| AlfAccounting.ImmediateReplayCountsIff | tools/clearwright_alf_synth.py:558-576 | an immediate repeat counts again iff the first call found the finding released and no recurrence line existed |
| Lineage.ResolvesToWorst | tools/clearwright_egress_guard.py:662-722 | whenever the resolver answers, the answer is the maximum local class over the node and everything reachable from it |
| Lineage.ResolvesIffSound | tools/clearwright_egress_guard.py:662-722 | it fails closed iff some walk through nodes that are not escalated meets a missing node, a generated node without sources, or a node twice |
| Lineage.StackIsIrrelevant | tools/clearwright_egress_guard.py:662-668 | an answer does not depend on the stack argument |
| Lineage.NeverLowered | tools/clearwright_egress_guard.py:605-622 | adding nodes or edges, or escalating, never lowers an answer |
| Lineage.DecidesByWorst | tools/clearwright_egress_guard.py:724-779 | content goes out as standard iff its lineage is sound and all of it is standard, and as internal technical iff that is the worst of it |
| Lineage.NoDowngrade | tools/clearwright_egress_guard.py:880-906 | no declared tier relabels: what leaves below the sensitive tier has no sensitive ancestor, and internal technical content only leaves in its own lane |
| LineageDecisions.DecidesExactly | tools/clearwright_egress_guard.py:706-779 | every outcome as an iff over the node and its lineage: sensitive only as a proved current clinical derivative, standard and internal technical by the worst of a sound lineage, local only for non-clinical sensitive content without a false claim, else blocked |
| LineageDecisions.EnforcesExactly | tools/clearwright_egress_guard.py:880-906 | at the sensitive tier leaves, by that declaration only, such a derivative or sound content with nothing sensitive in its lineage; the other outcomes likewise by declaration and lane |
| LineageDecisions.LeavesByRecord | tools/clearwright_egress_guard.py:655-703 | what leaves below the sensitive tier, in terms of provenance, scans and escalations recorded on each node of the lineage |
| LineageGraphs.LineageGraph.ReachableFrom | tools/clearwright_egress_guard.py:627-644 | the worklist returns exactly the ids reachable over at least one existing source |
| LineageGraphs.LineageGraph.ResolveSensitivity | tools/clearwright_egress_guard.py:662-713 | the mutually recursive methods compute the resolver and terminate on every graph |
| LineageGraphs.LineageGraph.WorstSource | tools/clearwright_egress_guard.py:715-722 | the loop over sources returns the first failure, else the worst class |
| LineageGraphs.LineageGraph.ResolveOverReachable | tools/clearwright_egress_guard.py:627-722 | the resolver's answer is the maximum over the node and the set the worklist returns |
| ItsFraming.DecimalReadsBack | tools/clearwright_egress_guard.py:1130-1134 | int() reads back the decimal length the printer writes |
| ItsNumbers.ParseIntIff | tools/clearwright_egress_guard.py:1130-1134 | int() takes a text for a number iff it is white space, one sign at most, digits with single underscores between them, and white space |
| ItsFraming.SplitOfJoin | tools/clearwright_egress_guard.py:1120-1128 | splitting a header at separators inverts joining its fields |
| ItsFraming.NextReads | tools/clearwright_egress_guard.py:1116-1142 | one round of the loop reads a well-formed frame whatever surrounds it and whatever its content is, frame markers included |
| ItsFraming.NextInverts | tools/clearwright_egress_guard.py:1116-1142 | what a round reads with a length of at least zero is a well-formed frame, byte for byte |
| ItsFraming.NextAtPlace | tools/clearwright_egress_guard.py:1116-1142 | a round at a negative position is the round at the place it names from the end of the packet |
| ItsReading.ReadIff | tools/clearwright_egress_guard.py:1106-1142 | the loop ends with a list of frames and met no negative length iff the packet is exactly these frames and nothing else |
| ItsReading.PacketEndsIff | tools/clearwright_egress_guard.py:1116-1142 | the loop ends iff no two rounds start at the same position |
| ItsReading.ForwardEnds | tools/clearwright_egress_guard.py:1116-1142 | only a negative length can keep the loop from ending |
| ItsPackets.VerifyItsComposition | tools/clearwright_egress_guard.py:1106-1155 | whenever the loop ends, the loop over pos and parsed and the checks after it compute the verdict, negative lengths and positions included |
| ItsPackets.AcceptedIffPrinted | tools/clearwright_egress_guard.py:1106-1155 | a packet is, byte for byte, the frames printed for a registered scaffold and components with this composition, up to the spelling of lengths, iff it is accepted and no header that was read has a negative length |
| ItsPackets.CompositionFixesContents | tools/clearwright_egress_guard.py:1137-1155 | two packets accepted for one composition, negative lengths or not, carry the same scaffold and the same contents in the same order |
| ItsPackets.RoundTrip | tools/clearwright_egress_guard.py:1081-1103 | the verifier accepts what the printer prints, for texts of any content |
| ItsPrinted.PrintedAcceptedIff | tools/clearwright_egress_guard.py:1081-1142 | a printed packet is accepted iff the version and every id are free of the separator and of newlines |
| ItsLengths.TrailingHeaderAccepted | tools/clearwright_egress_guard.py:1130-1142 | a packet that ends in the header of a component of length -1 is accepted, and is no sequence of printed frames |
| ItsLengths.OverlapAccepted | tools/clearwright_egress_guard.py:1130-1142 | a length that leads back into a content that was already read gives an accepted packet of four overlapping frames |
| ItsLengths.NegativeLengthLoops | tools/clearwright_egress_guard.py:1116-1142 | a header with a negative length can bring the loop back to its own position for ever |
| ArchiveMoves.RunConserves | tools/clearwright_archive.py:649-680 | no run of any plan on any disk deletes, overwrites or changes the bytes of a file: every content is held by as many paths as before |
| ArchiveMoves.SucceedsIff | tools/clearwright_archive.py:649-680 | an uninterrupted run succeeds iff every planned file that is not logged is at exactly one of its two places with the planned hash |
| ArchiveMoves.LoggedIff | tools/clearwright_archive.py:621-646 | which destinations the completion log counts after an append, whole or torn: an unterminated record counts, and spoils the next one together with itself |
| ArchiveMoves.RunIsSafe | tools/clearwright_archive.py:621-680 | a run from any resumable disk never halts, keeps each file at exactly one place, and moves all unless interrupted |
| ArchiveMoves.MovesAreSafe | tools/clearwright_archive.py:621-680 | after any crashed runs, torn log appends included, nothing else has changed, every logged destination holds its bytes, and one more run moves everything |
| ArchiveIndex.MergeMeans | tools/clearwright_archive.py:702-714 | merging a manifest adds exactly the paths it names |
| ArchiveIndex.RebuildMeans | tools/clearwright_archive.py:717-732 | a rebuild holds exactly the paths that some listed manifest names |
| ArchiveIndex.IndexAgrees | tools/clearwright_archive.py:683-775 | after any operations, crashes and recoveries every content is held by as many paths as before; with no journal pending, the merged index gives every id the paths of a rebuild, every planned destination included |
| ArchiveTrees.ArchiveTree.ExecuteJournal | tools/clearwright_archive.py:649-680 | the loop with its halts and its completion log has exactly the effect of the specification, crash included |
| ArchiveTrees.ArchiveTree.FinalizeJournal | tools/clearwright_archive.py:735-742 | manifest, index and journal rename in that order, interrupted anywhere |
| ArchiveTrees.ArchiveTree.RecoverPending | tools/clearwright_archive.py:745-775 | every pending journal is resumed in turn; one that halts does not stop the others |
| Gates.SameKeyIff | tools/clearwright_gate.py:225-247 | two escalations share a gate iff they agree in every field, up to case and the spelling of no scope |
| Gates.LegacyIff | tools/clearwright_gate.py:634-646 | a keyless gate stands for an escalation iff it names council and outcome and contradicts it in no field it has |
| Gates.CreatedIff | tools/clearwright_gate.py:665-693 | a gate by hand is created iff none is unresolved, with the fields of the call and nothing else changed |
| Gates.LegacyMatchesIsByKey | tools/clearwright_gate.py:634-646 | legacy matching depends only on the gate and the key of the call |
| Gates.EnsureMeaning | tools/clearwright_gate.py:284-334 | afterwards a gate carries the key, existing gates keep authority and disposition, and a new unresolved gate with the fields of the call is appended iff nothing matched |
| Gates.EnsureKeepsInv | tools/clearwright_gate.py:284-334 | the locked section keeps keys and event triples unique and no keyed gate shadowed by a matching keyless one |
| Gates.LegacyRecordsSatisfyInv | tools/clearwright_gate.py:260-267 | a record from before the upgrade, with keyless gates only, satisfies the invariant that the others keep |
| Gates.FastPathIsPure | tools/clearwright_gate.py:278-289 | the lock-free path answers iff the locked section would have rewritten nothing |
| Gates.RepeatIsPureIff | tools/clearwright_gate.py:278-334 | repeating a call writes nothing iff the first one found its gate |
| Gates.DispositionLosesUpdateIff | tools/clearwright_gate.py:783-802 | a disposition computed from an earlier read keeps what others wrote iff they wrote nothing, or this very disposition |
| Gates.CreateLosesUpdateIff | tools/clearwright_gate.py:665-693 | the same of a gate created by hand from an earlier read |
| Gates.GateIsLost | tools/clearwright_gate.py:783-802 | a gate created between that read and that write disappears |
| Gates.GatesStayUnique | tools/clearwright_gate.py:250-334 | under every interleaving of locked sections and unlocked writers no two gates share a key and no gate records an event twice |
| GateRaces.FreshRunsKeep | tools/clearwright_gate.py:783-802 | over every run in which each unlocked write replaces the record its thread read, every gate stays, with its key, its events, and its disposition and authority once it has left "unresolved" |
| GateEnforcement.EnsureIsLocal | tools/clearwright_gate.py:284-334 | ensuring the gate of one council neither creates nor hides a gate of another |
| GateEnforcement.HealMaterializes | tools/clearwright_gate.py:558-631 | a sweep that nothing interrupts and that succeeds found no malformed record and left a gate under the key of every escalation of the subject |
| GateEnforcement.AgentProceedsIff | tools/clearwright_work.py:425-447 | undisturbed, an agent may go on iff no record is malformed, every escalation already had its gate, and no gate is unresolved |
| GateEnforcement.OperatorProceedsIff | tools/clearwright_work.py:425-447 | undisturbed, the operator may go on iff no record is malformed |
| GateEnforcement.HealedIff | tools/clearwright_gate.py:558-631 | outside maintenance the sweep succeeds iff no record is malformed |
| GateEnforcement.MaintenanceWritesNothing | tools/clearwright_gate.py:278-289 | in a maintenance window the sweep writes nothing |
| GateEnforcement.EscalationsAreEnforced | tools/clearwright_work.py:425-447 | undisturbed, whenever an agent's mutation is let through, every escalated council of the subject has its own gate, resolved with a recorded authority |
| GateRaces.KeyedIff | tools/clearwright_gate.py:284-334 | over every run of locked sections, sweep entries and unlocked writes, fresh or stale, a gate is there at the end iff the last act that decides about it ensures it or writes from a view that has it, or none decides and it was there |
| GateRaces.EnforcedIff | tools/clearwright_work.py:425-447 | when the final read of an agent that swept an escalation finds nothing unresolved, that escalation has its own gate, resolved with a recorded authority, iff the last act that decides about the gate is not an unlocked write from a view without it |
| GateRaces.EnforcedAmongWriters | tools/clearwright_work.py:425-447 | while every unlocked write is fresh, enforcement holds for every council of the sweep, whatever others do between its entries and before the final read |
| GateRaces.DroppedGateComesBack | tools/clearwright_gate.py:665-693 | a stale creation after the sweep drops the new gate, a stale disposition brings it back resolved, and enforcement holds |
| GateRaces.StaleDispositionLetsPass | tools/clearwright_gate.py:783-802 | a stale disposition between the sweep and the final read drops the new gate, and the agent goes on with no gate at all |
| GateRecords.GateRecord.EnsureGate | tools/clearwright_gate.py:250-334 | the read, the loop and the write have the specified effect, and say whether the escalation was recognized |
| GateRaces.GrantSettlesNamedIff | tools/clearwright_gate.py:805-842 | exactly one gate of the second read changes, and it is the gate the message was validated against iff that one is still unresolved; otherwise it is a later one |
| GateRaces.GrantAmongWriters | tools/clearwright_gate.py:805-842 | the same over every run of other writers between the two reads, fresh ones: the named gate, if it is passed over, has been settled by somebody else |
| GateRaces.MessageSettlesAnotherGate | tools/clearwright_gate.py:805-842 | a message that qualifies for one gate only settles the gate of an escalation that came in between |
| GateRecords.GateRecord.RecordDisposition | tools/clearwright_gate.py:783-802 | the first unresolved gate of the record read before gets the disposition and the authority, and that record replaces whatever is there now; without an unresolved gate nothing is written |
| GateRecords.GateRecord.GrantProceed | tools/clearwright_gate.py:805-816 | validates against the gate of the first read, settles that of the second, and writes nothing if either finds none or the message does not qualify |
| GateRecords.GateRecord.Inspect | tools/clearwright_gate.py:585-631 | one directory entry read and judged in the source's order: passed over, fails the sweep, or demands a gate with these fields |
| GateRecords.GateRecord.CountRounds | tools/clearwright_gate.py:484-519 | the recorded rounds are accepted iff they are distinct numbers whose files can be read and agree, and the substantive ones are counted |
| GateRecords.GateRecord.HealEscalationGates | tools/clearwright_gate.py:558-631 | the sweep over council directories has the specified effect and outcome, in maintenance windows too |
| GateRecords.GateRecord.Block | tools/clearwright_work.py:425-447 | heals first, exempts the operator from blocking only, and refuses on any unresolved gate |
| Councils.RefsNameItems | tools/clearwright_review_council.py:478-487 | every required change and blocking finding of either reviewer has exactly one ref, and there are no others |
| Councils.AgreementIff | tools/clearwright_review_council.py:490-637 | the outcome is agreement iff no hard gate is last, enough substantive rounds are complete, a scope is recorded, both reviewers of the latest round agree at or above the floor, and that round's reconciliation settles every demanded item with none impossible |
| Councils.ReviewedIff | tools/clearwright_review_council.py:443-475 | a stored result counts as a review iff it was a successful, posted, validated run of that reviewer with a valid verdict |
| Councils.EvaluatesExactly | tools/clearwright_review_council.py:490-637 | each of the five outcomes as an iff: gated; a review missing; agreement; the operator iff something demanded is impossible or the ceiling is reached without agreement; another round iff neither |
| Councils.EvaluatesEmpty | tools/clearwright_review_council.py:530-542 | before any round counts the outcome is a hard gate or a request for revision |
| GateCouncils.EvaluationEscalatesIff | tools/clearwright_gate.py:349-350 | which evaluations demand a gate, for plan and incident councils only |
| GateCouncils.CeilingIsEnforced | tools/clearwright_gate.py:558-631 | when a plan council has held all its rounds without agreement, an agent goes on only after its gate was resolved with a recorded authority |
| CouncilRuns.RunsAreBounded | tools/clearwright_review_council.py:859-1552 | over any reinvocations, crashes and grants: calls for a round and reviewer never exceed two plus its grants, substantive rounds never exceed the ceiling of at most five, each holds two validated reviews |
| CouncilRuns.NewRoundWithdrawsAgreement | tools/clearwright_review_council.py:1482-1536 | a recorded round, substantive or not, always withdraws an earlier agreement |
| CouncilRuns.AgreementIsAboutLastRound | tools/clearwright_review_council.py:1555-1597 | agreement rests on the very last recorded round and the reconciliation attached to it |
| CouncilRuns.CeilingIsFinal | tools/clearwright_review_council.py:1775-1790 | once the ceiling is reached no operation adds a round, and the outcome is never another request for revision |
| CouncilRuns.CeilingEscalates | tools/clearwright_review_council.py:490-637 | at the ceiling the operator is called iff both latest reviews are real, no gate is last, and there is no agreement |
| CouncilRuns.ReconciliationsAreHonest | tools/clearwright_verdict.py:199-268 | over any run no reconciliation on record is ready over something impossible, or rejects or gives up without saying why |
| CouncilRuns.OnlyTheSameIsReused | tools/clearwright_review_council.py:1385-1471 | a review that costs no call comes from the cache of the very same dispatch |
| CouncilRuns.GrantsNeedExhaustionIff | tools/clearwright_review_council.py:786-799 | a grant is accepted iff it is authorized, adds one or two attempts, and the budget is used up or there already was a grant |
| CouncilRuns.SecondGrantBeforeUse | tools/clearwright_review_council.py:795-797 | after exhaustion a second grant is accepted before the first is used |
| CouncilStores.CouncilStore.DispatchReviewer | tools/clearwright_review_council.py:1385-1471 | the attempt loop persists the count before each call and caches a review after it, crash included |
| CouncilStores.CouncilStore.RunOneRound | tools/clearwright_review_council.py:859-1552 | a round commits only with two reviews or a hard gate, and then drops its budget |
| CouncilStores.CouncilStore.ValidateReconciliation | tools/clearwright_verdict.py:199-268 | the entry-by-entry check accepts exactly the reconciliations of the specification |
| CouncilStores.CouncilStore.Apply | tools/clearwright_review_council.py:1722-1835 | review stage with its ceiling, grants, reconciliation and scope have the specified effect |
| ClearanceTrails.PlansIff | tools/clearwright_decide.py:154-215 | when a tool does not refuse, in terms of its arguments and of the packet it reads |
| ClearanceTrails.PlansAreAsked | tools/clearwright_decide.py:78-130 | what it then writes: the packet it read with the status it was asked for, one more event with that status and actor, a lease only if there was one or it clears, from the right lane to the right lane |
| Clearance.PlansAreEarned | tools/clearwright_claim.py:118-169 | whatever a tool is about to write is valid in its lane, extends the audit trail it read, and has a legal trail; a claim of an uncleared packet is refused for want of a lease |
| Clearance.NothingRunsUncleared | tools/clearwright_lifecycle.py:238-400 | in every interleaving, with crashes, write errors and overlapping rewrites, every readable packet is valid and in the lane of its status, and one in progress, done or failed was cleared and claimed before in its own trail |
| ClearanceTrails.EveryEventWasAsked | tools/clearwright_lifecycle.py:238-400 | for every event in the trail of a readable packet a tool was started that was asked for this status by this actor, in the order of the trail, in every interleaving |
| ClearanceTrails.WorkWasCleared | tools/clearwright_lifecycle.py:238-400 | a packet in progress, done or failed was decided CTA in a decide call by the actor of its CTA event, and claimed after that |
| ClearanceLoss.NeverLost | tools/clearwright_decide.py:132-260 | while no decision in place starts before the one before it has ended, failed or crashed, a requested packet stays readable in some lane in every interleaving with crashes and write errors |
| ClearanceLoss.StartIsSafeIff | tools/clearwright_decide.py:132-260 | when a decision in place starts on a packet that is only in the outbox, the packet stays readable whatever follows without further overlap iff no other decision in place is at work on it |
| ClearanceLoss.ClaimedIsNeverLost | tools/clearwright_claim.py:91-216 | in every interleaving, overlapping decisions included, a claimed packet stays readable in some lane, and a finished one is never overwritten or removed |
| ClearanceLoss.EmptyIsGuarded | tools/clearwright_claim.py:91-216 | an empty queue satisfies the invariants that both results start from, so they apply to every queue built from nothing |
| ClearanceLoss.LostToACrash | tools/clearwright_decide.py:132-151 | two overlapping decisions, one of which crashes after truncating the shared temporary file, leave an empty file as the only copy |
| ClearanceLoss.LostWithoutACrash | tools/clearwright_decide.py:132-151 | without a crash, a shorter text over a longer one in the shared temporary file leaves a file that does not parse as the only copy |
| ClearanceLoss.LostForever | tools/clearwright_decide.py:154-200 | nothing that any process does afterwards brings such a packet back |
| ClearanceRepeats.DoneAndStillClaimable | tools/clearwright_claim.py:181-201 | a claim that is finished by another process before it has checked its destination rolls back, and the packet is done and claimable again |
| ClearanceRepeats.SourceGoesIff | tools/clearwright_claim.py:186-216 | a mover that has written removes its source iff its destination is readable when it checks |
| ClearanceTools.AloneIsUndisturbed | tools/clearwright_claim.py:91-216 | one process left alone takes the step machine from the old lanes to the lanes the tool promises |
| ClearanceTools.FailureCleansUp | tools/clearwright_decide.py:132-151 | a decision in place that fails removes its temporary file and changes no lane, provided nobody has renamed that file |
| ClearanceTools.ExactlyOneLane | tools/clearwright_lifecycle.py:285-400 | without crashes and concurrency a packet is in exactly one lane |
| ClearanceTools.DenialCrash | tools/clearwright_decide.py:228-260 | a denial that crashes after n of four steps leaves the request decidable iff n < 4 and on record as denied iff n >= 2 |
| ClearanceTools.DeniedThenClaimed | tools/clearwright_decide.py:154-200 | such a packet can be cleared and claimed while its denial stands |
| ClearanceTools.Lanes.WriteExclusive | tools/clearwright_claim.py:91-115 | creates the destination iff it does not exist and changes nothing else |
| ClearanceTools.Lanes.Run | tools/clearwright_decide.py:154-283 | a tool that runs alone has the effect of its plan, which ClearanceTrails.PlansAreAsked describes; a refusal changes nothing |

## Left out

Durable storage is modelled under these assumptions: renames are atomic, completed writes are durable,
and sections under the writer lock exclude each other. The lock itself is not part of this model, nor
are path containment, symbolic links, file modes, retries, JSON and UTF-8 text, SHA-256 itself, clocks
(timestamps appear only where the code compares them) and the network.

- ALF store: interior lines that do not parse, the quarantine copy of torn bytes, and the difference between an absent and an empty journal file are not modelled.
- ALF operations: the subject ids passed to an operation are empty lists, chained files and whole-file objects live in separate name spaces, and removal of a staging directory leaves any subset of its files.
- ALF findings: last_seen_at, related_entries, tier_decision, markdown rendering, deduplication proposals and the individual checks of promotion_gate_problems (one flag here) are left out.
- ALF review: record_recurrence and set_release_baseline read the finding's head before they take the lock; here that read is part of the same step.
- AlfDelta.GenerateEstablishes: sections of a delta are kept in file order instead of sorted by id, and findings are enumerated by entry number instead of directory listing.
- AlfAccounting.RunsAccount: speaks of findings that exist at the start of the run; the initial counters of a new finding are the creator's.
- ItsPackets.AcceptedIffPrinted: the spellings of lengths it admits include decimals of more than 4300 digits, zero-padded ones for instance, which CPython's int() refuses by default.
- ItsPackets.VerifyItsComposition: is called only on packets on which the loop ends, because the original does not return on the others; ItsReading.PacketEndsIff says which they are.
- Lineage.DecidesByWorst: sanitizer products are a separate tier and not compared with the lattice; the construction proof and policy comparison are three flags.
- ArchiveMoves.MovesAreSafe: planning, approvals and the operator override are left out; a plan is any list of items whose destinations are named after their sources. A plan that a halted run leaves behind is covered by SucceedsIff and RunConserves.
- Gates.GatesStayUnique: Unicode normalisation of key fields is the identity, case folding is ASCII, and the canonical subject of a work item is computed before the model starts.
- GateRaces.GrantSettlesNamedIff: whether the operator's message names a gate, came after it and holds an allowed phrase is a parameter, one answer per gate.
- GateEnforcement.AgentProceedsIff: speaks of a sweep and a final read with no other writer in between, like EscalationsAreEnforced; GateRaces has the interleaved form, with each council as it is read at its entry. Failure notices are left out.
- GateEnforcement.HealMaterializes: the form with other writers between the entries is GateRaces.EnforcedIff, for each council of the sweep.
- CouncilRuns.RunsAreBounded: one driver at a time works on a council; two processes with stale copies of its record are not modelled. Packet assembly, egress, artifacts and residue scans are inputs.
- Councils.AgreementIff: stored verdicts are normalized records; a stored verdict whose confidence is text would raise in the original.
- Clearance.NothingRunsUncleared: starts from an empty queue and packets authored by the request tool; a packet placed by hand is only as good as its author. Whether a lease has expired is not checked by claim, so a lease is a flag here.
- ClearanceLoss.NeverLost: each process writes its text in one piece; of two texts written over each other the later one stays if it covers the earlier, and otherwise the bytes do not parse.
- Messages (tools/clearwright_message.py), work-item presentation, council dispatch preflight, artifacts, adapters, the server and the command lines are left out: their facts are single-branch or display-only.
