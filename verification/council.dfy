/**
 * The agreement rule of the review council: `evaluate` of tools/clearwright_review_council.py, over
 * verdicts and reconciliations as tools/clearwright_verdict.py validates them.
 */
module Councils {
  import opened Wrappers

  // ---- Verdicts and reviewer results ------------------------------------------------------------

  datatype Reviewer = Gpt | Codex

  datatype Decision = Approve | ApproveWithChanges | Revise | Block

  datatype Verdict = Verdict(reviewer: Reviewer, decision: Decision, confidence: real, summary: string,
                             requiredChanges: seq<string>, blockingFindings: seq<string>)

  const MIN_SUMMARY_CHARS := 8
  const CONFIDENCE_FLOOR: real := 0.70

  /** `validate_verdict` for one reviewer. */
  predicate ValidVerdict(v: Verdict, who: Reviewer) {
    v.reviewer == who && 0.0 <= v.confidence <= 1.0 && |v.summary| >= MIN_SUMMARY_CHARS
  }

  predicate NonBlocking(v: Verdict) {
    v.decision.Approve? || v.decision.ApproveWithChanges?
  }

  /** What an adapter hands back, as it is stored in a round. */
  datatype Result = Result(ok: bool, posted: bool, validated: bool, source: Reviewer, verdict: Option<Verdict>,
                           hardGate: bool)

  datatype ReviewerStatus = Missing | Unavailable | NoVerdict | InvalidVerdict | Unvalidated | SourceMismatch | Review

  /** `_reviewer_status`; the error texts of failed runs are all `Unavailable`. */
  function StatusOf(result: Option<Result>, who: Reviewer): ReviewerStatus {
    if result.None? then Missing
    else if !result.value.ok || !result.value.posted then Unavailable
    else if result.value.verdict.None? then NoVerdict
    else if !ValidVerdict(result.value.verdict.value, who) then InvalidVerdict
    else if !result.value.validated then Unvalidated
    else if result.value.source != who then SourceMismatch
    else Review
  }

  /**
   * A real review: a successful run that was posted and validated, whose verdict and whose source name
   * the reviewer of the slot, with a confidence between 0 and 1 and a summary of some substance.
   */
  predicate RealReview(result: Option<Result>, who: Reviewer) {
    && result.Some? && result.value.ok && result.value.posted && result.value.validated && result.value.source == who
    && result.value.verdict.Some?
    && var v := result.value.verdict.value;
       v.reviewer == who && 0.0 <= v.confidence && v.confidence <= 1.0 && |v.summary| >= 8
  }

  lemma ReviewedIff(result: Option<Result>, who: Reviewer)
    ensures StatusOf(result, who).Review? <==> RealReview(result, who)
  {
  }

  // ---- Reconciliations ------------------------------------------------------------------------------

  datatype Field = RequiredChanges | BlockingFindings

  /** The text "gpt.required_changes[0]" and its like. */
  datatype ItemRef = ItemRef(who: Reviewer, field: Field, index: nat)

  datatype Disposition = Accepted | Planned | Rejected | BlockedByCapability

  /** `ref` is None for a text that names no item; `evidence` and `limitation` say they are not blank. */
  datatype Resolution = Resolution(ref: Option<ItemRef>, disposition: Disposition, evidence: bool, limitation: bool)

  datatype Reconciliation = Reconciliation(ready: bool, summary: string, unresolved: seq<string>,
                                           resolutions: seq<Resolution>)

  predicate ValidResolution(r: Resolution) {
    && (r.disposition.Rejected? ==> r.evidence)
    && (r.disposition.BlockedByCapability? ==> r.evidence && r.limitation)
  }

  /** The impossible can never be waved through. */
  predicate ValidReconciliation(rec: Reconciliation) {
    && |rec.summary| >= MIN_SUMMARY_CHARS
    && (forall i :: 0 <= i < |rec.resolutions| ==> ValidResolution(rec.resolutions[i]))
    && (rec.ready ==> forall i :: 0 <= i < |rec.resolutions| ==> !rec.resolutions[i].disposition.BlockedByCapability?)
  }

  // ---- required_item_refs -------------------------------------------------------------------------

  function Items(v: Verdict, field: Field): seq<string> {
    match field case RequiredChanges => v.requiredChanges case BlockingFindings => v.blockingFindings
  }

  function FieldRefs(who: Reviewer, field: Field, n: nat): seq<ItemRef> {
    seq(n, i requires 0 <= i < n => ItemRef(who, field, i))
  }

  function RequiredRefs(gpt: Verdict, codex: Verdict): seq<ItemRef> {
    FieldRefs(Gpt, RequiredChanges, |gpt.requiredChanges|) + FieldRefs(Gpt, BlockingFindings, |gpt.blockingFindings|)
    + FieldRefs(Codex, RequiredChanges, |codex.requiredChanges|)
        + FieldRefs(Codex, BlockingFindings, |codex.blockingFindings|)
  }

  /** Each required change and blocking finding of either reviewer has exactly one ref. */
  lemma RefsNameItems(gpt: Verdict, codex: Verdict, ref: ItemRef)
    ensures ref in RequiredRefs(gpt, codex) <==> ref.index < |Items(if ref.who.Gpt? then gpt else codex, ref.field)|
    ensures var refs := RequiredRefs(gpt, codex);
            forall i, j :: 0 <= i < j < |refs| ==> refs[i] != refs[j]
  {
    var a := FieldRefs(Gpt, RequiredChanges, |gpt.requiredChanges|);
    var b := FieldRefs(Gpt, BlockingFindings, |gpt.blockingFindings|);
    var c := FieldRefs(Codex, RequiredChanges, |codex.requiredChanges|);
    var d := FieldRefs(Codex, BlockingFindings, |codex.blockingFindings|);
    InField(Gpt, RequiredChanges, |a|, ref);
    InField(Gpt, BlockingFindings, |b|, ref);
    InField(Codex, RequiredChanges, |c|, ref);
    InField(Codex, BlockingFindings, |d|, ref);
    assert RequiredRefs(gpt, codex) == a + b + c + d;
  }

  lemma InField(who: Reviewer, field: Field, n: nat, ref: ItemRef)
    ensures ref in FieldRefs(who, field, n) <==> ref.who == who && ref.field == field && ref.index < n
  {
    var refs := FieldRefs(who, field, n);
    if ref.who == who && ref.field == field && ref.index < n {
      assert refs[ref.index] == ref;
    }
  }

  // ---- evaluate --------------------------------------------------------------------------------------

  datatype Round = Round(substantive: bool, gpt: Option<Result>, codex: Option<Result>,
                         reconciliation: Option<Reconciliation>, hardGate: bool)

  datatype Outcome = HardGate | NeedsRevision | ReviewerUnavailable | OperatorRequired | AgreementThresholdMet

  function Substantive(rounds: seq<Round>): seq<Round> {
    if rounds == [] then []
    else
      var last := rounds[|rounds| - 1];
      Substantive(rounds[..|rounds| - 1]) + if last.substantive then [last] else []
  }

  predicate Gated(rounds: seq<Round>) {
    rounds != [] &&
    var last := rounds[|rounds| - 1];
    last.hardGate || (last.gpt.Some? && last.gpt.value.hardGate)
  }

  predicate Covers(rec: Reconciliation, ref: ItemRef) {
    exists i :: 0 <= i < |rec.resolutions| && rec.resolutions[i].ref == Some(ref)
  }

  predicate CapabilityBlocked(rec: Reconciliation) {
    exists i :: 0 <= i < |rec.resolutions| && rec.resolutions[i].disposition.BlockedByCapability?
  }

  /** The reviewers' own blockers. */
  function ReviewerBlockers(gpt: Verdict, codex: Verdict): nat {
    (if NonBlocking(gpt) then 0 else 1) + (if NonBlocking(codex) then 0 else 1)
    + (if gpt.confidence < CONFIDENCE_FLOOR then 1 else 0) + (if codex.confidence < CONFIDENCE_FLOOR then 1 else 0)
  }

  function Uncovered(refs: seq<ItemRef>, rec: Reconciliation): seq<ItemRef> {
    if refs == [] then []
    else (if Covers(rec, refs[0]) then [] else [refs[0]]) + Uncovered(refs[1..], rec)
  }

  function Blockers(gpt: Verdict, codex: Verdict, rec: Reconciliation, scoped: bool): nat {
    ReviewerBlockers(gpt, codex) + |rec.unresolved|
    + (if Uncovered(RequiredRefs(gpt, codex), rec) != [] then 1 else 0)
    + (if scoped then 0 else 1)
  }

  /** `scoped` says that an approved scope is recorded. */
  function Evaluate(rounds: seq<Round>, minRounds: nat, maxRounds: nat, scoped: bool): Outcome {
    var completed := |Substantive(rounds)|;
    if Gated(rounds) then HardGate
    else if completed == 0 then NeedsRevision
    else
      var latest := Substantive(rounds)[completed - 1];
      if !StatusOf(latest.gpt, Gpt).Review? || !StatusOf(latest.codex, Codex).Review? then ReviewerUnavailable
      else
        var gpt, codex := latest.gpt.value.verdict.value, latest.codex.value.verdict.value;
        if latest.reconciliation.None? then (if completed >= maxRounds then OperatorRequired else NeedsRevision)
        else
          var rec := latest.reconciliation.value;
          if CapabilityBlocked(rec) then OperatorRequired
          else if completed >= minRounds && Blockers(gpt, codex, rec, scoped) == 0 && rec.ready
              then AgreementThresholdMet
          else if completed >= maxRounds then OperatorRequired
          else NeedsRevision
  }

  // ---- What agreement means ------------------------------------------------------------------------------

  /** One reviewer agrees: a real review, not blocking, confident enough. */
  predicate Agrees(result: Option<Result>, who: Reviewer) {
    && RealReview(result, who)
    && result.value.verdict.value.decision in {Decision.Approve, Decision.ApproveWithChanges}
    && result.value.verdict.value.confidence >= 0.7
  }

  /** Every item the two reviewers demanded is bound to a disposition, none of them impossible. */
  ghost predicate Settles(rec: Reconciliation, gpt: Verdict, codex: Verdict) {
    && rec.ready && rec.unresolved == []
    && (forall i :: 0 <= i < |rec.resolutions| ==> !rec.resolutions[i].disposition.BlockedByCapability?)
    && (forall ref: ItemRef :: ref.index < |Items(if ref.who.Gpt? then gpt else codex, ref.field)| ==> Covers(rec, ref))
  }

  ghost predicate Agreement(latest: Round, completed: nat, minRounds: nat, scoped: bool) {
    && completed >= minRounds && scoped
    && Agrees(latest.gpt, Gpt) && Agrees(latest.codex, Codex)
    && latest.reconciliation.Some?
    && Settles(latest.reconciliation.value, latest.gpt.value.verdict.value, latest.codex.value.verdict.value)
  }

  lemma {:induction false} UncoveredIffMissing(refs: seq<ItemRef>, rec: Reconciliation)
    ensures Uncovered(refs, rec) == [] <==> forall i :: 0 <= i < |refs| ==> Covers(rec, refs[i])
    decreases |refs|
  {
    if refs != [] {
      UncoveredIffMissing(refs[1..], rec);
      assert forall i :: 0 <= i < |refs| - 1 ==> refs[1..][i] == refs[i + 1];
      if (forall i :: 0 <= i < |refs| - 1 ==> Covers(rec, refs[1..][i])) && Covers(rec, refs[0]) {
        forall i | 0 <= i < |refs| ensures Covers(rec, refs[i]) {
          assert i > 0 ==> refs[i] == refs[1..][i - 1];
        }
      }
    }
  }

  lemma CoverageByItem(gpt: Verdict, codex: Verdict, rec: Reconciliation)
    ensures Uncovered(RequiredRefs(gpt, codex), rec) == []
            <==> forall ref: ItemRef :: ref.index < |Items(if ref.who.Gpt? then gpt else codex, ref.field)| ==>
                Covers(rec, ref)
  {
    var refs := RequiredRefs(gpt, codex);
    UncoveredIffMissing(refs, rec);
    forall ref: ItemRef ensures ref in refs <==> ref.index < |Items(if ref.who.Gpt? then gpt else codex, ref.field)| {
      RefsNameItems(gpt, codex, ref);
    }
    if forall i :: 0 <= i < |refs| ==> Covers(rec, refs[i]) {
      forall ref: ItemRef | ref.index < |Items(if ref.who.Gpt? then gpt else codex, ref.field)|
        ensures Covers(rec, ref)
      {
        assert ref in refs;
        var i :| 0 <= i < |refs| && refs[i] == ref;
      }
    }
    if forall ref: ItemRef :: ref.index < |Items(if ref.who.Gpt? then gpt else codex, ref.field)| ==> Covers(rec, ref) {
      forall i | 0 <= i < |refs| ensures Covers(rec, refs[i]) {
        assert refs[i] in refs;
      }
    }
  }

  /**
   * Agreement soundness and completeness.  The outcome is agreement exactly when the last round is no
   * hard gate, enough substantive rounds are complete, a scope is recorded, both reviewers of the
   * latest one agree with confidence, and the reconciliation of that same round is ready, leaves no
   * blocker and binds every item the reviewers demanded to a disposition that is possible.
   */
  lemma AgreementIff(rounds: seq<Round>, minRounds: nat, maxRounds: nat, scoped: bool)
    ensures var s := Substantive(rounds);
            Evaluate(rounds, minRounds, maxRounds, scoped).AgreementThresholdMet?
            <==> !Gated(rounds) && s != [] && Agreement(s[|s| - 1], |s|, minRounds, scoped)
  {
    var s := Substantive(rounds);
    if s != [] {
      var latest := s[|s| - 1];
      ReviewedIff(latest.gpt, Gpt);
      ReviewedIff(latest.codex, Codex);
      if RealReview(latest.gpt, Gpt) && RealReview(latest.codex, Codex) && latest.reconciliation.Some? {
        CoverageByItem(latest.gpt.value.verdict.value, latest.codex.value.verdict.value, latest.reconciliation.value);
      }
    }
  }

  // ---- Every outcome ---------------------------------------------------------------------------------------

  /** The last round that counts. */
  predicate IsLatest(rounds: seq<Round>, at: nat) {
    at < |rounds| && rounds[at].substantive && forall i :: at < i < |rounds| ==> !rounds[i].substantive
  }

  /** The places of the rounds that count. */
  function Counting(rounds: seq<Round>): set<nat> {
    set i: nat | i < |rounds| && rounds[i].substantive
  }

  lemma CountingSnoc(rounds: seq<Round>, last: Round)
    ensures |Counting(rounds + [last])| == |Counting(rounds)| + if last.substantive then 1 else 0
  {
    assert Counting(rounds + [last]) == Counting(rounds) + if last.substantive then {|rounds|} else {};
  }

  lemma {:induction false} SubstantiveCounts(rounds: seq<Round>)
    ensures |Substantive(rounds)| == |Counting(rounds)|
    decreases |rounds|
  {
    if rounds == [] {
      assert Counting(rounds) == {};
    } else {
      var n := |rounds| - 1;
      SubstantiveCounts(rounds[..n]);
      CountingSnoc(rounds[..n], rounds[n]);
      assert rounds == rounds[..n] + [rounds[n]];
    }
  }

  lemma {:induction false} SubstantiveEnds(rounds: seq<Round>, at: nat)
    requires IsLatest(rounds, at)
    ensures Substantive(rounds) != [] && Substantive(rounds)[|Substantive(rounds)| - 1] == rounds[at]
    decreases |rounds|
  {
    var n := |rounds| - 1;
    if at < n {
      SubstantiveEnds(rounds[..n], at);
    }
  }

  lemma SubstantiveMeans(rounds: seq<Round>)
    ensures |Substantive(rounds)| == |Counting(rounds)|
    ensures Substantive(rounds) == [] <==> forall i :: 0 <= i < |rounds| ==> !rounds[i].substantive
    ensures forall at: nat :: IsLatest(rounds, at) ==>
              Substantive(rounds) != [] && Substantive(rounds)[|Substantive(rounds)| - 1] == rounds[at]
  {
    SubstantiveCounts(rounds);
    if Substantive(rounds) == [] {
      forall i: nat | i < |rounds| ensures !rounds[i].substantive {
        assert i !in Counting(rounds);
      }
    }
    if forall i :: 0 <= i < |rounds| ==> !rounds[i].substantive {
      assert Counting(rounds) == {};
    }
    forall at: nat | IsLatest(rounds, at)
      ensures Substantive(rounds) != [] && Substantive(rounds)[|Substantive(rounds)| - 1] == rounds[at]
    {
      SubstantiveEnds(rounds, at);
    }
  }

  /** The record that is last, counting or not, reports a hard gate. */
  predicate EndsGated(rounds: seq<Round>) {
    && rounds != []
    && (rounds[|rounds| - 1].hardGate
        || (rounds[|rounds| - 1].gpt.Some? && rounds[|rounds| - 1].gpt.value.hardGate))
  }

  predicate BothReviewed(r: Round) {
    RealReview(r.gpt, Gpt) && RealReview(r.codex, Codex)
  }

  /** The reconciliation admits that something demanded cannot be done here. */
  predicate Impossible(r: Round) {
    && r.reconciliation.Some?
    && exists i :: 0 <= i < |r.reconciliation.value.resolutions|
                   && r.reconciliation.value.resolutions[i].disposition.BlockedByCapability?
  }

  /** Before any round counts there is nothing to escalate. */
  lemma EvaluatesEmpty(rounds: seq<Round>, minRounds: nat, maxRounds: nat, scoped: bool)
    requires forall i :: 0 <= i < |rounds| ==> !rounds[i].substantive
    ensures Evaluate(rounds, minRounds, maxRounds, scoped) == if EndsGated(rounds) then HardGate else NeedsRevision
  {
    SubstantiveMeans(rounds);
  }

  /**
   * The five outcomes, exactly, once a round counts.  The operator is called iff both latest reviews
   * are real, no hard gate is last, and either something demanded is impossible or the ceiling has been
   * reached without agreement; another round is asked for iff neither is the case and there is no
   * agreement.
   */
  lemma EvaluatesExactly(rounds: seq<Round>, at: nat, minRounds: nat, maxRounds: nat, scoped: bool)
    requires IsLatest(rounds, at)
    ensures var out, latest := Evaluate(rounds, minRounds, maxRounds, scoped), rounds[at];
            var completed := |Counting(rounds)|;
            var agreed := Agreement(latest, completed, minRounds, scoped);
            var open := !EndsGated(rounds) && BothReviewed(latest);
            && (out.HardGate? <==> EndsGated(rounds))
            && (out.ReviewerUnavailable? <==> !EndsGated(rounds) && !BothReviewed(latest))
            && (out.AgreementThresholdMet? <==> open && agreed)
            && (out.OperatorRequired? <==> open && (Impossible(latest) || (completed >= maxRounds && !agreed)))
            && (out.NeedsRevision? <==> open && !Impossible(latest) && completed < maxRounds && !agreed)
  {
    var latest := rounds[at];
    SubstantiveMeans(rounds);
    AgreementIff(rounds, minRounds, maxRounds, scoped);
    ReviewedIff(latest.gpt, Gpt);
    ReviewedIff(latest.codex, Codex);
    if latest.reconciliation.Some? {
      assert CapabilityBlocked(latest.reconciliation.value) <==> Impossible(latest);
    }
  }
}
