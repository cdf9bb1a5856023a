/** priority-model-v1 and tier-policy-v1 of tools/clearwright_alf_synth.py. */
module AlfScoring {
  import opened Wrappers
  import opened AlfRecords

  // ---- tier-policy-v1 ---------------------------------------------------------------------

  datatype Activity = Active | Plausible | Historical | NoActivity

  /** The policy's inputs; the three class fields are true when they differ from "none". */
  datatype InputVector = InputVector(activity: Activity, exposure: bool, mutation: bool, recordIntegrity: bool,
                                     ownershipConflict: bool, failure: FailureClass, axes: Axes)

  const TIER1_FAILURES: set<FailureClass> :=
    {AuthorityBypassRisk, DurableRecordIntegrity, Correctness, OperationalReliability, StaleState, BrokenRecovery,
     WorkBlocker, CouncilFailure, QueueFailure, LifecycleFailure, DeploymentFailure}

  const TIER2_FAILURES: set<FailureClass> :=
    {OperatorTime, FailureClass.ExecutionDelay, ResourceWaste, PoorFailureReporting, ExcessDeliberation}

  function AssignTier(iv: InputVector): int {
    if iv.activity in {Active, Plausible}
        && (iv.exposure || iv.mutation || iv.recordIntegrity || iv.ownershipConflict) then 0
    else if iv.axes.authorityIntegrity >= 2 || iv.axes.recordIntegrity >= 2 || iv.failure in TIER1_FAILURES then 1
    else if iv.failure in TIER2_FAILURES || iv.axes.operatorTime >= 2 || iv.axes.executionDelay >= 2
        || iv.axes.compute >= 2 then 2
    else 3
  }

  /** `_iv_from_finding`: a stored finding is historical and declares no exposure. */
  function VectorOf(f: Finding): InputVector {
    InputVector(Historical, false, false, false, false, f.failure, f.axes)
  }

  // ---- priority-model-v1 ------------------------------------------------------------------

  function Band(value: int, band1: int, band2: int, band3: int): nat {
    if value >= band3 then 3 else if value >= band2 then 2 else if value >= band1 then 1 else 0
  }

  function Max(a: int, b: int): int { if a >= b then a else b }

  function Min(a: int, b: int): int { if a <= b then a else b }

  function WasteBandMax(w: Waste): int {
    Max(Max(Max(Band(w.operatorMinutes, 30, 120, 480), Band(w.executionDelay, 600, 3600, 14400)),
            Max(Band(w.tokens, 100000, 500000, 2000000), Band(w.apiAttempts, 3, 10, 25))),
        Max(Band(w.toolAttempts, 10, 50, 200), Band(w.councilAttempts, 2, 5, 10)))
  }

  function Weighted(a: Axes): int {
    4 * a.security + 4 * a.authorityIntegrity + 4 * a.recordIntegrity + 3 * a.reliability
    + 2 * a.operatorTime + 2 * a.executionDelay + a.compute
  }

  function ComputeScore(f: Finding, occurrences: int, regression: bool): int {
    Weighted(f.axes) + 2 * f.blastRank + 2 * Min(Max(occurrences - 1, 0), 10)
    + (if regression then 12 else 0) + 2 * WasteBandMax(f.waste)
  }

  /** g is at least as bad as f in every scored respect. */
  predicate AtLeastAsBad(f: Finding, g: Finding) {
    && f.axes.security <= g.axes.security && f.axes.authorityIntegrity <= g.axes.authorityIntegrity
    && f.axes.recordIntegrity <= g.axes.recordIntegrity && f.axes.reliability <= g.axes.reliability
    && f.axes.operatorTime <= g.axes.operatorTime && f.axes.executionDelay <= g.axes.executionDelay
    && f.axes.compute <= g.axes.compute
    && f.blastRank <= g.blastRank
    && WasteBelow(f.waste, g.waste)
  }

  predicate WasteBelow(v: Waste, w: Waste) {
    && v.operatorMinutes <= w.operatorMinutes && v.executionDelay <= w.executionDelay && v.tokens <= w.tokens
    && v.apiAttempts <= w.apiAttempts && v.toolAttempts <= w.toolAttempts && v.councilAttempts <= w.councilAttempts
  }

  predicate AxesWithin(a: Axes, top: nat) {
    && 0 <= a.security <= top && 0 <= a.authorityIntegrity <= top && 0 <= a.recordIntegrity <= top
    && 0 <= a.reliability <= top && 0 <= a.operatorTime <= top && 0 <= a.executionDelay <= top && 0 <= a.compute <= top
  }

  lemma WasteBandMonotone(v: Waste, w: Waste)
    requires WasteBelow(v, w)
    ensures 0 <= WasteBandMax(v) <= WasteBandMax(w) <= 3
  {
  }

  /** The score never falls when anything it counts gets worse. */
  lemma ScoreMonotone(f: Finding, g: Finding, m: int, n: int, r: bool, q: bool)
    requires AtLeastAsBad(f, g) && m <= n && (r ==> q)
    ensures ComputeScore(f, m, r) <= ComputeScore(g, n, q)
  {
    WasteBandMonotone(f.waste, g.waste);
  }

  /** With axes in 0..a and a known blast radius the score lies in 0..20a+52, and both ends occur. */
  lemma ScoreBounds(f: Finding, n: int, r: bool, a: nat)
    requires AxesWithin(f.axes, a) && f.blastRank <= 7
    ensures 0 <= ComputeScore(f, n, r) <= 20 * a + 52
    ensures ComputeScore(f, n, r) == 20 * a + 52 <==>
              f.axes == Axes(a, a, a, a, a, a, a) && f.blastRank == 7 && n >= 11 && r && WasteBandMax(f.waste) == 3
  {
  }

  /** What each axis is worth; without impact there is nothing. */
  lemma AxisMargins(a: Axes)
    ensures Weighted(a.(security := a.security + 1)) == Weighted(a) + 4
    ensures Weighted(a.(authorityIntegrity := a.authorityIntegrity + 1)) == Weighted(a) + 4
    ensures Weighted(a.(recordIntegrity := a.recordIntegrity + 1)) == Weighted(a) + 4
    ensures Weighted(a.(reliability := a.reliability + 1)) == Weighted(a) + 3
    ensures Weighted(a.(operatorTime := a.operatorTime + 1)) == Weighted(a) + 2
    ensures Weighted(a.(executionDelay := a.executionDelay + 1)) == Weighted(a) + 2
    ensures Weighted(a.(compute := a.compute + 1)) == Weighted(a) + 1
    ensures Weighted(Axes(0, 0, 0, 0, 0, 0, 0)) == 0
  {
  }

  /** Findings of equal waste differ in score by their impact and by two for each step of blast radius. */
  lemma ImpactMargins(f: Finding, g: Finding, n: int, r: bool)
    requires f.waste == g.waste
    ensures ComputeScore(f, n, r) - ComputeScore(g, n, r)
            == Weighted(f.axes) - Weighted(g.axes) + 2 * (f.blastRank - g.blastRank)
  {
  }

  /** The second to the eleventh occurrence count, a regression counts once. */
  lemma HistoryMargins(f: Finding, n: int, r: bool)
    ensures ComputeScore(f, n + 1, r) == ComputeScore(f, n, r) + if 1 <= n <= 10 then 2 else 0
    ensures ComputeScore(f, n, true) == ComputeScore(f, n, false) + 12
  {
  }

  lemma WasteMargin(f: Finding, n: int, r: bool)
    ensures ComputeScore(f, n, r) == ComputeScore(f.(waste := NO_WASTE), n, r) + 2 * WasteBandMax(f.waste)
    ensures Weighted(f.axes) == 0 && f.blastRank == 0 && n <= 1 ==>
              ComputeScore(f.(waste := NO_WASTE), n, false) == 0
  {
    WasteBandIff(NO_WASTE);
  }

  /** One counter over its threshold is enough, and all six are looked at. */
  lemma WasteBandIff(w: Waste)
    ensures WasteBandMax(w) >= 1 <==>
              || w.operatorMinutes >= 30 || w.executionDelay >= 600 || w.tokens >= 100000
              || w.apiAttempts >= 3 || w.toolAttempts >= 10 || w.councilAttempts >= 2
    ensures WasteBandMax(w) >= 2 <==>
              || w.operatorMinutes >= 120 || w.executionDelay >= 3600 || w.tokens >= 500000
              || w.apiAttempts >= 10 || w.toolAttempts >= 50 || w.councilAttempts >= 5
    ensures WasteBandMax(w) >= 3 <==>
              || w.operatorMinutes >= 480 || w.executionDelay >= 14400 || w.tokens >= 2000000
              || w.apiAttempts >= 25 || w.toolAttempts >= 200 || w.councilAttempts >= 10
    ensures 0 <= WasteBandMax(w) <= 3
  {
  }

  predicate Minor(c: FailureClass) {
    c.Clarity? || c.UserExperience? || c.Documentation? || c.Maintainability?
  }

  predicate Costly(c: FailureClass) {
    c.OperatorTime? || c.ExecutionDelay? || c.ResourceWaste? || c.PoorFailureReporting? || c.ExcessDeliberation?
  }

  lemma FailureClasses(c: FailureClass)
    ensures c in TIER1_FAILURES <==> !Minor(c) && !Costly(c)
    ensures c in TIER2_FAILURES <==> Costly(c)
  {
    match c
    case AuthorityBypassRisk =>
    case _ =>
  }

  /** Tier 0 needs a live hazard; below it, the tier rests on the failure class and on five axes. */
  lemma TierMeans(iv: InputVector)
    ensures var tier := AssignTier(iv);
            && 0 <= tier <= 3
            && (tier == 0 <==> (iv.activity == Active || iv.activity == Plausible)
                               && (iv.exposure || iv.mutation || iv.recordIntegrity || iv.ownershipConflict))
            && (tier <= 1 <==> tier == 0 || iv.axes.authorityIntegrity >= 2 || iv.axes.recordIntegrity >= 2
                               || (!Minor(iv.failure) && !Costly(iv.failure)))
            && (tier == 3 <==> tier != 0 && Minor(iv.failure)
                               && iv.axes.authorityIntegrity < 2 && iv.axes.recordIntegrity < 2
                               && iv.axes.operatorTime < 2 && iv.axes.executionDelay < 2 && iv.axes.compute < 2)
  {
    FailureClasses(iv.failure);
  }

  /** A finding that is recomputed from what is stored never reaches tier 0. */
  lemma StoredTier(f: Finding)
    ensures 1 <= AssignTier(VectorOf(f)) <= 3
    ensures AssignTier(VectorOf(f)) == 1
            <==> f.axes.authorityIntegrity >= 2 || f.axes.recordIntegrity >= 2
                 || (!Minor(f.failure) && !Costly(f.failure))
  {
    TierMeans(VectorOf(f));
  }

  // ---- Regression floor -------------------------------------------------------------------

  datatype Priority = Priority(tier: int, score: int)

  /** p is at least as urgent as q: a lower tier, or the same tier and no lower score. */
  predicate AtLeastAsUrgent(p: Priority, q: Priority) {
    p.tier < q.tier || (p.tier == q.tier && p.score >= q.score)
  }

  /** The effective tier and score of `record_regression`. */
  function EffectivePriority(recomputed: Priority, baseline: Option<Baseline>): Priority {
    var b := if baseline.Some? then baseline.value else Baseline(None, None);
    var tier := if b.tier.Some? then Min(recomputed.tier, b.tier.value) else recomputed.tier;
    var score := if b.tier.Some? && tier == b.tier.value && b.score.Some? then Max(recomputed.score, b.score.value)
                 else recomputed.score;
    Priority(tier, score)
  }

  /** The priority is made of the two it is computed from, and of nothing else. */
  predicate MadeOf(p: Priority, recomputed: Priority, baseline: Option<Baseline>) {
    && (p.tier == recomputed.tier || (baseline.Some? && baseline.value.tier == Some(p.tier)))
    && (p.score == recomputed.score
        || (baseline.Some? && baseline.value == Baseline(Some(p.tier), Some(p.score)) && p.score > recomputed.score))
  }

  /**
   * The floor: never less urgent than the recomputation nor than the release baseline, and no more
   * urgent than these two make it.
   */
  lemma RegressionFloor(recomputed: Priority, baseline: Option<Baseline>)
    ensures AtLeastAsUrgent(EffectivePriority(recomputed, baseline), recomputed)
    ensures baseline.Some? && baseline.value.tier.Some? && baseline.value.score.Some? ==>
              AtLeastAsUrgent(EffectivePriority(recomputed, baseline),
                              Priority(baseline.value.tier.value, baseline.value.score.value))
    ensures baseline.Some? && baseline.value.tier.Some? ==>
              EffectivePriority(recomputed, baseline).tier <= baseline.value.tier.value
    ensures MadeOf(EffectivePriority(recomputed, baseline), recomputed, baseline)
  {
  }
}
