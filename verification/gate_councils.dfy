/**
 * From the agreement rule to the gates: which evaluations of a council, once they are saved as its
 * outcome (tools/clearwright_review_council.py), demand a gate (tools/clearwright_gate.py).
 */
module GateCouncils {
  import opened Wrappers
  import C = Councils
  import R = CouncilRuns
  import opened Gates
  import opened GateEnforcement

  /** The text under which an outcome is saved. */
  function OutcomeText(outcome: C.Outcome): string {
    match outcome
    case HardGate => "hard_gate"
    case NeedsRevision => "needs_revision"
    case ReviewerUnavailable => "reviewer_unavailable"
    case OperatorRequired => "operator_required"
    case AgreementThresholdMet => "agreement_threshold_met"
  }

  /** The directory holds the record of a council of the subject, with this outcome. */
  predicate Saves(d: Dir, subject: string, outcome: C.Outcome) {
    d.Record? && d.council.subject == subject && d.council.outcome == Outcome(OutcomeText(outcome))
  }

  /** A gate is demanded of plan and incident councils that end at the operator or at a hard gate. */
  lemma EscalatedIff(d: Dir, subject: string, outcome: C.Outcome)
    requires Saves(d, subject, outcome)
    ensures Escalated(d, subject)
            <==> (d.council.phase == "plan" || d.council.phase == "incident")
                 && (outcome.HardGate? || outcome.OperatorRequired?)
  {
    assert "hard_gate"[0] == 'h' && "operator_required"[0] == 'o';
    assert OutcomeText(outcome)[0] == match outcome
                                      case HardGate => 'h'
                                      case NeedsRevision => 'n'
                                      case ReviewerUnavailable => 'r'
                                      case OperatorRequired => 'o'
                                      case AgreementThresholdMet => 'a';
  }

  /**
   * What reaches the gates.  A council with a counting round demands a gate iff it is a plan or incident
   * council and its last record is gated, or both latest reviews are real and either something that they
   * demand is impossible or the ceiling is reached without agreement.
   */
  lemma EvaluationEscalatesIff(d: Dir, subject: string, rounds: seq<C.Round>, at: nat, minRounds: nat, maxRounds: nat,
                               scoped: bool)
    requires Saves(d, subject, C.Evaluate(rounds, minRounds, maxRounds, scoped)) && C.IsLatest(rounds, at)
    ensures var completed := |C.Counting(rounds)|;
            Escalated(d, subject)
            <==> && (d.council.phase == "plan" || d.council.phase == "incident")
                 && (|| C.EndsGated(rounds)
                     || (&& C.BothReviewed(rounds[at])
                         && (|| C.Impossible(rounds[at])
                             || (completed >= maxRounds && !C.Agreement(rounds[at], completed, minRounds, scoped)))))
  {
    EscalatedIff(d, subject, C.Evaluate(rounds, minRounds, maxRounds, scoped));
    C.EvaluatesExactly(rounds, at, minRounds, maxRounds, scoped);
  }

  /**
   * A plan council that has held all its rounds without agreeing never lets an agent slip by: whatever
   * was run, granted, attached or scoped, if its outcome is saved and every review is real, an agent's
   * mutation is let through only after its gate has been resolved with a recorded authority.
   */
  lemma CeilingIsEnforced(minRounds: nat, maxRounds: nat, scoped: bool, ops: seq<R.Op>, at: nat, gates: seq<Gate>,
                          dirs: seq<Dir>, j: nat, subject: string)
    requires R.Create(minRounds, maxRounds, scoped).Some?
    requires var c := R.AfterOps(R.Create(minRounds, maxRounds, scoped).value, ops).council;
             && R.AtCeiling(c) && C.IsLatest(c.rounds, at) && C.BothReviewed(c.rounds[at])
             && !C.Agreement(c.rounds[at], c.maxRounds, c.minRounds, c.scoped)
             && j < |dirs| && Saves(dirs[j], subject, R.OutcomeOf(c)) && dirs[j].council.phase == "plan"
    requires Inv(gates) && GateBlock(gates, dirs, subject, false, false) == Proceed
    ensures var after := Heal(gates, dirs, subject, 0, false).gates;
            && Escalated(dirs[j], subject) && !Malformed(dirs[j], subject)
            && exists i :: 0 <= i < |after| && after[i].key == Some(GateKey(dirs[j], subject))
                           && !after[i].disposition.Unresolved? && after[i].authority.Some?
  {
    var c := R.AfterOps(R.Create(minRounds, maxRounds, scoped).value, ops).council;
    EvaluationEscalatesIff(dirs[j], subject, c.rounds, at, c.minRounds, c.maxRounds, c.scoped);
    EscalationsAreEnforced(gates, dirs, subject, false);
  }
}
