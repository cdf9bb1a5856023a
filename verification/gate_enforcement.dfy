/**
 * Enforcement of escalation gates: the healing sweep of tools/clearwright_gate.py and `_gate_block` of
 * tools/clearwright_work.py, which every governed mutation has to pass.
 */
module GateEnforcement {
  import opened Wrappers
  import opened Gates

  // ---- Council records ---------------------------------------------------------------------------

  datatype RoundNo = Number(n: int) | NotANumber
  datatype RoundFile = RoundFile(round: RoundNo, substantive: bool)
  datatype Rounds = NoKey | NotAList | Recorded(numbers: seq<RoundNo>)
  datatype OutcomeFile = NoOutcome | BadOutcome | Outcome(value: string)

  /** `files` holds the round files that can be read. */
  datatype Council = Council(name: string, subject: string, phase: string, outcome: OutcomeFile,
                             rounds: Rounds, files: map<int, RoundFile>, scope: string)

  /** An entry of the councils directory; Broken is a recognized one without a readable record. */
  datatype Dir = Foreign | Empty | Broken | Record(council: Council)

  function Substantive(numbers: seq<RoundNo>, files: map<int, RoundFile>): nat
    requires forall i :: 0 <= i < |numbers| ==> numbers[i].Number? && numbers[i].n in files
  {
    if numbers == [] then 0
    else (if files[numbers[0].n].substantive then 1 else 0) + Substantive(numbers[1..], files)
  }

  predicate RoundsSound(c: Council) {
    match c.rounds
    case NoKey => true
    case NotAList => false
    case Recorded(ns) =>
      && (forall i :: 0 <= i < |ns| ==> ns[i].Number?)
      && (forall i, j :: 0 <= i < j < |ns| ==> ns[i] != ns[j])
      && (forall i :: 0 <= i < |ns| ==> ns[i].n in c.files && c.files[ns[i].n].round == ns[i])
  }

  predicate GatedPhase(phase: string) {
    phase == "plan" || phase == "incident"
  }

  predicate GatedOutcome(value: string) {
    value == "operator_required" || value == "hard_gate"
  }

  predicate About(d: Dir, subject: string) {
    d.Record? && d.council.subject == subject && GatedPhase(d.council.phase)
  }

  /** A council of the subject whose persisted outcome demands a gate. */
  predicate Escalated(d: Dir, subject: string) {
    About(d, subject) && d.council.outcome.Outcome? && GatedOutcome(d.council.outcome.value)
  }

  /** A record that could hide an escalation, or that cannot be turned into a gate. */
  predicate Malformed(d: Dir, subject: string) {
    || d.Broken?
    || (About(d, subject) && d.council.outcome.BadOutcome?)
    || (Escalated(d, subject) && !RoundsSound(d.council))
  }

  function EscalationOf(c: Council): Escalation
    requires c.outcome.Outcome? && RoundsSound(c)
  {
    var rounds := if c.rounds.NoKey? then 0 else Substantive(c.rounds.numbers, c.files);
    Escalation(c.name, c.phase, c.outcome.value, rounds, c.scope)
  }

  function InvocationOf(c: Council): Invocation
    requires c.outcome.Outcome? && RoundsSound(c)
  {
    GateEval(c.name, c.outcome.value, EscalationOf(c).rounds)
  }

  function GateKey(d: Dir, subject: string): Key
    requires Escalated(d, subject) && !Malformed(d, subject)
  {
    KeyOf(subject, EscalationOf(d.council))
  }

  // ---- The healing sweep ---------------------------------------------------------------------------

  datatype Sweep = Healed | FailedClosed | Busy

  datatype Swept = Swept(gates: seq<Gate>, sweep: Sweep)

  /** `heal_escalation_gates` from entry i on; during maintenance only the lock-free path succeeds. */
  function Heal(gates: seq<Gate>, dirs: seq<Dir>, subject: string, i: nat, maintenance: bool): Swept
    requires i <= |dirs|
    decreases |dirs| - i
  {
    if i == |dirs| then Swept(gates, Healed)
    else if Malformed(dirs[i], subject) then Swept(gates, FailedClosed)
    else if !Escalated(dirs[i], subject) then Heal(gates, dirs, subject, i + 1, maintenance)
    else
      var c := dirs[i].council;
      var fast := FastHit(gates, GateKey(dirs[i], subject), DedupEvent(c.name, InvocationOf(c)), 0);
      if fast.Some? then Heal(gates, dirs, subject, i + 1, maintenance)
      else if maintenance then Swept(gates, Busy)
      else Heal(Ensure(gates, subject, EscalationOf(c), InvocationOf(c)), dirs, subject, i + 1, maintenance)
  }

  datatype Verdict = Proceed | Refused

  /** `_gate_block`: the operator is never blocked by a gate, but the sweep runs first for everyone. */
  function GateBlock(gates: seq<Gate>, dirs: seq<Dir>, subject: string, operator: bool, maintenance: bool): Verdict {
    var swept := Heal(gates, dirs, subject, 0, maintenance);
    if !swept.sweep.Healed? then Refused
    else if operator then Proceed
    else if FirstUnresolved(swept.gates, 0).Some? then Refused
    else Proceed
  }

  // ---- What the sweep guarantees --------------------------------------------------------------------

  predicate DistinctNames(dirs: seq<Dir>) {
    forall i, j :: 0 <= i < j < |dirs| && dirs[i].Record? && dirs[j].Record? ==>
        dirs[i].council.name != dirs[j].council.name
  }

  predicate Keyed(gates: seq<Gate>, k: Key) {
    exists i :: 0 <= i < |gates| && gates[i].key == Some(k)
  }

  /** The entry needs no new gate. */
  predicate Covered(gates: seq<Gate>, d: Dir, subject: string) {
    !Malformed(d, subject) && (Escalated(d, subject) ==> Recognized(gates, GateKey(d, subject)))
  }

  predicate Materialized(gates: seq<Gate>, d: Dir, subject: string) {
    !Malformed(d, subject) && (Escalated(d, subject) ==> Keyed(gates, GateKey(d, subject)))
  }

  /** later is earlier with the same dispositions, followed by unresolved gates. */
  predicate OnlyAdds(earlier: seq<Gate>, later: seq<Gate>) {
    && |earlier| <= |later|
    && (forall i :: 0 <= i < |earlier| ==>
          later[i].disposition == earlier[i].disposition && later[i].authority == earlier[i].authority)
    && (forall i :: |earlier| <= i < |later| ==> later[i].disposition.Unresolved?)
  }

  lemma EnsureKeepsKeyed(gates: seq<Gate>, subject: string, e: Escalation, invocation: Invocation, k: Key)
    requires Keyed(gates, k)
    ensures Keyed(Ensure(gates, subject, e, invocation), k)
  {
    var i :| 0 <= i < |gates| && gates[i].key == Some(k);
    assert Ensure(gates, subject, e, invocation)[i].key == Some(k);
  }

  /** Ensuring the gate of one council neither creates nor hides a gate of another. */
  lemma EnsureIsLocal(gates: seq<Gate>, subject: string, e: Escalation, invocation: Invocation, k: Key)
    requires k.council != e.council
    ensures Recognized(Ensure(gates, subject, e, invocation), k) <==> Recognized(gates, k)
  {
    var after := Ensure(gates, subject, e, invocation);
    var hit := FirstHit(gates, subject, e, 0);
    if hit.Some? {
      LegacyMatchesIsByKey(gates[hit.value], subject, e);
    }
    forall i | 0 <= i < |gates| ensures RecognizedBy(after[i], k) <==> RecognizedBy(gates[i], k) {
    }
    if Recognized(gates, k) {
      var i :| 0 <= i < |gates| && RecognizedBy(gates[i], k);
      assert RecognizedBy(after[i], k);
    }
  }

  /** One escalated entry: either way the sweep goes on with its gate in place. */
  lemma EntryStep(gates: seq<Gate>, d: Dir, subject: string)
    requires Inv(gates) && Escalated(d, subject) && !Malformed(d, subject)
    ensures var c := d.council;
            var k := GateKey(d, subject);
            var after := Ensure(gates, subject, EscalationOf(c), InvocationOf(c));
            && Inv(after) && OnlyAdds(gates, after) && Keyed(after, k)
            && (|after| == |gates| <==> Recognized(gates, k))
            && (FastHit(gates, k, DedupEvent(c.name, InvocationOf(c)), 0).Some? <==> after == gates)
  {
    var e, inv := EscalationOf(d.council), InvocationOf(d.council);
    EnsureKeepsInv(gates, subject, e, inv);
    EnsureMeaning(gates, subject, e, inv);
    FastPathIsPure(gates, subject, e, inv);
  }

  lemma {:induction false} HealKeepsKeyed(gates: seq<Gate>, dirs: seq<Dir>, subject: string, i: nat,
                                          maintenance: bool, k: Key)
    requires i <= |dirs| && Keyed(gates, k)
    ensures Keyed(Heal(gates, dirs, subject, i, maintenance).gates, k)
    decreases |dirs| - i
  {
    if i < |dirs| && !Malformed(dirs[i], subject) {
      HealKeepsKeyed(gates, dirs, subject, i + 1, maintenance, k);
      if Escalated(dirs[i], subject) {
        var c := dirs[i].council;
        var after := Ensure(gates, subject, EscalationOf(c), InvocationOf(c));
        EnsureKeepsKeyed(gates, subject, EscalationOf(c), InvocationOf(c), k);
        HealKeepsKeyed(after, dirs, subject, i + 1, maintenance, k);
      }
    }
  }

  lemma {:induction false} HealOnlyAdds(gates: seq<Gate>, dirs: seq<Dir>, subject: string, i: nat, maintenance: bool)
    requires i <= |dirs| && Inv(gates)
    ensures Inv(Heal(gates, dirs, subject, i, maintenance).gates)
    ensures OnlyAdds(gates, Heal(gates, dirs, subject, i, maintenance).gates)
    decreases |dirs| - i
  {
    if i < |dirs| && !Malformed(dirs[i], subject) {
      if !Escalated(dirs[i], subject) {
        HealOnlyAdds(gates, dirs, subject, i + 1, maintenance);
      } else {
        var c := dirs[i].council;
        var after := Ensure(gates, subject, EscalationOf(c), InvocationOf(c));
        EntryStep(gates, dirs[i], subject);
        HealOnlyAdds(after, dirs, subject, i + 1, maintenance);
      }
    }
  }

  /** A sweep that succeeds has found no malformed record and left a gate for every escalation. */
  lemma {:induction false} HealMaterializes(gates: seq<Gate>, dirs: seq<Dir>, subject: string, i: nat,
                                            maintenance: bool)
    requires i <= |dirs| && Inv(gates) && Heal(gates, dirs, subject, i, maintenance).sweep.Healed?
    ensures forall j {:trigger dirs[j]} :: i <= j < |dirs| ==>
              Materialized(Heal(gates, dirs, subject, i, maintenance).gates, dirs[j], subject)
    decreases |dirs| - i
  {
    if i < |dirs| {
      if !Escalated(dirs[i], subject) {
        HealMaterializes(gates, dirs, subject, i + 1, maintenance);
      } else {
        var c := dirs[i].council;
        var after := Ensure(gates, subject, EscalationOf(c), InvocationOf(c));
        EntryStep(gates, dirs[i], subject);
        HealMaterializes(after, dirs, subject, i + 1, maintenance);
        HealKeepsKeyed(after, dirs, subject, i + 1, maintenance, GateKey(dirs[i], subject));
      }
    }
  }

  /** The gate of one entry covers no other. */
  lemma OthersCovered(gates: seq<Gate>, dirs: seq<Dir>, subject: string, i: nat)
    requires DistinctNames(dirs) && i < |dirs| && Escalated(dirs[i], subject) && !Malformed(dirs[i], subject)
    ensures var c := dirs[i].council;
            var after := Ensure(gates, subject, EscalationOf(c), InvocationOf(c));
            forall j {:trigger dirs[j]} :: i < j < |dirs| ==>
              (Covered(after, dirs[j], subject) <==> Covered(gates, dirs[j], subject))
  {
    var c := dirs[i].council;
    var after := Ensure(gates, subject, EscalationOf(c), InvocationOf(c));
    forall j {:trigger dirs[j]} | i < j < |dirs|
      ensures Covered(after, dirs[j], subject) <==> Covered(gates, dirs[j], subject)
    {
      if Escalated(dirs[j], subject) && !Malformed(dirs[j], subject) {
        EnsureIsLocal(gates, subject, EscalationOf(c), InvocationOf(c), GateKey(dirs[j], subject));
      }
    }
  }

  /** The sweep adds no gate exactly when every entry was covered before. */
  lemma {:induction false} HealAddsNothingIff(gates: seq<Gate>, dirs: seq<Dir>, subject: string, i: nat,
                                              maintenance: bool)
    requires i <= |dirs| && Inv(gates) && DistinctNames(dirs)
    ensures var swept := Heal(gates, dirs, subject, i, maintenance);
            var covered := forall j {:trigger dirs[j]} :: i <= j < |dirs| ==> Covered(gates, dirs[j], subject);
            && (swept.sweep.Healed? && |swept.gates| == |gates| ==> covered)
            && (covered && !maintenance ==> swept.sweep.Healed? && |swept.gates| == |gates|)
    decreases |dirs| - i
  {
    if i < |dirs| && !Malformed(dirs[i], subject) {
      if !Escalated(dirs[i], subject) {
        HealAddsNothingIff(gates, dirs, subject, i + 1, maintenance);
      } else {
        var c := dirs[i].council;
        var after := Ensure(gates, subject, EscalationOf(c), InvocationOf(c));
        EntryStep(gates, dirs[i], subject);
        HealOnlyAdds(after, dirs, subject, i + 1, maintenance);
        HealAddsNothingIff(after, dirs, subject, i + 1, maintenance);
        OthersCovered(gates, dirs, subject, i);
      }
    }
  }

  predicate AllSettled(gates: seq<Gate>) {
    forall i :: 0 <= i < |gates| ==> !gates[i].disposition.Unresolved?
  }

  /**
   * An agent may go on exactly when no council record is malformed, every escalation of the subject
   * already had its gate, and no gate is unresolved: a gate that the sweep has to create blocks.
   */
  lemma AgentProceedsIff(gates: seq<Gate>, dirs: seq<Dir>, subject: string)
    requires Inv(gates) && DistinctNames(dirs)
    ensures GateBlock(gates, dirs, subject, false, false) == Proceed
            <==> AllSettled(gates) && forall j {:trigger dirs[j]} :: 0 <= j < |dirs| ==>
                Covered(gates, dirs[j], subject)
  {
    HealOnlyAdds(gates, dirs, subject, 0, false);
    HealAddsNothingIff(gates, dirs, subject, 0, false);
    var after := Heal(gates, dirs, subject, 0, false).gates;
    if |after| > |gates| {
      assert after[|gates|].disposition.Unresolved?;
    }
    assert |after| == |gates| ==> (AllSettled(after) <==> AllSettled(gates)) by {
      forall i | 0 <= i < |gates| && |after| == |gates| ensures after[i].disposition == gates[i].disposition {
      }
    }
  }

  /** Outside maintenance windows the sweep succeeds exactly when no record of it is malformed. */
  lemma {:induction false} HealedIff(gates: seq<Gate>, dirs: seq<Dir>, subject: string, i: nat)
    requires i <= |dirs|
    ensures Heal(gates, dirs, subject, i, false).sweep.Healed?
            <==> forall j {:trigger dirs[j]} :: i <= j < |dirs| ==> !Malformed(dirs[j], subject)
    ensures Heal(gates, dirs, subject, i, false).sweep in {Healed, FailedClosed}
    decreases |dirs| - i
  {
    if i < |dirs| && !Malformed(dirs[i], subject) {
      HealedIff(gates, dirs, subject, i + 1);
      if Escalated(dirs[i], subject) {
        var c := dirs[i].council;
        HealedIff(Ensure(gates, subject, EscalationOf(c), InvocationOf(c)), dirs, subject, i + 1);
      }
    }
  }

  /** In a maintenance window the sweep writes nothing. */
  lemma {:induction false} MaintenanceWritesNothing(gates: seq<Gate>, dirs: seq<Dir>, subject: string, i: nat)
    requires i <= |dirs|
    ensures Heal(gates, dirs, subject, i, true).gates == gates
    decreases |dirs| - i
  {
    if i < |dirs| && !Malformed(dirs[i], subject) {
      MaintenanceWritesNothing(gates, dirs, subject, i + 1);
    }
  }

  /**
   * The operator is stopped by a malformed record and by nothing else: neither unresolved gates nor
   * those that the sweep creates block it.
   */
  lemma OperatorProceedsIff(gates: seq<Gate>, dirs: seq<Dir>, subject: string)
    ensures GateBlock(gates, dirs, subject, true, false) == Proceed
            <==> forall j {:trigger dirs[j]} :: 0 <= j < |dirs| ==> !Malformed(dirs[j], subject)
  {
    HealedIff(gates, dirs, subject, 0);
  }

  /**
   * Escalation enforcement.  Whenever an agent's mutation is let through, every plan or incident
   * council of the subject with an escalating outcome has its own gate, under its own key, and that
   * gate has left "unresolved" with a recorded authority.
   */
  lemma EscalationsAreEnforced(gates: seq<Gate>, dirs: seq<Dir>, subject: string, maintenance: bool)
    requires Inv(gates) && GateBlock(gates, dirs, subject, false, maintenance) == Proceed
    ensures var after := Heal(gates, dirs, subject, 0, maintenance).gates;
            forall j {:trigger dirs[j]} :: 0 <= j < |dirs| ==>
              && !Malformed(dirs[j], subject)
              && (Escalated(dirs[j], subject) ==>
                    exists i :: 0 <= i < |after| && after[i].key == Some(GateKey(dirs[j], subject))
                                && !after[i].disposition.Unresolved? && after[i].authority.Some?)
  {
    HealOnlyAdds(gates, dirs, subject, 0, maintenance);
    HealMaterializes(gates, dirs, subject, 0, maintenance);
    var after := Heal(gates, dirs, subject, 0, maintenance).gates;
    forall j | 0 <= j < |dirs|
      ensures !Malformed(dirs[j], subject)
      ensures Escalated(dirs[j], subject) ==>
                exists i :: 0 <= i < |after| && after[i].key == Some(GateKey(dirs[j], subject))
                            && !after[i].disposition.Unresolved? && after[i].authority.Some?
    {
      assert Materialized(after, dirs[j], subject);
      if Escalated(dirs[j], subject) {
        var i :| 0 <= i < |after| && after[i].key == Some(GateKey(dirs[j], subject));
        assert !after[i].disposition.Unresolved?;
      }
    }
  }
}
