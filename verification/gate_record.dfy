/** The gate record of one subject as mutable state, against Gates, GateEnforcement and GateRaces. */
module GateRecords {
  import opened Wrappers
  import opened Gates
  import opened GateEnforcement
  import opened GateRaces

  /** An entry is passed over, stops the sweep, or demands a gate. */
  datatype Inspection = Skip | Fail | Demand(e: Escalation, invocation: Invocation)

  lemma {:induction false} SubstantiveSnoc(numbers: seq<RoundNo>, last: RoundNo, files: map<int, RoundFile>)
    requires forall i :: 0 <= i < |numbers| ==> numbers[i].Number? && numbers[i].n in files
    requires last.Number? && last.n in files
    ensures Substantive(numbers + [last], files)
            == Substantive(numbers, files) + if files[last.n].substantive then 1 else 0
  {
    if numbers == [] {
      assert numbers + [last] == [last];
    } else {
      assert (numbers + [last])[1..] == numbers[1..] + [last];
      SubstantiveSnoc(numbers[1..], last, files);
    }
  }

  class GateRecord {
    const subject: string
    var gates: seq<Gate>

    constructor (subject: string, gates: seq<Gate>)
      ensures this.subject == subject && this.gates == gates
    {
      this.subject, this.gates := subject, gates;
    }

    /** The lock-free loop: the index of a gate that already knows the invocation, if a read suffices. */
    method LookUp(k: Key, ev: DedupEvent) returns (at: Option<nat>)
      ensures at == FastHit(gates, k, ev, 0)
    {
      for i := 0 to |gates|
        invariant FastHit(gates, k, ev, 0) == FastHit(gates, k, ev, i)
      {
        if gates[i].key == Some(k) {
          return if HasEvent(gates[i].events, ev) then Some(i) else None;
        }
      }
      return None;
    }

    /** `ensure_gate`: the lock-free path, then the section under the writer lock. */
    method EnsureGate(e: Escalation, invocation: Invocation) returns (deduplicated: bool, at: nat)
      requires Inv(gates)
      modifies `gates
      ensures gates == Ensure(old(gates), subject, e, invocation) && Inv(gates)
      ensures at < |gates| && gates[at].key == Some(KeyOf(subject, e))
      ensures deduplicated <==> Recognized(old(gates), KeyOf(subject, e))
    {
      var k, ev := KeyOf(subject, e), DedupEvent(e.council, invocation);
      EnsureKeepsInv(gates, subject, e, invocation);
      EnsureMeaning(gates, subject, e, invocation);
      var fast := LookUp(k, ev);
      if fast.Some? {
        FastPathIsPure(gates, subject, e, invocation);
        FastHitMeans(gates, k, ev, 0);
        return true, fast.value;
      }
      var found: Option<nat> := None;
      var i := 0;
      while i < |gates| && found.None?
        invariant i <= |gates|
        invariant found.None? ==> FirstHit(gates, subject, e, 0) == FirstHit(gates, subject, e, i)
        invariant found.Some? ==> found == FirstHit(gates, subject, e, 0)
        decreases |gates| - i, found.None?
      {
        if gates[i].key == Some(k) {
          found := Some(i);
        } else if gates[i].key.None? && LegacyMatches(gates[i], subject, e) {
          found := Some(i);
        } else {
          i := i + 1;
        }
      }
      if found.Some? {
        at := found.value;
        gates := gates[at := Seen(gates[at], k, ev)];
        return true, at;
      }
      gates := gates + [NewGate(subject, e)];
      return false, |gates| - 1;
    }

    /**
     * `_record_disposition`: it searches the record as it was read before, without the lock, and
     * writes that record back over whatever is there now.
     */
    method RecordDisposition(record: seq<Gate>, disposition: Disposition, authority: Authority) returns (ok: bool)
      requires !disposition.Unresolved? && Inv(record)
      modifies `gates
      ensures ok <==> Disposed(record, disposition, authority).Some?
      ensures gates == GetWritten(Disposed(record, disposition, authority), old(gates))
      ensures ok ==> Inv(gates) && Kept(record, gates)
    {
      for i := 0 to |record|
        invariant FirstUnresolved(record, 0) == FirstUnresolved(record, i)
        invariant gates == old(gates)
      {
        if record[i].disposition.Unresolved? {
          gates := record[i := record[i].(disposition := disposition, authority := Some(authority))];
          return true;
        }
      }
      return false;
    }

    /** `grant_proceed` after its two reads: validate against the first, settle what the second shows. */
    method GrantProceed(first: seq<Gate>, second: seq<Gate>, qualifies: nat -> bool, disposition: Disposition,
                        authority: Authority) returns (ok: bool)
      requires !disposition.Unresolved? && Inv(second)
      modifies `gates
      ensures ok <==> Grant(first, second, qualifies, disposition, authority).Some?
      ensures gates == GetWritten(Grant(first, second, qualifies, disposition, authority), old(gates))
    {
      for i := 0 to |first|
        invariant FirstUnresolved(first, 0) == FirstUnresolved(first, i)
        invariant gates == old(gates)
      {
        if first[i].disposition.Unresolved? {
          if !qualifies(i) {
            return false;
          }
          ok := RecordDisposition(second, disposition, authority);
          return;
        }
      }
      return false;
    }

    /** What one entry of the councils directory comes to, read as the sweep reads it. */
    method Inspect(d: Dir) returns (found: Inspection)
      ensures found.Fail? <==> Malformed(d, subject)
      ensures found.Skip? <==> !Malformed(d, subject) && !Escalated(d, subject)
      ensures found.Demand? ==> found.e == EscalationOf(d.council) && found.invocation == InvocationOf(d.council)
    {
      match d
      case Foreign => return Skip;
      case Empty => return Skip;
      case Broken => return Fail;
      case Record(c) =>
        if c.subject != subject || (c.phase != "plan" && c.phase != "incident") {
          return Skip;
        }
        match c.outcome {
          case NoOutcome => return Skip;
          case BadOutcome => return Fail;
          case Outcome(value) =>
            if value != "operator_required" && value != "hard_gate" {
              return Skip;
            }
            var counted := CountRounds(c);
            if counted.None? {
              return Fail;
            }
            return Demand(Escalation(c.name, c.phase, value, counted.value, c.scope),
                          GateEval(c.name, value, counted.value));
        }
    }

    /** The checks of `ensure_escalation_gate` on the recorded rounds; None if one fails. */
    method CountRounds(c: Council) returns (counted: Option<nat>)
      ensures counted.Some? <==> RoundsSound(c)
      ensures counted.Some? && c.rounds.Recorded? ==> counted.value == Substantive(c.rounds.numbers, c.files)
      ensures counted.Some? && c.rounds.NoKey? ==> counted.value == 0
    {
      if c.rounds.NoKey? {
        return Some(0);
      }
      if c.rounds.NotAList? {
        return None;
      }
      var recorded := c.rounds.numbers;
      var seen: set<RoundNo> := {};
      for i := 0 to |recorded|
        invariant forall j :: 0 <= j < i ==> recorded[j].Number? && recorded[j] in seen
        invariant forall r :: r in seen ==> r in recorded[..i]
        invariant forall j, k :: 0 <= j < k < i ==> recorded[j] != recorded[k]
      {
        if recorded[i].NotANumber? || recorded[i] in seen {
          return None;
        }
        seen := seen + {recorded[i]};
      }
      var count := 0;
      for i := 0 to |recorded|
        invariant forall j :: 0 <= j < i ==> recorded[j].n in c.files && c.files[recorded[j].n].round == recorded[j]
        invariant count == Substantive(recorded[..i], c.files)
      {
        var n := recorded[i].n;
        if n !in c.files || c.files[n].round != Number(n) {
          return None;
        }
        SubstantiveSnoc(recorded[..i], recorded[i], c.files);
        assert recorded[..i + 1] == recorded[..i] + [recorded[i]];
        if c.files[n].substantive {
          count := count + 1;
        }
      }
      assert recorded[..|recorded|] == recorded;
      return Some(count);
    }

    /** The loop of `heal_escalation_gates`. */
    method HealEscalationGates(dirs: seq<Dir>, maintenance: bool) returns (sweep: Sweep)
      requires Inv(gates)
      modifies `gates
      ensures Heal(old(gates), dirs, subject, 0, maintenance) == Swept(gates, sweep) && Inv(gates)
    {
      for i := 0 to |dirs|
        invariant Inv(gates)
        invariant Heal(old(gates), dirs, subject, 0, maintenance) == Heal(gates, dirs, subject, i, maintenance)
      {
        var found := Inspect(dirs[i]);
        if found.Fail? {
          return FailedClosed;
        }
        if found.Demand? {
          EntryStep(gates, dirs[i], subject);
          var fast := LookUp(KeyOf(subject, found.e), DedupEvent(found.e.council, found.invocation));
          if fast.None? {
            if maintenance {
              return Busy;
            }
            var deduplicated, at := EnsureGate(found.e, found.invocation);
          }
        }
      }
      return Healed;
    }

    /** `_gate_block`. */
    method Block(dirs: seq<Dir>, operator: bool, maintenance: bool) returns (verdict: Verdict)
      requires Inv(gates)
      modifies `gates
      ensures verdict == GateBlock(old(gates), dirs, subject, operator, maintenance)
      ensures gates == Heal(old(gates), dirs, subject, 0, maintenance).gates && Inv(gates)
    {
      var sweep := HealEscalationGates(dirs, maintenance);
      if !sweep.Healed? {
        return Refused;
      }
      if operator {
        return Proceed;
      }
      for i := 0 to |gates|
        invariant FirstUnresolved(gates, 0) == FirstUnresolved(gates, i)
      {
        if gates[i].disposition.Unresolved? {
          return Refused;
        }
      }
      return Proceed;
    }
  }
}
