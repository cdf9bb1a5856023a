/**
 * Escalation gates (tools/clearwright_gate.py): idempotent creation over records that may hold legacy
 * gates without a key, dispositions, and every interleaving of locked and unlocked writers.
 */
module Gates {
  import opened Wrappers

  // ---- Gates and keys ------------------------------------------------------------------------

  /** The dedup key; the digest of a canonical serialization is injective, so the payload stands for it. */
  datatype Key = Key(subject: string, council: string, phase: string, outcome: string, rounds: int, scope: string)

  /** The event that a call of ensure_gate is about; an empty string is an absent field. */
  datatype Escalation = Escalation(council: string, phase: string, outcome: string, rounds: int, scope: string)

  datatype Disposition = Unresolved | Resolved | ClosedUnresolved
  datatype Authority = Authority(message: string)
  /** A caller's own invocation id, or the deterministic one of the healing sweep. */
  datatype Invocation = Caller(id: string) | GateEval(council: string, outcome: string, substantive: int)

  datatype DedupEvent = DedupEvent(council: string, invocation: Invocation)

  datatype Gate = Gate(subject: string, council: string, phase: string, outcome: string, key: Option<Key>,
                       rounds: Option<int>, scope: Option<string>, events: seq<DedupEvent>,
                       disposition: Disposition, authority: Option<Authority>)

  function LowerChar(c: char): char {
    if 'A' <= c <= 'Z' then ((c as int) + 32) as char else c
  }

  function Lower(s: string): string {
    seq(|s|, i requires 0 <= i < |s| => LowerChar(s[i]))
  }

  function Scope(s: string): string {
    if s == "" then "none" else s
  }

  /** `_dedup_key`. */
  function DedupKey(subject: string, council: string, phase: string, outcome: string, rounds: int, scope: string): Key {
    Key(subject, council, Lower(phase), Lower(outcome), rounds, Scope(scope))
  }

  function KeyOf(subject: string, e: Escalation): Key {
    DedupKey(subject, e.council, e.phase, e.outcome, e.rounds, e.scope)
  }

  /** `_legacy_matches`: fields that the gate does not store are taken from the call. */
  predicate LegacyMatches(g: Gate, subject: string, e: Escalation) {
    && g.council != "" && g.outcome != ""
    && DedupKey(if g.subject != "" then g.subject else subject, g.council, g.phase, g.outcome,
                if g.rounds.Some? then g.rounds.value else e.rounds,
                if g.scope.Some? then g.scope.value else e.scope)
       == KeyOf(subject, e)
  }

  /** The same, in terms of the key alone. */
  predicate MatchesKey(g: Gate, k: Key) {
    && g.council != "" && g.outcome != ""
    && (g.subject == "" || g.subject == k.subject)
    && g.council == k.council && Lower(g.phase) == k.phase && Lower(g.outcome) == k.outcome
    && (g.rounds.Some? ==> g.rounds.value == k.rounds)
    && (g.scope.Some? ==> Scope(g.scope.value) == k.scope)
  }

  lemma LegacyMatchesIsByKey(g: Gate, subject: string, e: Escalation)
    ensures LegacyMatches(g, subject, e) <==> MatchesKey(g, KeyOf(subject, e))
  {
  }

  /** The same text, whatever the case of its letters. */
  predicate SameFolded(a: string, b: string) {
    |a| == |b| && forall i :: 0 <= i < |a| ==> LowerChar(a[i]) == LowerChar(b[i])
  }

  /** The same scope, where no scope may be spelled "none". */
  predicate SameScope(a: string, b: string) {
    a == b || (a in {"", "none"} && b in {"", "none"})
  }

  lemma FoldsIff(a: string, b: string)
    ensures Lower(a) == Lower(b) <==> SameFolded(a, b)
  {
    if Lower(a) == Lower(b) {
      forall i | 0 <= i < |a| ensures LowerChar(a[i]) == LowerChar(b[i]) {
        assert Lower(a)[i] == Lower(b)[i];
      }
    }
  }

  /** When a keyless gate stands for an escalation: what it does not say is no objection. */
  lemma LegacyIff(g: Gate, subject: string, e: Escalation)
    ensures LegacyMatches(g, subject, e) <==>
              && g.council != "" && g.outcome != ""
              && (g.subject == "" || g.subject == subject)
              && g.council == e.council && SameFolded(g.phase, e.phase) && SameFolded(g.outcome, e.outcome)
              && (g.rounds.None? || g.rounds == Some(e.rounds))
              && (g.scope.None? || SameScope(g.scope.value, e.scope))
  {
    FoldsIff(g.phase, e.phase);
    FoldsIff(g.outcome, e.outcome);
  }

  /** Two escalations share a gate iff they agree in every field, up to case and the spelling of no scope. */
  lemma SameKeyIff(subject: string, a: Escalation, b: Escalation)
    ensures KeyOf(subject, a) == KeyOf(subject, b) <==>
              && a.council == b.council && SameFolded(a.phase, b.phase) && SameFolded(a.outcome, b.outcome)
              && a.rounds == b.rounds && SameScope(a.scope, b.scope)
  {
    FoldsIff(a.phase, b.phase);
    FoldsIff(a.outcome, b.outcome);
  }

  // ---- ensure_gate ------------------------------------------------------------------------------

  predicate Hit(g: Gate, subject: string, e: Escalation) {
    g.key == Some(KeyOf(subject, e)) || (g.key.None? && LegacyMatches(g, subject, e))
  }

  /** The gate the locked loop stops at. */
  function FirstHit(gates: seq<Gate>, subject: string, e: Escalation, i: nat): (r: Option<nat>)
    requires i <= |gates|
    ensures r.None? ==> forall k :: i <= k < |gates| ==> !Hit(gates[k], subject, e)
    ensures r.Some? ==> i <= r.value < |gates| && Hit(gates[r.value], subject, e)
                        && forall k :: i <= k < r.value ==> !Hit(gates[k], subject, e)
    decreases |gates| - i
  {
    if i == |gates| then None
    else if Hit(gates[i], subject, e) then Some(i)
    else FirstHit(gates, subject, e, i + 1)
  }

  predicate HasEvent(events: seq<DedupEvent>, ev: DedupEvent) {
    exists i :: 0 <= i < |events| && events[i] == ev
  }

  function Seen(g: Gate, k: Key, ev: DedupEvent): Gate {
    g.(key := Some(k), events := if HasEvent(g.events, ev) then g.events else g.events + [ev])
  }

  function NewGate(subject: string, e: Escalation): Gate {
    Gate(subject, e.council, e.phase, e.outcome, Some(KeyOf(subject, e)), None, None, [], Unresolved, None)
  }

  /** The section under the writer lock. */
  function Ensure(gates: seq<Gate>, subject: string, e: Escalation, invocation: Invocation): seq<Gate> {
    var hit := FirstHit(gates, subject, e, 0);
    if hit.Some?
    then gates[hit.value := Seen(gates[hit.value], KeyOf(subject, e), DedupEvent(e.council, invocation))]
    else gates + [NewGate(subject, e)]
  }

  /** The lock-free read: the first gate stored under the key already knows this invocation. */
  function FastHit(gates: seq<Gate>, k: Key, ev: DedupEvent, i: nat): Option<nat>
    requires i <= |gates|
    decreases |gates| - i
  {
    if i == |gates| then None
    else if gates[i].key == Some(k) then (if HasEvent(gates[i].events, ev) then Some(i) else None)
    else FastHit(gates, k, ev, i + 1)
  }

  // ---- The invariant ------------------------------------------------------------------------------

  ghost predicate UniqueKeys(gates: seq<Gate>) {
    forall i, j :: 0 <= i < j < |gates| && gates[i].key.Some? ==> gates[i].key != gates[j].key
  }

  /** No keyed gate comes after a keyless one that a call for its key would be matched with. */
  ghost predicate NoneShadowed(gates: seq<Gate>) {
    forall i, j :: 0 <= i < j < |gates| && gates[i].key.None? && gates[j].key.Some? ==>
        !MatchesKey(gates[i], gates[j].key.value)
  }

  predicate UniqueEvents(g: Gate) {
    forall i, j :: 0 <= i < j < |g.events| ==> g.events[i] != g.events[j]
  }

  ghost predicate Inv(gates: seq<Gate>) {
    && UniqueKeys(gates) && NoneShadowed(gates)
    && (forall i :: 0 <= i < |gates| ==> UniqueEvents(gates[i]))
    && (forall i :: 0 <= i < |gates| ==> (gates[i].disposition.Unresolved? <==> gates[i].authority.None?))
  }

  /** Records from before the upgrade hold only gates without keys and events. */
  lemma LegacyRecordsSatisfyInv(gates: seq<Gate>)
    requires forall i :: 0 <= i < |gates| ==>
               gates[i].key.None? && gates[i].events == []
                   && (gates[i].disposition.Unresolved? <==> gates[i].authority.None?)
    ensures Inv(gates)
  {
  }

  lemma EnsureKeepsInv(gates: seq<Gate>, subject: string, e: Escalation, invocation: Invocation)
    requires Inv(gates)
    ensures Inv(Ensure(gates, subject, e, invocation))
  {
    var k, hit := KeyOf(subject, e), FirstHit(gates, subject, e, 0);
    forall i | 0 <= i < |gates| && (hit.Some? ==> i < hit.value) ensures !RecognizedBy(gates[i], k) {
      assert !Hit(gates[i], subject, e);
      LegacyMatchesIsByKey(gates[i], subject, e);
    }
    if hit.Some? {
      LegacyMatchesIsByKey(gates[hit.value], subject, e);
      SeenKeepsInv(gates, hit.value, k, DedupEvent(e.council, invocation));
    } else {
      AddedKeepsInv(gates, NewGate(subject, e), k);
    }
  }

  lemma SeenKeepsInv(gates: seq<Gate>, h: nat, k: Key, ev: DedupEvent)
    requires Inv(gates) && h < |gates| && RecognizedBy(gates[h], k)
    requires forall i :: 0 <= i < h ==> !RecognizedBy(gates[i], k)
    ensures Inv(gates[h := Seen(gates[h], k, ev)])
  {
    assert UniqueEvents(Seen(gates[h], k, ev));
    if gates[h].key.None? {
      forall j | h < j < |gates| && gates[j].key.Some? ensures gates[j].key.value != k {
        assert !MatchesKey(gates[h], gates[j].key.value);
      }
    }
  }

  lemma AddedKeepsInv(gates: seq<Gate>, g: Gate, k: Key)
    requires Inv(gates) && g.key == Some(k) && g.events == [] && g.disposition.Unresolved? && g.authority.None?
    requires forall i :: 0 <= i < |gates| ==> !RecognizedBy(gates[i], k)
    ensures Inv(gates + [g])
  {
  }

  /**
   * later keeps every gate of earlier: its identity, its events, its key once it has one, and its
   * disposition with the authority once it has left "unresolved".
   */
  predicate GateKept(g: Gate, g': Gate) {
    && g' == g.(key := g'.key, events := g'.events, disposition := g'.disposition, authority := g'.authority)
    && (g.key.Some? ==> g'.key == g.key)
    && g.events <= g'.events
    && ((g'.disposition == g.disposition && g'.authority == g.authority)
        || (g.disposition.Unresolved? && !g'.disposition.Unresolved?))
  }

  predicate Kept(earlier: seq<Gate>, later: seq<Gate>) {
    |earlier| <= |later| && forall i :: 0 <= i < |earlier| ==> GateKept(earlier[i], later[i])
  }

  /**
   * What ensure_gate does: afterwards exactly one gate carries the key; existing gates keep their
   * authority and disposition; a new, unresolved gate is appended exactly when nothing matched.
   */
  lemma EnsureMeaning(gates: seq<Gate>, subject: string, e: Escalation, invocation: Invocation)
    requires Inv(gates)
    ensures var after := Ensure(gates, subject, e, invocation);
            && Kept(gates, after)
            && (forall i :: 0 <= i < |gates| ==>
                  after[i].disposition == gates[i].disposition && after[i].authority == gates[i].authority)
            && (exists i :: 0 <= i < |after| && after[i].key == Some(KeyOf(subject, e)))
            && (|after| == |gates| <==> Recognized(gates, KeyOf(subject, e)))
            && (|after| != |gates| ==>
                  after == gates + [Gate(subject, e.council, e.phase, e.outcome, Some(KeyOf(subject, e)), None, None,
                                         [],
                                         Unresolved, None)])
  {
    var k := KeyOf(subject, e);
    var after := Ensure(gates, subject, e, invocation);
    var hit := FirstHit(gates, subject, e, 0);
    if hit.Some? {
      LegacyMatchesIsByKey(gates[hit.value], subject, e);
      assert after[hit.value].key == Some(k);
    } else {
      assert after[|gates|].key == Some(k);
      forall i | 0 <= i < |gates| ensures !RecognizedBy(gates[i], k) {
        assert !Hit(gates[i], subject, e);
        LegacyMatchesIsByKey(gates[i], subject, e);
      }
    }
  }

  predicate RecognizedBy(g: Gate, k: Key) {
    g.key == Some(k) || (g.key.None? && MatchesKey(g, k))
  }

  predicate Recognized(gates: seq<Gate>, k: Key) {
    exists i :: 0 <= i < |gates| && RecognizedBy(gates[i], k)
  }

  // ---- The lock-free path ---------------------------------------------------------------------------

  /** The first gate from i on that is stored under the key. */
  predicate FirstWithKey(gates: seq<Gate>, k: Key, i: nat, j: nat) {
    i <= j < |gates| && gates[j].key == Some(k) && forall m :: i <= m < j ==> gates[m].key != Some(k)
  }

  lemma {:induction false} FastHitMeans(gates: seq<Gate>, k: Key, ev: DedupEvent, i: nat)
    requires i <= |gates|
    ensures var r := FastHit(gates, k, ev, i);
            && (r.Some? ==> i <= r.value < |gates| && gates[r.value].key == Some(k)
                            && HasEvent(gates[r.value].events, ev))
            && (r.None? ==> forall j: nat :: FirstWithKey(gates, k, i, j) ==> !HasEvent(gates[j].events, ev))
    decreases |gates| - i
  {
    if i < |gates| && gates[i].key != Some(k) {
      FastHitMeans(gates, k, ev, i + 1);
    }
  }

  /**
   * The lock-free path refines the locked one: it answers without the lock exactly when the locked
   * section would have rewritten nothing.
   */
  lemma FastPathIsPure(gates: seq<Gate>, subject: string, e: Escalation, invocation: Invocation)
    requires Inv(gates)
    ensures FastHit(gates, KeyOf(subject, e), DedupEvent(e.council, invocation), 0).Some?
            <==> Ensure(gates, subject, e, invocation) == gates
  {
    var k, ev := KeyOf(subject, e), DedupEvent(e.council, invocation);
    var after := Ensure(gates, subject, e, invocation);
    var hit := FirstHit(gates, subject, e, 0);
    var fast := FastHit(gates, k, ev, 0);
    FastHitMeans(gates, k, ev, 0);
    if fast.Some? {
      var f := fast.value;
      assert Hit(gates[f], subject, e);
      LegacyMatchesIsByKey(gates[hit.value], subject, e);
      assert hit == Some(f);
      assert gates[f] == Seen(gates[f], k, ev);
    }
    if after == gates {
      var h := hit.value;
      assert after[h] == Seen(gates[h], k, ev) == gates[h];
      EventIsSeen(gates[h], k, ev);
    }
  }

  lemma EventIsSeen(g: Gate, k: Key, ev: DedupEvent)
    ensures HasEvent(Seen(g, k, ev).events, ev)
  {
    assert !HasEvent(g.events, ev) ==> Seen(g, k, ev).events[|g.events|] == ev;
  }

  /**
   * The first repeat of a call that created a gate still writes an event; the repeat of any call that
   * found its gate is a pure read.
   */
  lemma RepeatIsPureIff(gates: seq<Gate>, subject: string, e: Escalation, invocation: Invocation)
    requires Inv(gates)
    ensures var after := Ensure(gates, subject, e, invocation);
            Ensure(after, subject, e, invocation) == after <==> Recognized(gates, KeyOf(subject, e))
  {
    var k, ev := KeyOf(subject, e), DedupEvent(e.council, invocation);
    var after := Ensure(gates, subject, e, invocation);
    EnsureKeepsInv(gates, subject, e, invocation);
    EnsureMeaning(gates, subject, e, invocation);
    EnsureMeaning(after, subject, e, invocation);
    var hit, hit' := FirstHit(gates, subject, e, 0), FirstHit(after, subject, e, 0);
    var at := if hit.Some? then hit.value else |gates|;
    assert Hit(after[at], subject, e);
    LegacyMatchesIsByKey(after[hit'.value], subject, e);
    assert hit' == Some(at);
    if hit.Some? {
      EventIsSeen(gates[at], k, ev);
      assert after[at] == Seen(after[at], k, ev);
    } else {
      assert Ensure(after, subject, e, invocation)[at].events == [ev];
    }
  }

  // ---- Unlocked read-modify-write ------------------------------------------------------------------

  function FirstUnresolved(gates: seq<Gate>, i: nat): (r: Option<nat>)
    requires i <= |gates|
    ensures r.Some? ==> i <= r.value < |gates| && gates[r.value].disposition.Unresolved?
                        && forall k :: i <= k < r.value ==> !gates[k].disposition.Unresolved?
    ensures r.None? ==> forall k :: i <= k < |gates| ==> !gates[k].disposition.Unresolved?
    decreases |gates| - i
  {
    if i == |gates| then None
    else if gates[i].disposition.Unresolved? then Some(i)
    else FirstUnresolved(gates, i + 1)
  }

  /** What `_record_disposition` writes back after it has read `gates`; None if it refuses. */
  function Disposed(gates: seq<Gate>, disposition: Disposition, authority: Authority): Option<seq<Gate>>
    requires !disposition.Unresolved?
  {
    var at := FirstUnresolved(gates, 0);
    if at.None? then None
    else Some(gates[at.value := gates[at.value].(disposition := disposition, authority := Some(authority))])
  }

  /** What `create_gate` writes back: a gate without a key, if none is unresolved. */
  function Created(gates: seq<Gate>, subject: string, council: string, phase: string,
                   outcome: string): Option<seq<Gate>> {
    if FirstUnresolved(gates, 0).Some? then None
    else Some(gates + [Gate(subject, council, phase, outcome, None, None, None, [], Unresolved, None)])
  }

  /** A gate by hand needs a record without an unresolved one, and becomes its only unresolved one. */
  lemma CreatedIff(gates: seq<Gate>, subject: string, council: string, phase: string, outcome: string)
    ensures var written := Created(gates, subject, council, phase, outcome);
            && (written.Some? <==> forall i :: 0 <= i < |gates| ==> !gates[i].disposition.Unresolved?)
            && (written.Some? ==>
                  && |written.value| == |gates| + 1 && written.value[..|gates|] == gates
                  && var g := written.value[|gates|];
                     g.key.None? && g.disposition.Unresolved? && g.authority.None? && g.subject == subject
                     && g.council == council && g.phase == phase && g.outcome == outcome)
  {
  }

  /**
   * A disposition is computed from a record that was read without the lock and written back whole.
   * If the record has moved on in between, the write keeps what others wrote only if they wrote
   * nothing, or this very disposition.
   */
  lemma DispositionLosesUpdateIff(read: seq<Gate>, current: seq<Gate>, disposition: Disposition, authority: Authority)
    requires Kept(read, current) && !disposition.Unresolved? && Disposed(read, disposition, authority).Some?
    ensures var written := Disposed(read, disposition, authority).value;
            Kept(current, written) <==> current == read || current == written
  {
    var written := Disposed(read, disposition, authority).value;
    if Kept(current, written) {
      forall i | 0 <= i < |read| ensures current[i] == read[i] || current[i] == written[i] {
        assert GateKept(read[i], current[i]) && GateKept(current[i], written[i]);
        assert current[i].events == read[i].events;
      }
      var at := FirstUnresolved(read, 0).value;
      forall i | 0 <= i < |read| && i != at ensures current[i] == read[i] {
        assert written[i] == read[i];
      }
    }
  }

  /** The same holds of the other unlocked writer, `create_gate`. */
  lemma CreateLosesUpdateIff(read: seq<Gate>, current: seq<Gate>, subject: string, council: string, phase: string,
                             outcome: string)
    requires Kept(read, current) && Created(read, subject, council, phase, outcome).Some?
    ensures var written := Created(read, subject, council, phase, outcome).value;
            Kept(current, written) <==> current == read || current == written
  {
    var written := Created(read, subject, council, phase, outcome).value;
    if Kept(current, written) {
      forall i | 0 <= i < |read| ensures current[i] == read[i] {
        assert GateKept(read[i], current[i]) && GateKept(current[i], written[i]) && written[i] == read[i];
      }
      if |current| > |read| {
        assert GateKept(current[|read|], written[|read|]);
        assert current[|read|] == written[|read|];
      }
    }
  }

  /** A concrete loss: a gate that ensure_gate creates between the read and the write disappears. */
  lemma GateIsLost(read: seq<Gate>, subject: string, e: Escalation, invocation: Invocation, authority: Authority)
    requires Inv(read) && FirstUnresolved(read, 0).Some? && !Recognized(read, KeyOf(subject, e))
    ensures var current := Ensure(read, subject, e, invocation);
            var written := Disposed(read, Resolved, authority).value;
            && Recognized(current, KeyOf(subject, e))
            && !Recognized(written, KeyOf(subject, e))
  {
    EnsureMeaning(read, subject, e, invocation);
    var k := KeyOf(subject, e);
    var current := Ensure(read, subject, e, invocation);
    assert RecognizedBy(current[|read|], k);
    var written := Disposed(read, Resolved, authority).value;
    forall i | 0 <= i < |written| ensures !RecognizedBy(written[i], k) {
      assert !RecognizedBy(read[i], k);
    }
  }

  // ---- Every interleaving ----------------------------------------------------------------------------

  type Thread = nat

  /** The record of one subject, and what each thread last read without the lock. */
  datatype System = System(gates: seq<Gate>, views: map<Thread, seq<Gate>>)

  datatype Step =
    | LockedEnsure(e: Escalation, invocation: Invocation)
    | UnlockedRead(thread: Thread)
    | WriteDisposition(thread: Thread, disposition: Disposition, authority: Authority)
    | WriteCreate(thread: Thread, council: string, phase: string, outcome: string)

  function AfterStep(s: System, subject: string, step: Step): System {
    match step
    case LockedEnsure(e, invocation) => s.(gates := Ensure(s.gates, subject, e, invocation))
    case UnlockedRead(t) => s.(views := s.views[t := s.gates])
    case WriteDisposition(t, disposition, authority) =>
      if t !in s.views || disposition.Unresolved? then s
      else s.(gates := GetWritten(Disposed(s.views[t], disposition, authority), s.gates))
    case WriteCreate(t, council, phase, outcome) =>
      if t !in s.views then s
      else s.(gates := GetWritten(Created(s.views[t], subject, council, phase, outcome), s.gates))
  }

  function GetWritten(written: Option<seq<Gate>>, current: seq<Gate>): seq<Gate> {
    match written case None => current case Some(gates) => gates
  }

  function AfterSteps(s: System, subject: string, steps: seq<Step>): System
    decreases |steps|
  {
    if steps == [] then s else AfterSteps(AfterStep(s, subject, steps[0]), subject, steps[1..])
  }

  ghost predicate SystemInv(s: System) {
    Inv(s.gates) && forall t :: t in s.views ==> Inv(s.views[t])
  }

  lemma WriteKeepsInv(read: seq<Gate>, subject: string, step: Step)
    requires Inv(read)
    ensures step.WriteDisposition? && !step.disposition.Unresolved?
            && Disposed(read, step.disposition, step.authority).Some?
            ==> Inv(Disposed(read, step.disposition, step.authority).value)
    ensures step.WriteCreate? && Created(read, subject, step.council, step.phase, step.outcome).Some?
            ==> Inv(Created(read, subject, step.council, step.phase, step.outcome).value)
  {
  }

  lemma StepKeepsInv(s: System, subject: string, step: Step)
    requires SystemInv(s)
    ensures SystemInv(AfterStep(s, subject, step))
  {
    match step
    case LockedEnsure(e, invocation) => EnsureKeepsInv(s.gates, subject, e, invocation);
    case UnlockedRead(t) =>
    case WriteDisposition(t, _, _) =>
      if t in s.views {
        WriteKeepsInv(s.views[t], subject, step);
      }
    case WriteCreate(t, _, _, _) =>
      if t in s.views {
        WriteKeepsInv(s.views[t], subject, step);
      }
  }

  /**
   * Gate uniqueness.  Under every interleaving of locked sections and unlocked read-modify-writes by
   * any number of threads, no two gates of a record share a dedup key and no gate records an event
   * twice; a lost update loses gates, but never duplicates one.
   */
  lemma {:induction false} GatesStayUnique(s: System, subject: string, steps: seq<Step>)
    requires SystemInv(s)
    ensures SystemInv(AfterSteps(s, subject, steps))
    decreases |steps|
  {
    if steps != [] {
      StepKeepsInv(s, subject, steps[0]);
      GatesStayUnique(AfterStep(s, subject, steps[0]), subject, steps[1..]);
    }
  }
}
