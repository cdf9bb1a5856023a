/**
 * Gates under concurrent writers: what a run keeps while every unlocked write is fresh, which act
 * decides whether a gate is there, exactly when an agent's sweep enforces its escalations, and which
 * gate an operator's message settles.
 */
module GateRaces {
  import opened Wrappers
  import opened Gates
  import opened GateEnforcement

  // ---- Runs in which every unlocked write is fresh ------------------------------------------------

  /** The thread read the record that it is about to replace. */
  predicate Fresh(s: System, step: Step) {
    (step.WriteDisposition? || step.WriteCreate?) && step.thread in s.views ==> s.views[step.thread] == s.gates
  }

  lemma KeptTrans(a: seq<Gate>, b: seq<Gate>, c: seq<Gate>)
    requires Kept(a, b) && Kept(b, c)
    ensures Kept(a, c)
  {
    forall i | 0 <= i < |a| ensures GateKept(a[i], c[i]) {
      assert GateKept(a[i], b[i]) && GateKept(b[i], c[i]);
    }
  }

  lemma KeptRefl(gates: seq<Gate>)
    ensures Kept(gates, gates)
  {
  }

  lemma DisposedKeeps(gates: seq<Gate>, disposition: Disposition, authority: Authority)
    requires !disposition.Unresolved? && Disposed(gates, disposition, authority).Some?
    ensures Kept(gates, Disposed(gates, disposition, authority).value)
  {
  }

  lemma CreatedKeeps(gates: seq<Gate>, subject: string, council: string, phase: string, outcome: string)
    requires Created(gates, subject, council, phase, outcome).Some?
    ensures Kept(gates, Created(gates, subject, council, phase, outcome).value)
  {
  }

  lemma FreshStepKeeps(s: System, subject: string, step: Step)
    requires SystemInv(s) && Fresh(s, step)
    ensures Kept(s.gates, AfterStep(s, subject, step).gates)
  {
    KeptRefl(s.gates);
    match step
    case LockedEnsure(e, invocation) => EnsureMeaning(s.gates, subject, e, invocation);
    case UnlockedRead(t) =>
    case WriteDisposition(t, disposition, authority) =>
      if t in s.views && !disposition.Unresolved? && Disposed(s.gates, disposition, authority).Some? {
        DisposedKeeps(s.gates, disposition, authority);
      }
    case WriteCreate(t, council, phase, outcome) =>
      if t in s.views && Created(s.gates, subject, council, phase, outcome).Some? {
        CreatedKeeps(s.gates, subject, council, phase, outcome);
      }
  }

  // ---- A sweep among other writers --------------------------------------------------------------------

  /** A step of any writer, or one entry of an agent's sweep, with the council as it is read then. */
  datatype Act = Other(step: Step) | SweepEntry(dir: Dir)

  /** The sweep creates or finds the gate of an escalated council; a malformed record ends it. */
  function AfterAct(s: System, subject: string, act: Act): System {
    match act
    case Other(step) => AfterStep(s, subject, step)
    case SweepEntry(d) =>
      if Malformed(d, subject) || !Escalated(d, subject) then s
      else if FastHit(s.gates, GateKey(d, subject), DedupEvent(d.council.name, InvocationOf(d.council)), 0).Some? then s
      else AfterStep(s, subject, LockedEnsure(EscalationOf(d.council), InvocationOf(d.council)))
  }

  function AfterActs(s: System, subject: string, acts: seq<Act>): System
    decreases |acts|
  {
    if acts == [] then s else AfterActs(AfterAct(s, subject, acts[0]), subject, acts[1..])
  }

  /** Every unlocked write replaces the record that its thread read. */
  ghost predicate FreshActs(s: System, subject: string, acts: seq<Act>)
    decreases |acts|
  {
    acts != [] ==>
      && (acts[0].Other? ==> Fresh(s, acts[0].step))
      && FreshActs(AfterAct(s, subject, acts[0]), subject, acts[1..])
  }

  lemma ActKeeps(s: System, subject: string, act: Act)
    requires SystemInv(s) && (act.Other? ==> Fresh(s, act.step))
    ensures SystemInv(AfterAct(s, subject, act)) && Kept(s.gates, AfterAct(s, subject, act).gates)
  {
    KeptRefl(s.gates);
    var step := if act.Other? then act.step
                else if Escalated(act.dir, subject) && !Malformed(act.dir, subject)
                then LockedEnsure(EscalationOf(act.dir.council), InvocationOf(act.dir.council))
                else UnlockedRead(0);
    StepKeepsInv(s, subject, step);
    FreshStepKeeps(s, subject, step);
  }

  /**
   * No gate is lost and no disposition reverts: over every run of locked sections, sweeps and
   * unlocked writes in which each unlocked write replaces the record its thread read, every gate
   * stays, with its key, its events, and its authority once it has one.
   */
  lemma {:induction false} FreshRunsKeep(s: System, subject: string, acts: seq<Act>)
    requires SystemInv(s) && FreshActs(s, subject, acts)
    ensures SystemInv(AfterActs(s, subject, acts)) && Kept(s.gates, AfterActs(s, subject, acts).gates)
    decreases |acts|
  {
    KeptRefl(s.gates);
    if acts != [] {
      var s1 := AfterAct(s, subject, acts[0]);
      ActKeeps(s, subject, acts[0]);
      FreshRunsKeep(s1, subject, acts[1..]);
      KeptTrans(s.gates, s1.gates, AfterActs(s, subject, acts).gates);
    }
  }

  // ---- Which act decides whether a gate is there ------------------------------------------------------

  /** The unlocked write is not refused, and replaces the record by what its thread made of its view. */
  predicate TakesEffect(s: System, subject: string, step: Step) {
    match step
    case LockedEnsure(_, _) => false
    case UnlockedRead(_) => false
    case WriteDisposition(t, disposition, authority) =>
      t in s.views && !disposition.Unresolved? && Disposed(s.views[t], disposition, authority).Some?
    case WriteCreate(t, council, phase, outcome) =>
      t in s.views && Created(s.views[t], subject, council, phase, outcome).Some?
  }

  /** What an act means for the gate under a key, wherever the record stands. */
  datatype Mark = Silent | Puts | Drops

  /** Before it writes, a thread can tell from its view whether it drops the gate. */
  function MarkOf(s: System, subject: string, act: Act, k: Key): Mark {
    match act
    case SweepEntry(d) =>
      if Escalated(d, subject) && !Malformed(d, subject) && GateKey(d, subject) == k then Puts else Silent
    case Other(step) =>
      if step.LockedEnsure? && KeyOf(subject, step.e) == k then Puts
      else if !TakesEffect(s, subject, step) then Silent
      else if Keyed(s.views[step.thread], k) then Puts
      else Drops
  }

  /** The mark of the last act that is not silent about the key. */
  function LastMark(s: System, subject: string, acts: seq<Act>, k: Key): Mark
    decreases |acts|
  {
    if acts == [] then Silent
    else
      var later := LastMark(AfterAct(s, subject, acts[0]), subject, acts[1..], k);
      if later.Silent? then MarkOf(s, subject, acts[0], k) else later
  }

  /** Ensuring a gate leaves the gates under other keys alone. */
  lemma EnsureKeyed(gates: seq<Gate>, subject: string, e: Escalation, invocation: Invocation, k: Key)
    requires Inv(gates)
    ensures Keyed(Ensure(gates, subject, e, invocation), k) <==> Keyed(gates, k) || KeyOf(subject, e) == k
  {
    var after := Ensure(gates, subject, e, invocation);
    EnsureMeaning(gates, subject, e, invocation);
    if Keyed(gates, k) {
      EnsureKeepsKeyed(gates, subject, e, invocation, k);
    }
    if Keyed(after, k) && KeyOf(subject, e) != k {
      var i :| 0 <= i < |after| && after[i].key == Some(k);
      assert i < |gates| && gates[i].key == Some(k);
    }
  }

  /** An unlocked write leaves exactly the gates of its view under their keys. */
  lemma WriteKeyed(s: System, subject: string, step: Step, k: Key)
    requires TakesEffect(s, subject, step)
    ensures Keyed(AfterStep(s, subject, step).gates, k) <==> Keyed(s.views[step.thread], k)
  {
    var view, after := s.views[step.thread], AfterStep(s, subject, step).gates;
    assert |view| <= |after| && forall i :: 0 <= i < |view| ==> after[i].key == view[i].key;
    if Keyed(view, k) {
      var i :| 0 <= i < |view| && view[i].key == Some(k);
      assert after[i].key == Some(k);
    }
    if Keyed(after, k) {
      var i :| 0 <= i < |after| && after[i].key == Some(k);
      assert i < |view|;
    }
  }

  lemma ActKeyed(s: System, subject: string, act: Act, k: Key)
    requires SystemInv(s)
    ensures SystemInv(AfterAct(s, subject, act))
    ensures Keyed(AfterAct(s, subject, act).gates, k)
            <==> MarkOf(s, subject, act, k).Puts? || (MarkOf(s, subject, act, k).Silent? && Keyed(s.gates, k))
  {
    match act
    case SweepEntry(d) =>
      if Escalated(d, subject) && !Malformed(d, subject) {
        EntryStep(s.gates, d, subject);
        EnsureKeyed(s.gates, subject, EscalationOf(d.council), InvocationOf(d.council), k);
      }
    case Other(step) =>
      StepKeepsInv(s, subject, step);
      if step.LockedEnsure? {
        EnsureKeyed(s.gates, subject, step.e, step.invocation, k);
      } else if TakesEffect(s, subject, step) {
        WriteKeyed(s, subject, step, k);
      }
  }

  /**
   * Over every run of every writer, fresh or stale, a gate is there at the end iff the last act that
   * is not silent about its key puts it there, or all are silent and it was there from the start.
   */
  lemma {:induction false} KeyedIff(s: System, subject: string, acts: seq<Act>, k: Key)
    requires SystemInv(s)
    ensures SystemInv(AfterActs(s, subject, acts))
    ensures var mark := LastMark(s, subject, acts, k);
            Keyed(AfterActs(s, subject, acts).gates, k) <==> mark.Puts? || (mark.Silent? && Keyed(s.gates, k))
    decreases |acts|
  {
    if acts != [] {
      ActKeyed(s, subject, acts[0], k);
      KeyedIff(AfterAct(s, subject, acts[0]), subject, acts[1..], k);
    }
  }

  lemma {:induction false} SweptIsMarked(s: System, subject: string, acts: seq<Act>, d: Dir)
    requires SweepEntry(d) in acts && Escalated(d, subject) && !Malformed(d, subject)
    ensures !LastMark(s, subject, acts, GateKey(d, subject)).Silent?
    decreases |acts|
  {
    if acts[0] != SweepEntry(d) {
      SweptIsMarked(AfterAct(s, subject, acts[0]), subject, acts[1..], d);
    }
  }

  // ---- Enforcement among other writers ------------------------------------------------------------------

  /** The gate of an escalated council has been resolved or closed, with a recorded authority. */
  predicate Authorized(gates: seq<Gate>, d: Dir, subject: string)
    requires Escalated(d, subject) && !Malformed(d, subject)
  {
    exists i :: 0 <= i < |gates| && gates[i].key == Some(GateKey(d, subject))
                && !gates[i].disposition.Unresolved? && gates[i].authority.Some?
  }

  /**
   * Exactly when a sweep enforces.  An agent has swept an escalated council, others acted before,
   * between and after, and its final read finds no unresolved gate, so that it goes on.  The gate of
   * the council has then been resolved with a recorded authority iff no unlocked write from a view
   * without this gate is the last to decide about it: after every such write there is a locked section
   * or sweep entry for its key, or a write from a view that has the gate.
   */
  lemma EnforcedIff(s: System, subject: string, acts: seq<Act>, d: Dir)
    requires SystemInv(s) && SweepEntry(d) in acts
    requires Escalated(d, subject) && !Malformed(d, subject)
    requires AllSettled(AfterActs(s, subject, acts).gates)
    ensures Authorized(AfterActs(s, subject, acts).gates, d, subject)
            <==> !LastMark(s, subject, acts, GateKey(d, subject)).Drops?
  {
    var k, gates := GateKey(d, subject), AfterActs(s, subject, acts).gates;
    KeyedIff(s, subject, acts, k);
    SweptIsMarked(s, subject, acts, d);
    if Keyed(gates, k) {
      var i :| 0 <= i < |gates| && gates[i].key == Some(k);
      assert !gates[i].disposition.Unresolved? && gates[i].authority.Some?;
    }
  }

  lemma KeptKeyed(a: seq<Gate>, b: seq<Gate>, k: Key)
    requires Kept(a, b) && Keyed(a, k)
    ensures Keyed(b, k)
  {
    var i :| 0 <= i < |a| && a[i].key == Some(k);
    assert GateKept(a[i], b[i]);
  }

  /** Once an entry of the sweep is done, its gate is there. */
  lemma EntryIsKeyed(s: System, subject: string, d: Dir)
    requires SystemInv(s) && Escalated(d, subject) && !Malformed(d, subject)
    ensures Keyed(AfterAct(s, subject, SweepEntry(d)).gates, GateKey(d, subject))
  {
    EntryStep(s.gates, d, subject);
  }

  lemma {:induction false} SweptStaysKeyed(s: System, subject: string, acts: seq<Act>, d: Dir)
    requires SystemInv(s) && FreshActs(s, subject, acts) && SweepEntry(d) in acts
    requires Escalated(d, subject) && !Malformed(d, subject)
    ensures Keyed(AfterActs(s, subject, acts).gates, GateKey(d, subject))
    decreases |acts|
  {
    var s1 := AfterAct(s, subject, acts[0]);
    ActKeeps(s, subject, acts[0]);
    if acts[0] == SweepEntry(d) {
      EntryIsKeyed(s, subject, d);
      FreshRunsKeep(s1, subject, acts[1..]);
      KeptKeyed(s1.gates, AfterActs(s, subject, acts).gates, GateKey(d, subject));
    } else {
      SweptStaysKeyed(s1, subject, acts[1..], d);
    }
  }

  /**
   * While every unlocked write is fresh none of them drops a gate, so enforcement holds for every
   * council of the sweep, whatever others did between its entries and before the final read.
   */
  lemma EnforcedAmongWriters(s: System, subject: string, acts: seq<Act>, dirs: seq<Dir>)
    requires SystemInv(s) && FreshActs(s, subject, acts)
    requires forall j :: 0 <= j < |dirs| ==> SweepEntry(dirs[j]) in acts && !Malformed(dirs[j], subject)
    requires AllSettled(AfterActs(s, subject, acts).gates)
    ensures forall j {:trigger dirs[j]} :: 0 <= j < |dirs| && Escalated(dirs[j], subject) ==>
              Authorized(AfterActs(s, subject, acts).gates, dirs[j], subject)
  {
    forall j | 0 <= j < |dirs| && Escalated(dirs[j], subject)
      ensures Authorized(AfterActs(s, subject, acts).gates, dirs[j], subject)
    {
      SweptStaysKeyed(s, subject, acts, dirs[j]);
      KeyedIff(s, subject, acts, GateKey(dirs[j], subject));
      EnforcedIff(s, subject, acts, dirs[j]);
    }
  }

  /** Exactly one gate is unresolved. */
  predicate OneOpen(gates: seq<Gate>, at: nat) {
    at < |gates| && forall i :: 0 <= i < |gates| ==> (gates[i].disposition.Unresolved? <==> i == at)
  }

  /** A thread read the record before the sweep and writes its disposition after it. */
  function Race(thread: Thread, d: Dir, authority: Authority): seq<Act> {
    [Other(UnlockedRead(thread)), SweepEntry(d), Other(WriteDisposition(thread, Resolved, authority))]
  }

  lemma RaceRuns(s: System, subject: string, thread: Thread, d: Dir, authority: Authority)
    requires SystemInv(s) && Escalated(d, subject) && !Malformed(d, subject)
    requires !Recognized(s.gates, GateKey(d, subject)) && FirstUnresolved(s.gates, 0).Some?
    ensures AfterActs(s, subject, Race(thread, d, authority)).gates == Disposed(s.gates, Resolved, authority).value
  {
    var acts := Race(thread, d, authority);
    var s1 := AfterAct(s, subject, acts[0]);
    var s2 := AfterAct(s1, subject, acts[1]);
    ActsOfThree(s, subject, acts);
    EntryStep(s.gates, d, subject);
    assert s2.views[thread] == s.gates;
  }

  /**
   * A stale disposition breaks enforcement: it drops the gate that the sweep has just created and
   * settles the one gate that was open, so the final read finds nothing unresolved, and the agent goes
   * on although the escalated council has no gate at all.
   */
  lemma StaleDispositionLetsPass(s: System, subject: string, thread: Thread, d: Dir, authority: Authority, at: nat)
    requires SystemInv(s) && Escalated(d, subject) && !Malformed(d, subject)
    requires !Recognized(s.gates, GateKey(d, subject))
    requires OneOpen(s.gates, at)
    ensures var after := AfterActs(s, subject, Race(thread, d, authority)).gates;
            AllSettled(after) && !Keyed(after, GateKey(d, subject))
                && !FreshActs(s, subject, Race(thread, d, authority))
  {
    var acts := Race(thread, d, authority);
    var after := AfterActs(s, subject, acts).gates;
    var k := GateKey(d, subject);
    assert s.gates[at].disposition.Unresolved?;
    RaceRuns(s, subject, thread, d, authority);
    forall i | 0 <= i < |after| ensures after[i].key != Some(k) {
      assert !RecognizedBy(s.gates[i], k);
    }
    if FreshActs(s, subject, acts) {
      SweptStaysKeyed(s, subject, acts, d);
    }
  }

  /**
   * A stale creation drops the new gate, and a stale disposition, whose thread has seen it, brings it
   * back resolved.
   */
  function Comeback(t1: Thread, t2: Thread, d: Dir, council: string, authority: Authority): seq<Act> {
    [Other(UnlockedRead(t1)), SweepEntry(d), Other(UnlockedRead(t2)),
     Other(WriteCreate(t1, council, "plan", "hard_gate")),
     Other(WriteDisposition(t2, Resolved, authority))]
  }

  /**
   * So a write that drops the gate does not yet break enforcement: here it comes after the sweep, and
   * after every locked section, and still the council ends with its gate resolved.
   */
  lemma DroppedGateComesBack(s: System, subject: string, t1: Thread, t2: Thread, d: Dir, council: string,
                             authority: Authority)
    requires SystemInv(s) && Escalated(d, subject) && !Malformed(d, subject) && t1 != t2
    requires AllSettled(s.gates) && !Recognized(s.gates, GateKey(d, subject))
    ensures var k, acts := GateKey(d, subject), Comeback(t1, t2, d, council, authority);
            var s3 := AfterActs(s, subject, acts[..3]);
            && MarkOf(s3, subject, acts[3], k).Drops?
            && AllSettled(AfterActs(s, subject, acts).gates)
            && Authorized(AfterActs(s, subject, acts).gates, d, subject)
  {
    var k, acts := GateKey(d, subject), Comeback(t1, t2, d, council, authority);
    var s1 := AfterAct(s, subject, acts[0]);
    var s2 := AfterAct(s1, subject, acts[1]);
    var s3 := AfterAct(s2, subject, acts[2]);
    var s4 := AfterAct(s3, subject, acts[3]);
    var s5 := AfterAct(s4, subject, acts[4]);
    assert AfterActs(s, subject, acts[..3]) == s3 by {
      ActsOfThree(s, subject, acts[..3]);
    }
    assert AfterActs(s, subject, acts) == s5 by {
      ActsOfFive(s, subject, acts);
    }
    EntryStep(s.gates, d, subject);
    var added := NewGate(subject, EscalationOf(d.council));
    EnsureMeaning(s.gates, subject, EscalationOf(d.council), InvocationOf(d.council));
    assert s2.gates == s.gates + [added];
    assert s3.views[t1] == s.gates && s3.views[t2] == s2.gates;
    assert FirstUnresolved(s.gates, 0).None?;
    assert !Keyed(s.gates, k) by {
      forall i | 0 <= i < |s.gates| ensures s.gates[i].key != Some(k) {
        assert !RecognizedBy(s.gates[i], k);
      }
    }
    assert FirstUnresolved(s2.gates, 0) == Some(|s.gates|) by {
      assert s2.gates[|s.gates|].disposition.Unresolved?;
    }
    assert s5.gates == s.gates + [added.(disposition := Resolved, authority := Some(authority))];
    assert s5.gates[|s.gates|].key == Some(k);
  }

  lemma ActsOfThree(s: System, subject: string, acts: seq<Act>)
    requires |acts| == 3
    ensures AfterActs(s, subject, acts)
            == AfterAct(AfterAct(AfterAct(s, subject, acts[0]), subject, acts[1]), subject, acts[2])
  {
    var s1 := AfterAct(s, subject, acts[0]);
    var s2 := AfterAct(s1, subject, acts[1]);
    assert AfterActs(s1, subject, acts[1..]) == AfterActs(s2, subject, acts[1..][1..]);
    assert acts[1..][1..] == [acts[2]];
    assert AfterActs(s2, subject, [acts[2]]) == AfterActs(AfterAct(s2, subject, acts[2]), subject, []);
  }

  lemma ActsOfFive(s: System, subject: string, acts: seq<Act>)
    requires |acts| == 5
    ensures AfterActs(s, subject, acts)
            == AfterAct(AfterAct(AfterAct(AfterAct(AfterAct(s, subject, acts[0]), subject, acts[1]), subject, acts[2]),
                                 subject, acts[3]), subject, acts[4])
  {
    var s1 := AfterAct(s, subject, acts[0]);
    var s2 := AfterAct(s1, subject, acts[1]);
    assert AfterActs(s, subject, acts) == AfterActs(s1, subject, acts[1..]);
    assert AfterActs(s1, subject, acts[1..]) == AfterActs(s2, subject, acts[1..][1..]);
    assert acts[1..][1..] == acts[2..];
    ActsOfThree(s2, subject, acts[2..]);
  }

  // ---- Granting and closing: two reads -------------------------------------------------------------------

  /**
   * `grant_proceed` and `close_gate_unresolved`: the operator's message is validated against the gate
   * that the first read finds unresolved, then the record is read again and the disposition computed
   * from that.  `qualifies` tells for each gate, by its place, whether the message names it, came after
   * it and holds an allowed phrase.
   */
  function Grant(first: seq<Gate>, second: seq<Gate>, qualifies: nat -> bool, disposition: Disposition,
                 authority: Authority): Option<seq<Gate>>
    requires !disposition.Unresolved?
  {
    var at := FirstUnresolved(first, 0);
    if at.None? || !qualifies(at.value) then None else Disposed(second, disposition, authority)
  }

  /**
   * Which gate the message settles.  Between the two reads the record may have moved on without a
   * loss.  Exactly one gate changes; it is the validated one iff that one is still unresolved at the
   * second read, and a later gate of the record, for which nothing was validated, otherwise.
   */
  lemma GrantSettlesNamedIff(first: seq<Gate>, second: seq<Gate>, qualifies: nat -> bool, disposition: Disposition,
                             authority: Authority)
    requires Kept(first, second) && !disposition.Unresolved?
    requires Grant(first, second, qualifies, disposition, authority).Some?
    ensures var at := FirstUnresolved(first, 0).value;
            var settled := FirstUnresolved(second, 0).value;
            var after := Grant(first, second, qualifies, disposition, authority).value;
            && qualifies(at) && at <= settled < |second| == |after|
            && (forall i :: 0 <= i < |second| ==> (after[i] != second[i] <==> i == settled))
            && after[settled].authority == Some(authority)
            && (settled == at <==> second[at].disposition.Unresolved?)
  {
    var at := FirstUnresolved(first, 0).value;
    var settled := FirstUnresolved(second, 0).value;
    forall i | 0 <= i < at ensures !second[i].disposition.Unresolved? {
      assert GateKept(first[i], second[i]);
    }
  }

  /** The same over a run: others act while every unlocked write of theirs is fresh. */
  lemma GrantAmongWriters(s: System, subject: string, acts: seq<Act>, qualifies: nat -> bool, disposition: Disposition,
                          authority: Authority)
    requires SystemInv(s) && FreshActs(s, subject, acts) && !disposition.Unresolved?
    requires Grant(s.gates, AfterActs(s, subject, acts).gates, qualifies, disposition, authority).Some?
    ensures var second := AfterActs(s, subject, acts).gates;
            var at, settled := FirstUnresolved(s.gates, 0).value, FirstUnresolved(second, 0).value;
            && at < |second| && settled < |second| && qualifies(at)
            && (settled == at <==> second[at].disposition.Unresolved?)
            && (settled != at ==> second[at].authority.Some? && at < settled)
  {
    FreshRunsKeep(s, subject, acts);
    GrantSettlesNamedIff(s.gates, AfterActs(s, subject, acts).gates, qualifies, disposition, authority);
  }

  /** Between the two reads another thread settles the open gate and a new escalation opens its own. */
  function Overtaken(thread: Thread, theirs: Authority, e: Escalation, invocation: Invocation): seq<Act> {
    [Other(UnlockedRead(thread)), Other(WriteDisposition(thread, Resolved, theirs)), Other(LockedEnsure(e, invocation))]
  }

  lemma OvertakenRuns(s: System, subject: string, at: nat, thread: Thread, theirs: Authority, e: Escalation,
                      invocation: Invocation)
    requires SystemInv(s) && OneOpen(s.gates, at) && !Recognized(s.gates, KeyOf(subject, e))
    ensures var acts := Overtaken(thread, theirs, e, invocation);
            && FreshActs(s, subject, acts)
            && AfterActs(s, subject, acts).gates
               == s.gates[at := s.gates[at].(disposition := Resolved, authority := Some(theirs))]
                   + [NewGate(subject, e)]
  {
    var acts := Overtaken(thread, theirs, e, invocation);
    var s1 := AfterAct(s, subject, acts[0]);
    var s2 := AfterAct(s1, subject, acts[1]);
    ActsOfThree(s, subject, acts);
    FreshOfThree(s, subject, acts);
    assert s.gates[at].disposition.Unresolved?;
    assert FirstUnresolved(s.gates, 0) == Some(at);
    assert s2.gates == s.gates[at := s.gates[at].(disposition := Resolved, authority := Some(theirs))];
    forall i | 0 <= i < |s2.gates| ensures !RecognizedBy(s2.gates[i], KeyOf(subject, e)) {
      assert !RecognizedBy(s.gates[i], KeyOf(subject, e));
    }
    StepKeepsInv(s, subject, acts[0].step);
    StepKeepsInv(s1, subject, acts[1].step);
    EnsureMeaning(s2.gates, subject, e, invocation);
  }

  /**
   * A message that qualifies for one gate only can settle another: the gate of a new escalation ends
   * up resolved, with an authority that nobody validated for it, although every write was fresh.
   */
  lemma MessageSettlesAnotherGate(s: System, subject: string, at: nat, thread: Thread, theirs: Authority, e: Escalation,
                                  invocation: Invocation, mine: Authority)
    requires SystemInv(s) && OneOpen(s.gates, at) && !Recognized(s.gates, KeyOf(subject, e))
    ensures var acts := Overtaken(thread, theirs, e, invocation);
            var granted := Grant(s.gates, AfterActs(s, subject, acts).gates, i => i == at, Resolved, mine);
            && FreshActs(s, subject, acts)
            && granted.Some? && at < |s.gates| < |granted.value|
            && granted.value[|s.gates|] == NewGate(subject, e).(disposition := Resolved, authority := Some(mine))
            && granted.value[at].authority == Some(theirs)
  {
    OvertakenRuns(s, subject, at, thread, theirs, e, invocation);
    var second := AfterActs(s, subject, Overtaken(thread, theirs, e, invocation)).gates;
    assert s.gates[at].disposition.Unresolved?;
    assert FirstUnresolved(s.gates, 0) == Some(at);
    assert second[|s.gates|].disposition.Unresolved?;
    assert FirstUnresolved(second, 0) == Some(|s.gates|);
  }

  lemma FreshOfThree(s: System, subject: string, acts: seq<Act>)
    requires |acts| == 3 && forall i :: 0 <= i < 3 ==> acts[i].Other?
    requires var s1 := AfterAct(s, subject, acts[0]);
             var s2 := AfterAct(s1, subject, acts[1]);
             Fresh(s, acts[0].step) && Fresh(s1, acts[1].step) && Fresh(s2, acts[2].step)
    ensures FreshActs(s, subject, acts)
  {
    var s1 := AfterAct(s, subject, acts[0]);
    var s2 := AfterAct(s1, subject, acts[1]);
    var s3 := AfterAct(s2, subject, acts[2]);
    assert acts[1..][1..] == [acts[2]];
    assert FreshActs(s3, subject, []);
    assert FreshActs(s2, subject, [acts[2]]);
    assert FreshActs(s1, subject, acts[1..]);
  }
}
