/** The clearance tools run one at a time: as mutable state, and as undisturbed runs of the step machine. */
module ClearanceTools {
  import opened Wrappers
  import opened Clearance
  import opened ClearanceLoss

  /** What readers find in the lanes. */
  type Slots = map<Lane, Slot>

  function Look(slots: Slots, lane: Lane): Slot {
    GetOr(slots, lane, Absent)
  }

  function View(q: Queue): Slots {
    map lane | lane in q.paths :: At(q, lane)
  }

  // ---- A tool that is left alone ------------------------------------------------------------------

  function PlanIn(slots: Slots, tool: Tool, actor: string): Option<Plan> {
    PlanOf(tool, actor, Look(slots, ReadsFrom(tool)))
  }

  /** What a tool leaves behind when nothing interferes and nothing fails. */
  function Undisturbed(slots: Slots, tool: Tool, actor: string): Slots {
    var plan := PlanIn(slots, tool, actor);
    if plan.None? then slots
    else if InPlace(tool) then slots[plan.value.dest := Whole(plan.value.result)]
    else if !Look(slots, plan.value.dest).Absent? then slots
    else
      var written := slots[plan.value.dest := Whole(plan.value.result)];
      if plan.value.src.Some? then written[plan.value.src.value := Absent] else written
  }

  function Advances(q: Queue, pid: Pid, n: nat): Queue
    decreases n
  {
    if n == 0 then q else Advances(AfterStep(q, Advance(pid, false)), pid, n - 1)
  }

  lemma {:induction false} AdvancesGone(q: Queue, pid: Pid, n: nat)
    requires pid !in q.procs
    ensures Advances(q, pid, n) == q
  {
    if n > 0 {
      AdvancesGone(q, pid, n - 1);
    }
  }

  lemma FourSteps(q: Queue, pid: Pid, a: Queue, b: Queue, c: Queue, d: Queue)
    requires a == AfterStep(q, Advance(pid, false)) && b == AfterStep(a, Advance(pid, false))
    requires c == AfterStep(b, Advance(pid, false)) && d == AfterStep(c, Advance(pid, false))
    ensures Advances(q, pid, 0) == q && Advances(q, pid, 1) == a && Advances(q, pid, 2) == b
    ensures Advances(q, pid, 3) == c && Advances(q, pid, 4) == d
  {
    var zero, one, two := 0, 1, 2;
    assert Advances(a, pid, zero) == a && Advances(b, pid, zero) == b && Advances(c, pid, zero) == c;
    assert Advances(d, pid, zero) == d && Advances(c, pid, one) == d && Advances(b, pid, one) == c;
    assert Advances(b, pid, two) == d && Advances(a, pid, one) == b && Advances(a, pid, two) == c;
    assert Advances(a, pid, 3) == d;
  }

  /** A process that starts alone and takes n steps. */
  function Alone(q: Queue, pid: Pid, tool: Tool, actor: string, n: nat): Queue {
    Advances(AfterStep(q, Start(pid, tool, actor)), pid, n)
  }

  ghost predicate Shows(q: Queue, slots: Slots) {
    forall lane :: At(q, lane) == Look(slots, lane)
  }

  /** No lane links the inode that an undisturbed decision in place is going to write. */
  lemma PathsAreOld(q: Queue, ino: Ino)
    requires Safe(q) && ino == if q.tmp.Some? then q.tmp.value else q.next
    ensures forall lane :: lane in q.paths ==> q.paths[lane] in q.files && q.paths[lane] != ino
  {
    forall lane ensures lane in q.paths ==> q.paths[lane] in q.files && q.paths[lane] != ino {
      assert PathOk(q, lane);
    }
  }

  /** Open, write and rename, undisturbed. */
  lemma RewriteAlone(q: Queue, pid: Pid, plan: Plan)
    requires Safe(q) && q.procs == map[pid := Process(true, plan, Planned)] && plan.dest == Outbox
    ensures var q' := Advances(q, pid, 4);
            q'.procs == map[] && Shows(q', View(q)[Outbox := Whole(plan.result)])
  {
    var q1 := AfterStep(q, Advance(pid, false));
    var q2 := AfterStep(q1, Advance(pid, false));
    var q3 := AfterStep(q2, Advance(pid, false));
    var ino := if q.tmp.Some? then q.tmp.value else q.next;
    PathsAreOld(q, ino);
    assert q1.tmp == Some(ino) && ino in q1.files && q1.files[ino].text.Empty? && q1.paths == q.paths;
    assert q2.files[ino].text == Text(plan.result) && q2.paths == q.paths && q2.tmp == Some(ino);
    assert q3.procs == map[] && q3.paths == q.paths[Outbox := ino] && q3.files == q2.files;
    FourSteps(q, pid, q1, q2, q3, q3);
  }

  /**
   * A decision in place that fails, when it opens the temporary file, writes it or renames it, removes
   * that file and changes no lane, provided nobody has renamed the file it had opened.
   */
  lemma FailureCleansUp(q: Queue, pid: Pid)
    requires Safe(q) && pid in q.procs && q.procs[pid].inPlace && !q.procs[pid].phase.Cleaning?
    requires q.procs[pid].phase.Opened? ==> q.tmp == InoOf(q.procs[pid])
    ensures var q' := AfterStep(AfterStep(q, WriteError(pid)), Advance(pid, false));
            && pid !in q'.procs && q'.tmp == None
            && forall lane :: At(q', lane) == At(q, lane)
  {
    assert ProcessOk(q, q.procs[pid]);
    forall lane ensures At(AfterStep(AfterStep(q, WriteError(pid)), Advance(pid, false)), lane) == At(q, lane) {
      assert PathOk(q, lane);
    }
  }

  /** The four steps of a mover, undisturbed. */
  lemma MoveSteps(q: Queue, pid: Pid, plan: Plan) returns (a: Queue, b: Queue, c: Queue, d: Queue)
    requires q.procs == map[pid := Process(false, plan, Planned)] && plan.dest !in q.paths
    requires Passes(plan.dest, plan.result)
    ensures Advances(q, pid, 0) == q && Advances(q, pid, 1) == a && Advances(q, pid, 2) == b
    ensures Advances(q, pid, 3) == c && Advances(q, pid, 4) == d
    ensures a.paths == b.paths == c.paths == q.paths[plan.dest := q.next]
    ensures a.files == q.files[q.next := File(plan.dest, Empty)]
    ensures b.files == c.files == d.files == q.files[q.next := File(plan.dest, Text(plan.result))]
    ensures d.paths == if plan.src.Some? then c.paths - {plan.src.value} else c.paths
    ensures a.procs.Keys == b.procs.Keys == c.procs.Keys == {pid} && d.procs == map[]
  {
    a := AfterStep(q, Advance(pid, false));
    b := AfterStep(a, Advance(pid, false));
    c := AfterStep(b, Advance(pid, false));
    d := AfterStep(c, Advance(pid, false));
    FourSteps(q, pid, a, b, c, d);
    assert c.procs == map[pid := Process(false, plan, Verified)];
  }

  /** Create, write, check and remove the source, undisturbed. */
  lemma MoveAlone(q: Queue, pid: Pid, plan: Plan)
    requires Safe(q) && q.procs == map[pid := Process(false, plan, Planned)] && plan.dest !in q.paths
    requires Passes(plan.dest, plan.result)
    ensures var q', written := Advances(q, pid, 4), View(q)[plan.dest := Whole(plan.result)];
            && q'.procs == map[]
            && Shows(q', if plan.src.Some? then written[plan.src.value := Absent] else written)
  {
    var a, b, c, d := MoveSteps(q, pid, plan);
    forall lane ensures lane in q.paths ==> q.paths[lane] in q.files && q.paths[lane] != q.next {
      assert PathOk(q, lane);
    }
  }

  lemma StartsAlone(q: Queue, pid: Pid, tool: Tool, actor: string, plan: Plan)
    requires Safe(q) && q.procs == map[] && PlanIn(View(q), tool, actor) == Some(plan)
    ensures var q1 := AfterStep(q, Start(pid, tool, actor));
            && Safe(q1) && q1 == q.(procs := map[pid := Process(InPlace(tool), plan, Planned)]) && View(q1) == View(q)
            && Passes(plan.dest, plan.result) && (InPlace(tool) ==> plan.dest == Outbox)
  {
    StartKeepsSafe(q, Start(pid, tool, actor));
    PlannedIsOk(q, tool, actor);
  }

  /** The step machine, run by one process without a crash, does what the undisturbed tool does. */
  lemma AloneIsUndisturbed(q: Queue, pid: Pid, tool: Tool, actor: string)
    requires Safe(q) && q.procs == map[]
    ensures var q' := Alone(q, pid, tool, actor, 4);
            q'.procs == map[] && Shows(q', Undisturbed(View(q), tool, actor))
  {
    var q1 := AfterStep(q, Start(pid, tool, actor));
    var plan := PlanIn(View(q), tool, actor);
    if plan.None? {
      AdvancesGone(q1, pid, 4);
    } else {
      StartsAlone(q, pid, tool, actor, plan.value);
      assert PathOk(q, plan.value.dest);
      if InPlace(tool) {
        RewriteAlone(q1, pid, plan.value);
      } else if plan.value.dest !in q.paths {
        MoveAlone(q1, pid, plan.value);
      } else {
        RefusedAlone(q, q1, pid);
      }
    }
  }

  lemma RefusedAlone(q: Queue, q1: Queue, pid: Pid)
    requires q.procs == map[] && pid in q1.procs && q1 == q.(procs := map[pid := q1.procs[pid]])
    requires !q1.procs[pid].inPlace && q1.procs[pid].phase.Planned? && q1.procs[pid].plan.dest in q.paths
    ensures Advances(q1, pid, 4) == q && Shows(q, View(q))
  {
    var q2 := AfterStep(q1, Advance(pid, false));
    assert q2.procs == map[] && q2 == q;
    AdvancesGone(q2, pid, 3);
  }

  // ---- One lane ----------------------------------------------------------------------------------

  /** The packet is readable in exactly one lane, and the other lanes are free. */
  ghost predicate OneLane(slots: Slots) {
    exists lane :: Look(slots, lane).Whole? && forall other :: other != lane ==> Look(slots, other).Absent?
  }

  function Tools(slots: Slots, runs: seq<(Tool, string)>): Slots
    decreases |runs|
  {
    if runs == [] then slots else Tools(Undisturbed(slots, runs[0].0, runs[0].1), runs[1..])
  }

  lemma UndisturbedKeepsOneLane(slots: Slots, tool: Tool, actor: string)
    requires OneLane(slots) && !tool.Request?
    ensures OneLane(Undisturbed(slots, tool, actor))
  {
    var lane :| Look(slots, lane).Whole? && forall other :: other != lane ==> Look(slots, other).Absent?;
    var plan := PlanIn(slots, tool, actor);
    var after := Undisturbed(slots, tool, actor);
    assert plan.Some? ==> lane == if tool.Finish? then Working else Outbox;
    assert plan.Some? && InPlace(tool) ==> plan.value.dest == lane;
    assert plan.Some? && !InPlace(tool) ==> plan.value.src == Some(lane) && plan.value.dest != lane;
    var now := if plan.None? then lane else plan.value.dest;
    forall other | other != now ensures Look(after, other).Absent? {
      assert other != lane ==> Look(slots, other).Absent?;
    }
    assert Look(after, now).Whole?;
  }

  /** Without crashes and without concurrency a requested packet is always in exactly one lane. */
  lemma {:induction false} ExactlyOneLane(slots: Slots, runs: seq<(Tool, string)>)
    requires OneLane(slots) && forall i :: 0 <= i < |runs| ==> !runs[i].0.Request?
    ensures OneLane(Tools(slots, runs))
    decreases |runs|
  {
    if runs != [] {
      UndisturbedKeepsOneLane(slots, runs[0].0, runs[0].1);
      ExactlyOneLane(Undisturbed(slots, runs[0].0, runs[0].1), runs[1..]);
    }
  }

  // ---- A crash inside a denial ---------------------------------------------------------------------

  /**
   * A denial that crashes after n of its four steps leaves the request decidable exactly when the
   * source is not yet removed, and has recorded the denial exactly when the destination is complete:
   * in between the packet is both denied and decidable.
   */
  lemma DenialCrash(p: Packet, pid: Pid, actor: string, n: nat)
    requires Passes(Outbox, p) && Decidable(p.status) && n <= 4
    ensures var after := AfterStep(Alone(Resting(p), pid, Decide(DTA), actor, n), Crash(pid));
            && after.procs == map[]
            && (At(after, Outbox) == Whole(p) <==> n < 4)
            && (At(after, DoneLane) == Whole(BuildDecision(p, DTA, actor)) <==> n >= 2)
  {
    var plan := Plan(Some(Outbox), DoneLane, BuildDecision(p, DTA, actor));
    var q := Resting(p).(procs := map[pid := Process(false, plan, Planned)]);
    assert AfterStep(Resting(p), Start(pid, Decide(DTA), actor)) == q;
    DenialSteps(p, plan, pid, n);
  }

  lemma DenialSteps(p: Packet, plan: Plan, pid: Pid, n: nat)
    requires n <= 4 && plan.src == Some(Outbox) && plan.dest == DoneLane && Passes(DoneLane, plan.result)
    ensures var q := Resting(p).(procs := map[pid := Process(false, plan, Planned)]);
            var after := Advances(q, pid, n);
            && after.procs - {pid} == map[]
            && At(after, Outbox) == (if n < 4 then Whole(p) else Absent)
            && At(after, DoneLane) == (if n == 0 then Absent else if n == 1 then Partial(1) else Whole(plan.result))
  {
    var q := Resting(p).(procs := map[pid := Process(false, plan, Planned)]);
    var q1, q2, q3, q4 := MoveSteps(q, pid, plan);
    var after := Advances(q, pid, n);
    assert after.procs - {pid} == map[];
    assert n < 4 ==> Outbox in after.paths && after.paths[Outbox] == 0 && after.files[0] == q.files[0];
  }

  /** The denied request is then cleared and claimed: one packet, denied in one lane and worked on in another. */
  lemma DeniedThenClaimed(actor: string)
    ensures var p := BuildRequest(actor, true);
            var crashed := map[Outbox := Whole(p), DoneLane := Whole(BuildDecision(p, DTA, actor))];
            var after := Undisturbed(Undisturbed(crashed, Decide(CTA), actor), Claim, actor);
            Look(after, DoneLane).Whole? && Look(after, DoneLane).packet.status == DTA
            && Look(after, Working).Whole? && Look(after, Working).packet.status == InProgress
  {
  }

  // ---- The tools as methods ---------------------------------------------------------------------------

  class Lanes {
    var slots: Slots

    constructor ()
      ensures slots == map[]
    {
      slots := map[];
    }

    /** `write_exclusive`: refused if the destination exists. */
    method WriteExclusive(dest: Lane, packet: Packet) returns (ok: bool)
      modifies this
      ensures ok <==> Look(old(slots), dest).Absent?
      ensures slots == if ok then old(slots)[dest := Whole(packet)] else old(slots)
    {
      if !Look(slots, dest).Absent? {
        return false;
      }
      slots := slots[dest := Whole(packet)];
      return true;
    }

    /** The tail that DTA, claim, complete and fail share: write, read back, remove the source last. */
    method Move(plan: Plan) returns (ok: bool)
      requires Passes(plan.dest, plan.result)
      modifies this
      ensures ok <==> Look(old(slots), plan.dest).Absent?
      ensures var written := old(slots)[plan.dest := Whole(plan.result)];
              slots == if !ok then old(slots)
                       else if plan.src.Some? then written[plan.src.value := Absent] else written
    {
      ok := WriteExclusive(plan.dest, plan.result);
      if !ok {
        return;
      }
      assert Look(slots, plan.dest).Whole? && Passes(plan.dest, Look(slots, plan.dest).packet);
      if plan.src.Some? {
        slots := slots[plan.src.value := Absent];
      }
    }

    method Run(tool: Tool, actor: string) returns (ok: bool)
      modifies this
      ensures slots == Undisturbed(old(slots), tool, actor)
      ensures ok ==> PlanIn(old(slots), tool, actor).Some?
      ensures !ok ==> slots == old(slots)
    {
      var plan := PlanIn(slots, tool, actor);
      if plan.None? {
        return false;
      }
      if InPlace(tool) {
        slots := slots[plan.value.dest := Whole(plan.value.result)];
        return true;
      }
      ok := Move(plan.value);
    }
  }
}
