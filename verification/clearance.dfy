/**
 * The clearance queue (tools/clearwright_request.py, _decide.py, _claim.py, _lifecycle.py,
 * _validate.py): the four lanes of one packet file, worked on by any number of tool processes at
 * once, each of which may stop at any step.
 */
module Clearance {
  import opened Wrappers

  // ---- Packets and their validation -----------------------------------------------------------

  datatype Status = RTA | InReview | RfiPending | CTA | InProgress | DTA | Done | Failed | Superseded

  datatype Lane = Outbox | Working | DoneLane | FailedLane

  datatype Event = Event(name: Status, actor: string)

  /**
   * `lease` says that clearance_expires_at is set, `wellFormed` that the fields the tools do not
   * touch pass `validate`; `events` is None without a usable audit_json.
   */
  datatype Packet = Packet(status: Status, lease: bool, wellFormed: bool, events: Option<seq<Event>>)

  predicate Validate(p: Packet) {
    p.wellFormed && (p.status.CTA? || p.status.InProgress? ==> p.lease)
  }

  /** QUEUE_STATUS. */
  predicate Fits(lane: Lane, status: Status) {
    match lane
    case Outbox => status.RTA? || status.InReview? || status.RfiPending? || status.CTA?
    case Working => status.InProgress?
    case DoneLane => status.Done? || status.DTA? || status.Superseded?
    case FailedLane => status.Failed?
  }

  predicate Passes(lane: Lane, p: Packet) {
    Validate(p) && Fits(lane, p.status)
  }

  // ---- The results the tools build ----------------------------------------------------------------

  function History(p: Packet): seq<Event> {
    GetEvents(p.events)
  }

  function GetEvents(events: Option<seq<Event>>): seq<Event> {
    match events case None => [] case Some(es) => es
  }

  function BuildRequest(actor: string, wellFormed: bool): Packet {
    Packet(RTA, false, wellFormed, Some([Event(RTA, actor)]))
  }

  /** Clearing sets a lease; denying and asking back leave the field alone. */
  function BuildDecision(p: Packet, decision: Status, actor: string): Packet {
    Packet(decision, p.lease || decision.CTA?, p.wellFormed, Some(History(p) + [Event(decision, actor)]))
  }

  /** Claiming extends an audit trail only if there is one. */
  function BuildClaimed(p: Packet, actor: string): Packet {
    p.(status := InProgress,
       events := if p.events.Some? then Some(p.events.value + [Event(InProgress, actor)]) else None)
  }

  function BuildTransition(p: Packet, status: Status, actor: string): Packet {
    p.(status := status, events := Some(History(p) + [Event(status, actor)]))
  }

  // ---- Processes ------------------------------------------------------------------------------------

  datatype Tool =
    | Request(wellFormed: bool)
    | Decide(decision: Status)
    | Claim
    | Finish(status: Status)

  /** What a tool that read `p` is going to write, and where; None if it refuses. */
  datatype Plan = Plan(src: Option<Lane>, dest: Lane, result: Packet)

  predicate Decidable(status: Status) {
    status.RTA? || status.InReview?
  }

  function Checked(plan: Plan): Option<Plan> {
    if Passes(plan.dest, plan.result) then Some(plan) else None
  }

  /** The lane whose file a tool reads. */
  function ReadsFrom(tool: Tool): Lane {
    if tool.Finish? then Working else Outbox
  }

  function PlanOf(tool: Tool, actor: string, read: Slot): Option<Plan> {
    match tool
    case Request(wellFormed) => Checked(Plan(None, Outbox, BuildRequest(actor, wellFormed)))
    case Decide(decision) =>
      if !(decision.CTA? || decision.DTA? || decision.RfiPending?) then None
      else if !read.Whole? || !Passes(Outbox, read.packet) || !Decidable(read.packet.status) then None
      else Checked(Plan(if decision.DTA? then Some(Outbox) else None,
                        if decision.DTA? then DoneLane else Outbox, BuildDecision(read.packet, decision, actor)))
    case Claim =>
      if !read.Whole? || !Passes(Outbox, read.packet) then None
      else Checked(Plan(Some(Outbox), Working, BuildClaimed(read.packet, actor)))
    case Finish(status) =>
      if !(status.Done? || status.Failed?) then None
      else if !read.Whole? || !Passes(Working, read.packet) then None
      else Checked(Plan(Some(Working), if status.Done? then DoneLane else FailedLane,
                        BuildTransition(read.packet, status, actor)))
  }

  // ---- Files and processes ----------------------------------------------------------------------------

  type Pid = nat
  type Ino = nat

  /** What a file holds: nothing, bytes that do not parse, or one packet. */
  datatype Text = Empty | Garbled | Text(packet: Packet)

  /** A file, and the lane in whose directory it was created. */
  datatype File = File(lane: Lane, text: Text)

  /** What a reader finds at the path of a lane. */
  datatype Slot = Absent | Partial(ino: Ino) | Whole(packet: Packet)

  /** Where a process is: in write_exclusive and the move around it, or in write_inplace. */
  datatype Phase =
    | Planned
    | Creating(ino: Ino) | Failing(ino: Ino) | Written | RollingBack | Verified
    | Opened(ino: Ino) | Renaming | Cleaning

  datatype Process = Process(inPlace: bool, plan: Plan, phase: Phase)

  /** The files, the path of the packet in each lane, and the path ".tmp" beside it in the outbox. */
  datatype Queue = Queue(paths: map<Lane, Ino>, tmp: Option<Ino>, files: map<Ino, File>, next: Ino,
                         procs: map<Pid, Process>)

  function SlotOf(ino: Ino, text: Text): Slot {
    if text.Text? then Whole(text.packet) else Partial(ino)
  }

  function At(q: Queue, lane: Lane): Slot {
    if lane !in q.paths || q.paths[lane] !in q.files then Absent
    else SlotOf(q.paths[lane], q.files[q.paths[lane]].text)
  }

  predicate InPlace(tool: Tool) {
    tool.Decide? && !tool.decision.DTA?
  }

  /**
   * One step of one process.  Starting reads and checks; a crash ends a process where it is.  A text
   * written over another one replaces it only if it covers it.
   */
  datatype Step =
    | Start(pid: Pid, tool: Tool, actor: string)
    | Advance(pid: Pid, covers: bool)
    | WriteError(pid: Pid)
    | Crash(pid: Pid)

  function Gone(q: Queue, pid: Pid): Queue {
    q.(procs := q.procs - {pid})
  }

  function InPhase(q: Queue, pid: Pid, phase: Phase): Queue
    requires pid in q.procs
  {
    q.(procs := q.procs[pid := q.procs[pid].(phase := phase)])
  }

  function Unlink(q: Queue, lane: Lane): Queue {
    q.(paths := q.paths - {lane})
  }

  function NewFile(q: Queue, lane: Lane): Queue {
    q.(files := q.files[q.next := File(lane, Empty)], next := q.next + 1)
  }

  function SetText(q: Queue, ino: Ino, text: Text): Queue {
    if ino in q.files then q.(files := q.files[ino := q.files[ino].(text := text)]) else q
  }

  function Overwrite(q: Queue, ino: Ino, packet: Packet, covers: bool): Queue {
    var clean := ino in q.files && q.files[ino].text.Empty?;
    SetText(q, ino, if clean || covers then Text(packet) else Garbled)
  }

  /** write_exclusive, the check of what is on disk, and the removal of the source. */
  function MoveOn(q: Queue, pid: Pid): Queue
    requires pid in q.procs
  {
    var p := q.procs[pid];
    match p.phase
    case Planned =>
      if p.plan.dest in q.paths then Gone(q, pid)                                                   // O_EXCL
      else InPhase(NewFile(q, p.plan.dest).(paths := q.paths[p.plan.dest := q.next]), pid, Creating(q.next))
    case Creating(ino) => InPhase(SetText(q, ino, Text(p.plan.result)), pid, Written)
    case Written =>
      var found := At(q, p.plan.dest);
      InPhase(q, pid, if found.Whole? && Passes(p.plan.dest, found.packet) then Verified else RollingBack)
    case Failing(_) => Gone(Unlink(q, p.plan.dest), pid)
    case RollingBack => Gone(Unlink(q, p.plan.dest), pid)
    case Verified => Gone(if p.plan.src.Some? then Unlink(q, p.plan.src.value) else q, pid)
    case _ => q
  }

  /** write_inplace: open and truncate the temporary file, write it, rename it; without any lock. */
  function RewriteOn(q: Queue, pid: Pid, covers: bool): Queue
    requires pid in q.procs
  {
    var p := q.procs[pid];
    match p.phase
    case Planned =>
      if q.tmp.Some? then InPhase(SetText(q, q.tmp.value, Empty), pid, Opened(q.tmp.value))
      else InPhase(NewFile(q, Outbox).(tmp := Some(q.next)), pid, Opened(q.next))
    case Opened(ino) => InPhase(Overwrite(q, ino, p.plan.result, covers), pid, Renaming)
    case Renaming =>
      if q.tmp.Some? then Gone(q.(paths := q.paths[Outbox := q.tmp.value], tmp := None), pid)
      else InPhase(q, pid, Cleaning)
    case Cleaning => Gone(q.(tmp := None), pid)
    case _ => q
  }

  function ErrorOf(q: Queue, pid: Pid): Queue
    requires pid in q.procs
  {
    var p := q.procs[pid];
    match p.phase
    case Planned => if p.inPlace then InPhase(q, pid, Cleaning) else Gone(q, pid)
    case Creating(ino) => InPhase(SetText(q, ino, Garbled), pid, Failing(ino))
    case Opened(ino) => InPhase(SetText(q, ino, Garbled), pid, Cleaning)
    case Renaming => InPhase(q, pid, Cleaning)
    case _ => q
  }

  function AfterStep(q: Queue, step: Step): Queue {
    match step
    case Start(pid, tool, actor) =>
      var plan := PlanOf(tool, actor, At(q, ReadsFrom(tool)));
      if pid in q.procs || plan.None? then q
      else q.(procs := q.procs[pid := Process(InPlace(tool), plan.value, Planned)])
    case Advance(pid, covers) =>
      if pid !in q.procs then q
      else if q.procs[pid].inPlace then RewriteOn(q, pid, covers)
      else MoveOn(q, pid)
    case WriteError(pid) => if pid in q.procs then ErrorOf(q, pid) else q
    case Crash(pid) => Gone(q, pid)
  }

  function AfterSteps(q: Queue, steps: seq<Step>): Queue
    decreases |steps|
  {
    if steps == [] then q else AfterSteps(AfterStep(q, steps[0]), steps[1..])
  }

  /** The first steps of a sequence, and the rest. */
  lemma {:induction false} StepsConcat(q: Queue, a: seq<Step>, b: seq<Step>)
    ensures AfterSteps(q, a + b) == AfterSteps(AfterSteps(q, a), b)
    decreases |a|
  {
    if a == [] {
      assert a + b == b;
    } else {
      assert (a + b)[1..] == a[1..] + b;
      StepsConcat(AfterStep(q, a[0]), a[1..], b);
    }
  }

  const EMPTY := Queue(map[], None, map[], 0, map[])

  // ---- Every packet has earned its place --------------------------------------------------------------

  /** The ways a packet can go: nothing is worked on, done or failed that was not cleared before. */
  predicate LegalTrail(es: seq<Event>) {
    && 1 <= |es| <= 4 && es[0].name == RTA
    && (|es| > 1 ==> es[1].name.CTA? || es[1].name.DTA? || es[1].name.RfiPending?)
    && (|es| > 2 ==> es[1].name.CTA? && es[2].name.InProgress?)
    && (|es| > 3 ==> es[3].name.Done? || es[3].name.Failed?)
  }

  /** The audit trail is a legal one that ends in the packet's status; a lease comes only from CTA. */
  predicate Earned(p: Packet) {
    && p.events.Some?
    && LegalTrail(p.events.value)
    && p.status == p.events.value[|p.events.value| - 1].name
    && (p.lease <==> |p.events.value| > 1 && p.events.value[1].name == CTA)
  }

  predicate Lawful(lane: Lane, p: Packet) {
    Passes(lane, p) && Earned(p)
  }

  /** A file holds nothing or something lawful in its lane. */
  predicate LawfulFile(f: File) {
    f.text.Text? ==> Lawful(f.lane, f.text.packet)
  }

  /** The source a mover removes. */
  predicate RightSource(plan: Plan) {
    plan.src == match plan.dest
                case Outbox => None
                case Working => Some(Outbox)
                case DoneLane => if plan.result.status.DTA? then Some(Outbox) else Some(Working)
                case FailedLane => Some(Working)
  }

  function InoOf(p: Process): Option<Ino> {
    match p.phase
    case Creating(ino) => Some(ino)
    case Failing(ino) => Some(ino)
    case Opened(ino) => Some(ino)
    case _ => None
  }

  predicate ProcessOk(q: Queue, p: Process) {
    && Lawful(p.plan.dest, p.plan.result)
    && (if p.inPlace then p.plan.dest == Outbox else RightSource(p.plan))
    && (p.phase.Planned? || (p.inPlace <==> p.phase.Opened? || p.phase.Renaming? || p.phase.Cleaning?))
    && (InoOf(p).Some? ==> InoOf(p).value in q.files && q.files[InoOf(p).value].lane == p.plan.dest)
    && (p.phase.Creating? || p.phase.Failing? ==> q.tmp != InoOf(p))
  }

  /** A file that is being created exclusively is nobody else's. */
  predicate Apart(a: Process, b: Process) {
    a.phase.Creating? || a.phase.Failing? ==> InoOf(a) != InoOf(b)
  }

  predicate PathOk(q: Queue, lane: Lane) {
    lane in q.paths ==>
      q.paths[lane] in q.files && q.files[q.paths[lane]].lane == lane && q.tmp != Some(q.paths[lane])
  }

  ghost predicate Safe(q: Queue) {
    && (forall i :: i in q.files ==> i < q.next && LawfulFile(q.files[i]))
    && (forall lane :: PathOk(q, lane))
    && (q.tmp.Some? ==> q.tmp.value in q.files && q.files[q.tmp.value].lane == Outbox)
    && (forall pid :: pid in q.procs ==> ProcessOk(q, q.procs[pid]))
    && (forall a, b :: a in q.procs && b in q.procs && a != b ==> Apart(q.procs[a], q.procs[b]))
  }

  lemma SafeLanes(q: Queue, lane: Lane)
    requires Safe(q) && At(q, lane).Whole?
    ensures Lawful(lane, At(q, lane).packet)
  {
    assert PathOk(q, lane) && LawfulFile(q.files[q.paths[lane]]);
  }

  /**
   * Whatever a tool is ready to write has a legal trail, one event longer than what it read.  A claim
   * may start from any outbox status; what makes it safe is that the result needs a lease.
   */
  lemma PlansAreEarned(tool: Tool, actor: string, read: Slot)
    requires read.Whole? ==> Lawful(ReadsFrom(tool), read.packet)
    requires PlanOf(tool, actor, read).Some?
    ensures var plan := PlanOf(tool, actor, read).value;
            && Lawful(plan.dest, plan.result)
            && (!tool.Request? ==> read.Whole? && History(read.packet) < History(plan.result))
            && (if InPlace(tool) then plan.dest == Outbox else RightSource(plan))
  {
  }

  /** What a tool is ready to do suits its process. */
  lemma PlannedIsOk(q: Queue, tool: Tool, actor: string)
    requires Safe(q) && PlanOf(tool, actor, At(q, ReadsFrom(tool))).Some?
    ensures ProcessOk(q, Process(InPlace(tool), PlanOf(tool, actor, At(q, ReadsFrom(tool))).value, Planned))
  {
    if At(q, ReadsFrom(tool)).Whole? {
      SafeLanes(q, ReadsFrom(tool));
    }
    PlansAreEarned(tool, actor, At(q, ReadsFrom(tool)));
  }

  lemma AddKeepsSafe(q: Queue, pid: Pid, p: Process)
    requires Safe(q) && pid !in q.procs && ProcessOk(q, p) && InoOf(p) == None
    ensures Safe(q.(procs := q.procs[pid := p]))
  {
    var q' := q.(procs := q.procs[pid := p]);
    forall lane ensures PathOk(q', lane) {
      assert PathOk(q, lane);
    }
    forall other | other in q.procs ensures ProcessOk(q', q.procs[other]) {
      assert ProcessOk(q, q.procs[other]);
    }
    forall a, b | a in q'.procs && b in q'.procs && a != b ensures Apart(q'.procs[a], q'.procs[b]) {
      if a != pid && b != pid {
        assert Apart(q.procs[a], q.procs[b]);
      }
    }
  }

  lemma StartKeepsSafe(q: Queue, step: Step)
    requires Safe(q) && step.Start?
    ensures Safe(AfterStep(q, step))
  {
    var plan := PlanOf(step.tool, step.actor, At(q, ReadsFrom(step.tool)));
    if step.pid !in q.procs && plan.Some? {
      PlannedIsOk(q, step.tool, step.actor);
      AddKeepsSafe(q, step.pid, Process(InPlace(step.tool), plan.value, Planned));
    }
  }

  lemma EndKeepsSafe(q: Queue, q': Queue, pid: Pid)
    requires Safe(q) && q'.procs == q.procs - {pid} && q'.files == q.files && q'.next == q.next
    requires q'.tmp == q.tmp || q'.tmp == None
    requires forall lane :: lane in q'.paths ==> (lane in q.paths && q'.paths[lane] == q.paths[lane])
                                                 || (lane == Outbox && q.tmp == Some(q'.paths[lane]) && q'.tmp == None)
    ensures Safe(q')
  {
    forall lane ensures PathOk(q', lane) {
      assert PathOk(q, lane);
    }
  }

  /** A step that changes texts and the phase of its own process only. */
  lemma WriteKeepsSafe(q: Queue, q': Queue, pid: Pid, phase: Phase)
    requires Safe(q) && pid in q.procs && q' == InPhase(q.(files := q'.files), pid, phase)
    requires q'.files.Keys == q.files.Keys
    requires forall i :: i in q.files ==> q'.files[i].lane == q.files[i].lane && LawfulFile(q'.files[i])
    requires ProcessOk(q', q.procs[pid].(phase := phase))
    requires var ino := InoOf(q.procs[pid].(phase := phase));
             ino == None || ino == q.tmp || (phase.Failing? && q.procs[pid].phase == Creating(phase.ino))
    ensures Safe(q')
  {
    forall lane ensures PathOk(q', lane) {
      assert PathOk(q, lane);
    }
    forall other | other in q'.procs ensures ProcessOk(q', q'.procs[other]) {
      assert ProcessOk(q, q.procs[other]);
    }
    forall a, b | a in q'.procs && b in q'.procs && a != b ensures Apart(q'.procs[a], q'.procs[b]) {
      assert Apart(q.procs[a], q.procs[b]) && Apart(q.procs[b], q.procs[a]) && ProcessOk(q, q.procs[a]);
    }
  }

  /** A step that creates a file for its own process. */
  lemma CreateKeepsSafe(q: Queue, q': Queue, pid: Pid, lane: Lane, phase: Phase)
    requires Safe(q) && pid in q.procs && q'.procs == q.procs[pid := q.procs[pid].(phase := phase)]
    requires q'.files == q.files[q.next := File(lane, Empty)] && q'.next == q.next + 1
    requires InoOf(q.procs[pid].(phase := phase)) == Some(q.next) && ProcessOk(q', q'.procs[pid])
    requires if lane == Outbox && q.procs[pid].inPlace then q'.paths == q.paths && q'.tmp == Some(q.next)
             else q'.paths == q.paths[lane := q.next] && q'.tmp == q.tmp
    ensures Safe(q')
  {
    forall other ensures PathOk(q', other) {
      assert PathOk(q, other);
    }
    forall other | other in q'.procs ensures ProcessOk(q', q'.procs[other]) {
      assert ProcessOk(q, q.procs[other]);
    }
    NewInoIsApart(q, q', pid, phase);
  }

  lemma NewInoIsApart(q: Queue, q': Queue, pid: Pid, phase: Phase)
    requires Safe(q) && pid in q.procs && q'.procs == q.procs[pid := q.procs[pid].(phase := phase)]
    requires InoOf(q.procs[pid].(phase := phase)) == Some(q.next)
    ensures forall a, b :: a in q'.procs && b in q'.procs && a != b ==> Apart(q'.procs[a], q'.procs[b])
  {
    forall a, b | a in q'.procs && b in q'.procs && a != b ensures Apart(q'.procs[a], q'.procs[b]) {
      assert Apart(q.procs[a], q.procs[b]) && ProcessOk(q, q.procs[a]) && ProcessOk(q, q.procs[b]);
    }
  }

  lemma MoveKeepsSafe(q: Queue, pid: Pid)
    requires Safe(q) && pid in q.procs && !q.procs[pid].inPlace
    ensures Safe(MoveOn(q, pid))
  {
    var p, q' := q.procs[pid], MoveOn(q, pid);
    assert ProcessOk(q, p);
    match p.phase
    case Planned =>
      if p.plan.dest in q.paths {
        EndKeepsSafe(q, q', pid);
      } else {
        CreateKeepsSafe(q, q', pid, p.plan.dest, Creating(q.next));
      }
    case Creating(ino) => WriteKeepsSafe(q, q', pid, Written);
    case Written => WriteKeepsSafe(q, q', pid, q'.procs[pid].phase);
    case Failing(_) => EndKeepsSafe(q, q', pid);
    case RollingBack => EndKeepsSafe(q, q', pid);
    case Verified => EndKeepsSafe(q, q', pid);
    case _ =>
  }

  lemma OpenKeepsSafe(q: Queue, pid: Pid, covers: bool)
    requires Safe(q) && pid in q.procs && q.procs[pid].inPlace && q.procs[pid].phase.Planned?
    ensures Safe(RewriteOn(q, pid, covers))
  {
    assert ProcessOk(q, q.procs[pid]);
    if q.tmp.Some? {
      WriteKeepsSafe(q, RewriteOn(q, pid, covers), pid, Opened(q.tmp.value));
    } else {
      CreateKeepsSafe(q, RewriteOn(q, pid, covers), pid, Outbox, Opened(q.next));
    }
  }

  lemma RewriteKeepsSafe(q: Queue, pid: Pid, covers: bool)
    requires Safe(q) && pid in q.procs && q.procs[pid].inPlace
    ensures Safe(RewriteOn(q, pid, covers))
  {
    var p, q' := q.procs[pid], RewriteOn(q, pid, covers);
    assert ProcessOk(q, p);
    match p.phase
    case Planned => OpenKeepsSafe(q, pid, covers);
    case Opened(ino) => WriteKeepsSafe(q, q', pid, Renaming);
    case Renaming =>
      if q.tmp.Some? {
        EndKeepsSafe(q, q', pid);
      } else {
        WriteKeepsSafe(q, q', pid, Cleaning);
      }
    case Cleaning => EndKeepsSafe(q, q', pid);
    case _ =>
  }

  lemma ErrorKeepsSafe(q: Queue, pid: Pid)
    requires Safe(q) && pid in q.procs
    ensures Safe(ErrorOf(q, pid))
  {
    var p, q' := q.procs[pid], ErrorOf(q, pid);
    assert ProcessOk(q, p);
    match p.phase
    case Planned =>
      if p.inPlace {
        WriteKeepsSafe(q, q', pid, Cleaning);
      } else {
        EndKeepsSafe(q, q', pid);
      }
    case Creating(ino) => WriteKeepsSafe(q, q', pid, Failing(ino));
    case Opened(ino) => WriteKeepsSafe(q, q', pid, Cleaning);
    case Renaming => WriteKeepsSafe(q, q', pid, Cleaning);
    case _ =>
  }

  lemma StepKeepsSafe(q: Queue, step: Step)
    requires Safe(q)
    ensures Safe(AfterStep(q, step))
  {
    match step
    case Start(_, _, _) => StartKeepsSafe(q, step);
    case Advance(pid, covers) =>
      if pid in q.procs {
        if q.procs[pid].inPlace {
          RewriteKeepsSafe(q, pid, covers);
        } else {
          MoveKeepsSafe(q, pid);
        }
      }
    case WriteError(pid) =>
      if pid in q.procs {
        ErrorKeepsSafe(q, pid);
      }
    case Crash(pid) => EndKeepsSafe(q, AfterStep(q, step), pid);
  }

  lemma {:induction false} StaysSafe(q: Queue, steps: seq<Step>)
    requires Safe(q)
    ensures Safe(AfterSteps(q, steps))
    decreases |steps|
  {
    if steps != [] {
      StepKeepsSafe(q, steps[0]);
      StaysSafe(AfterStep(q, steps[0]), steps[1..]);
    }
  }

  /**
   * Clearance safety.  Whatever processes do, in any interleaving and with any crashes and write
   * errors: every readable packet is valid, its status fits its lane, and a packet in progress, done
   * or failed has a CTA event before its IN_PROGRESS event in its own audit trail.
   */
  lemma NothingRunsUncleared(steps: seq<Step>, lane: Lane)
    requires At(AfterSteps(EMPTY, steps), lane).Whole?
    ensures var p := At(AfterSteps(EMPTY, steps), lane).packet;
            && Passes(lane, p) && Earned(p)
            && (p.status.InProgress? || p.status.Done? || p.status.Failed? ==>
                  |p.events.value| >= 3 && p.events.value[1].name == CTA && p.events.value[2].name == InProgress)
  {
    StaysSafe(EMPTY, steps);
    SafeLanes(AfterSteps(EMPTY, steps), lane);
  }
}
