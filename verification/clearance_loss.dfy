/** When a packet of the clearance queue can be lost, and when it cannot. */
module ClearanceLoss {
  import opened Wrappers
  import opened Clearance

  predicate Ended(q: Queue) {
    At(q, DoneLane).Whole? || At(q, FailedLane).Whole?
  }

  /** A whole packet further on than a lane. */
  predicate Beyond(q: Queue, lane: Lane) {
    match lane
    case Outbox => At(q, Working).Whole? || Ended(q)
    case Working => Ended(q)
    case _ => false
  }

  predicate Present(q: Queue) {
    At(q, Outbox).Whole? || Beyond(q, Outbox)
  }

  /** What a process may rely on: its own file is there, or the packet has already gone further on. */
  predicate Holds(q: Queue, p: Process) {
    match p.phase
    case Planned => p.inPlace ==> Present(q)
    case Creating(ino) => At(q, p.plan.dest) == Partial(ino) || Beyond(q, p.plan.dest)
    case Failing(ino) => At(q, p.plan.dest) == Partial(ino) || Beyond(q, p.plan.dest)
    case Written => At(q, p.plan.dest).Whole? || Beyond(q, p.plan.dest)
    case RollingBack => Beyond(q, p.plan.dest)
    case Verified => At(q, p.plan.dest).Whole? || Beyond(q, p.plan.dest)
    case Opened(ino) =>
      Present(q) && Unlinked(q, ino)
          && (q.tmp.Some? ==> q.tmp == Some(ino) && ino in q.files && q.files[ino].text.Empty?)
    case Renaming =>
      Present(q) && (q.tmp.Some? ==> q.tmp.value in q.files && q.files[q.tmp.value].text == Text(p.plan.result))
    case Cleaning => Present(q)
  }

  /** The file is not the packet in the outbox. */
  predicate Unlinked(q: Queue, ino: Ino) {
    ino < q.next && (Outbox in q.paths ==> q.paths[Outbox] != ino)
  }

  /** A process that may still rename the temporary file over the packet. */
  predicate Rewrites(p: Process) {
    p.inPlace && !p.phase.Cleaning?
  }

  ghost predicate AllHold(q: Queue, solo: bool) {
    forall pid :: pid in q.procs && (solo || q.procs[pid].plan.dest != Outbox) ==> Holds(q, q.procs[pid])
  }

  ghost predicate OneRewriter(q: Queue) {
    forall a, b :: a in q.procs && b in q.procs && Rewrites(q.procs[a]) && Rewrites(q.procs[b]) ==> a == b
  }

  /** `solo`: at most one process rewrites in place; otherwise the outbox is given up. */
  ghost predicate Guarded(q: Queue, solo: bool) {
    && Safe(q)
    && AllHold(q, solo)
    && (solo ==> OneRewriter(q))
  }

  /** What later processes rely on is never taken away. */
  predicate Progress(q: Queue, q': Queue, solo: bool) {
    && (Ended(q) ==> Ended(q'))
    && (Beyond(q, Outbox) ==> Beyond(q', Outbox))
    && (solo && Present(q) ==> Present(q'))
    && (At(q, DoneLane).Whole? ==> At(q', DoneLane) == At(q, DoneLane))
    && (At(q, FailedLane).Whole? ==> At(q', FailedLane) == At(q, FailedLane))
  }

  // ---- One step -----------------------------------------------------------------------------------------

  /** A change of one lane that takes nothing away from other processes. */
  predicate Fair(q: Queue, own: Option<Ino>, solo: bool, lane: Lane, slot: Slot) {
    var before := At(q, lane);
    || (lane == Outbox && !solo)
    || (&& (slot != before && before.Partial? && own != Some(before.ino) ==> Beyond(q, lane))
        && (before.Whole? && !slot.Whole? ==> Beyond(q, lane))
        && (before.Whole? && (lane.DoneLane? || lane.FailedLane?) ==> slot == before))
  }

  ghost predicate OnlyAt(q: Queue, q': Queue, lane: Lane) {
    forall other :: other != lane ==> At(q', other) == At(q, other)
  }

  lemma FairProgresses(q: Queue, q': Queue, own: Option<Ino>, solo: bool, lane: Lane)
    requires OnlyAt(q, q', lane) && Fair(q, own, solo, lane, At(q', lane))
    ensures Progress(q, q', solo)
  {
  }

  /** The temporary file is as it was, or gone. */
  predicate SameTmp(q: Queue, q': Queue) {
    q'.tmp == None || (q'.tmp == q.tmp && Get(q'.files, q.tmp.value) == Get(q.files, q.tmp.value))
  }

  /** Only new files are linked. */
  predicate LinksNew(q: Queue, q': Queue) {
    && q.next <= q'.next
    && (Outbox in q'.paths ==> (Outbox in q.paths && q'.paths[Outbox] == q.paths[Outbox]) || q'.paths[Outbox] == q.next)
  }

  lemma OtherHolds(q: Queue, q': Queue, own: Option<Ino>, solo: bool, lane: Lane, p: Process)
    requires OnlyAt(q, q', lane) && Fair(q, own, solo, lane, At(q', lane))
    requires Holds(q, p) && (solo || p.plan.dest != Outbox)
    requires p.phase.Creating? || p.phase.Failing? ==> InoOf(p) != own
    requires p.inPlace || p.phase.Cleaning? ==> solo
    requires p.phase.Opened? || p.phase.Renaming? ==> solo && SameTmp(q, q') && LinksNew(q, q')
    ensures Holds(q', p)
  {
    FairProgresses(q, q', own, solo, lane);
  }

  /** A text changes nothing but the lane its file belongs to. */
  lemma TextIsLocal(q: Queue, q': Queue, ino: Ino)
    requires Safe(q) && ino in q.files && q'.paths == q.paths && q'.files.Keys == q.files.Keys
    requires forall i :: i in q.files && i != ino ==> q'.files[i] == q.files[i]
    ensures OnlyAt(q, q', q.files[ino].lane)
    ensures q.tmp == Some(ino) ==> At(q', q.files[ino].lane) == At(q, q.files[ino].lane)
  {
    forall other | other != q.files[ino].lane ensures At(q', other) == At(q, other) {
      assert PathOk(q, other);
    }
    assert PathOk(q, q.files[ino].lane);
  }

  /** A file that no path names yet changes nothing. */
  lemma NewIsLocal(q: Queue, q': Queue, lane: Lane)
    requires Safe(q) && q'.files == q.files[q.next := File(lane, Empty)]
    requires q'.paths == q.paths || q'.paths == q.paths[lane := q.next]
    ensures OnlyAt(q, q', lane)
    ensures q'.paths == q.paths ==> At(q', lane) == At(q, lane)
  {
    forall other ensures other in q.paths ==> q.paths[other] != q.next {
      assert PathOk(q, other);
    }
  }

  /** The path a step of a mover changes. */
  function Touched(p: Process): Lane {
    if p.phase.Verified? && p.plan.src.Some? then p.plan.src.value else p.plan.dest
  }

  lemma UnlinkIsFair(q: Queue, q': Queue, own: Option<Ino>, solo: bool, lane: Lane)
    requires Safe(q) && q'.paths == q.paths - {lane} && q'.files == q.files && q'.tmp == q.tmp && q'.next == q.next
    requires Beyond(q, lane) || (own.Some? && At(q, lane) == Partial(own.value)) || (lane == Outbox && !solo)
    ensures OnlyAt(q, q', lane) && Fair(q, own, solo, lane, At(q', lane)) && SameTmp(q, q') && LinksNew(q, q')
  {
    forall other | other != lane ensures At(q', other) == At(q, other) {
    }
  }

  lemma CreateIsFair(q: Queue, q': Queue, lane: Lane, solo: bool)
    requires Safe(q) && lane !in q.paths && q'.tmp == q.tmp && q'.next == q.next + 1
    requires q'.files == q.files[q.next := File(lane, Empty)] && q'.paths == q.paths[lane := q.next]
    ensures OnlyAt(q, q', lane) && Fair(q, None, solo, lane, At(q', lane)) && SameTmp(q, q') && LinksNew(q, q')
  {
    NewIsLocal(q, q', lane);
  }

  lemma CreatedIsFair(q: Queue, q': Queue, ino: Ino, text: Text, lane: Lane, solo: bool)
    requires Safe(q) && ino in q.files && q.files[ino].lane == lane && q.tmp != Some(ino) && q'.tmp == q.tmp
    requires q'.files == q.files[ino := File(lane, text)] && q'.paths == q.paths && q'.next == q.next
    requires At(q, lane) == Partial(ino) || Beyond(q, lane) || (lane == Outbox && !solo)
    ensures OnlyAt(q, q', lane) && Fair(q, Some(ino), solo, lane, At(q', lane)) && SameTmp(q, q') && LinksNew(q, q')
  {
    TextIsLocal(q, q', ino);
  }

  predicate Stays(q: Queue, q': Queue) {
    q'.paths == q.paths && q'.files == q.files && q'.tmp == q.tmp && q'.next == q.next
  }

  lemma StaysIsFair(q: Queue, q': Queue, own: Option<Ino>, solo: bool, lane: Lane)
    requires Stays(q, q')
    ensures OnlyAt(q, q', lane) && Fair(q, own, solo, lane, At(q', lane)) && SameTmp(q, q') && LinksNew(q, q')
  {
    assert forall other :: At(q', other) == At(q, other);
  }

  /** A step of a mover changes one lane, fairly, and leaves the temporary file alone. */
  lemma MoveIsFair(q: Queue, pid: Pid, solo: bool)
    requires Guarded(q, solo) && pid in q.procs && !q.procs[pid].inPlace
    ensures var p, q' := q.procs[pid], MoveOn(q, pid);
            OnlyAt(q, q', Touched(p)) && Fair(q, InoOf(p), solo, Touched(p), At(q', Touched(p))) && SameTmp(q, q')
            && LinksNew(q, q')
  {
    var p, q' := q.procs[pid], MoveOn(q, pid);
    var lane := Touched(p);
    assert ProcessOk(q, p);
    assert solo || p.plan.dest != Outbox ==> Holds(q, p);
    match p.phase
    case Planned =>
      if p.plan.dest in q.paths {
        StaysIsFair(q, q', None, solo, lane);
      } else {
        CreateIsFair(q, q', lane, solo);
      }
    case Creating(ino) => CreatedIsFair(q, q', ino, Text(p.plan.result), lane, solo);
    case Written => StaysIsFair(q, q', None, solo, lane);
    case Verified =>
      if p.plan.src.Some? {
        UnlinkIsFair(q, q', None, solo, lane);
      } else {
        StaysIsFair(q, q', None, solo, lane);
      }
    case _ => UnlinkIsFair(q, q', InoOf(p), solo, lane);
  }

  /** What a mover relies on after its own step. */
  lemma MoverHolds(q: Queue, pid: Pid, solo: bool)
    requires Guarded(q, solo) && pid in q.procs && !q.procs[pid].inPlace && pid in MoveOn(q, pid).procs
    requires solo || q.procs[pid].plan.dest != Outbox
    ensures Holds(MoveOn(q, pid), MoveOn(q, pid).procs[pid])
  {
    var p, q' := q.procs[pid], MoveOn(q, pid);
    assert ProcessOk(q, p) && Holds(q, p);
    if p.phase.Written? {
      CheckedHolds(q, pid);
    } else {
      MoveIsFair(q, pid, solo);
      FairProgresses(q, q', InoOf(p), solo, Touched(p));
    }
  }

  /** What is on disk passes the check, or the packet has gone further on. */
  lemma CheckedHolds(q: Queue, pid: Pid)
    requires Safe(q) && pid in q.procs && !q.procs[pid].inPlace && q.procs[pid].phase.Written? && Holds(q, q.procs[pid])
    ensures Holds(MoveOn(q, pid), MoveOn(q, pid).procs[pid])
  {
    var p, q' := q.procs[pid], MoveOn(q, pid);
    if At(q, p.plan.dest).Whole? {
      SafeLanes(q, p.plan.dest);
    }
    assert forall lane :: At(q', lane) == At(q, lane);
  }

  /** A step of the only rewriter changes at most the outbox, and fairly. */
  lemma RewriteIsFair(q: Queue, pid: Pid, covers: bool, solo: bool)
    requires Guarded(q, solo) && pid in q.procs && q.procs[pid].inPlace
    ensures OnlyAt(q, RewriteOn(q, pid, covers), Outbox)
    ensures Fair(q, None, solo, Outbox, At(RewriteOn(q, pid, covers), Outbox))
    ensures !Rewrites(q.procs[pid]) ==> SameTmp(q, RewriteOn(q, pid, covers)) && LinksNew(q, RewriteOn(q, pid, covers))
  {
    var p, q' := q.procs[pid], RewriteOn(q, pid, covers);
    assert ProcessOk(q, p) && PathOk(q, Outbox);
    match p.phase
    case Planned =>
      if q.tmp.Some? {
        TextIsLocal(q, q', q.tmp.value);
      } else {
        NewIsLocal(q, q', Outbox);
      }
    case Opened(ino) =>
      TextIsLocal(q, q', ino);
      assert solo ==> Holds(q, p);
    case Renaming => assert solo ==> Holds(q, p);
    case _ =>
  }

  lemma RewriterHolds(q: Queue, pid: Pid, covers: bool)
    requires Guarded(q, true) && pid in q.procs && q.procs[pid].inPlace && pid in RewriteOn(q, pid, covers).procs
    ensures Holds(RewriteOn(q, pid, covers), RewriteOn(q, pid, covers).procs[pid])
  {
    var p, q' := q.procs[pid], RewriteOn(q, pid, covers);
    assert ProcessOk(q, p) && Holds(q, p) && PathOk(q, Outbox);
    RewriteIsFair(q, pid, covers, true);
    FairProgresses(q, q', None, true, Outbox);
  }

  lemma ErrorIsFair(q: Queue, pid: Pid, solo: bool)
    requires Guarded(q, solo) && pid in q.procs
    ensures var p, q' := q.procs[pid], ErrorOf(q, pid);
            && OnlyAt(q, q', p.plan.dest) && Fair(q, InoOf(p), solo, p.plan.dest, At(q', p.plan.dest))
            && (!Rewrites(p) ==> SameTmp(q, q') && LinksNew(q, q'))
  {
    var p, q' := q.procs[pid], ErrorOf(q, pid);
    assert ProcessOk(q, p);
    assert solo || p.plan.dest != Outbox ==> Holds(q, p);
    match p.phase
    case Creating(ino) => CreatedIsFair(q, q', ino, Garbled, p.plan.dest, solo);
    case Opened(ino) => TextIsLocal(q, q', ino);
    case _ => StaysIsFair(q, q', InoOf(p), solo, p.plan.dest);
  }

  lemma ErrorHolds(q: Queue, pid: Pid, solo: bool)
    requires Guarded(q, solo) && pid in q.procs && pid in ErrorOf(q, pid).procs
    requires solo || q.procs[pid].plan.dest != Outbox
    ensures Holds(ErrorOf(q, pid), ErrorOf(q, pid).procs[pid])
  {
    var p, q' := q.procs[pid], ErrorOf(q, pid);
    assert ProcessOk(q, p) && Holds(q, p);
    ErrorIsFair(q, pid, solo);
    FairProgresses(q, q', InoOf(p), solo, p.plan.dest);
  }

  // ---- Whole runs -----------------------------------------------------------------------------------------

  /** A step of a process ends it or takes it to another phase. */
  predicate Acts(q: Queue, q': Queue, pid: Pid)
    requires pid in q.procs
  {
    || q'.procs == q.procs - {pid}
    || (&& pid in q'.procs && q'.procs == q.procs[pid := q'.procs[pid]]
        && q'.procs[pid].inPlace == q.procs[pid].inPlace && q'.procs[pid].plan == q.procs[pid].plan
        && (Rewrites(q'.procs[pid]) ==> Rewrites(q.procs[pid])))
  }

  /** What a process relies on after its own step. */
  predicate StillHolds(q': Queue, pid: Pid, solo: bool) {
    pid in q'.procs && (solo || q'.procs[pid].plan.dest != Outbox) ==> Holds(q', q'.procs[pid])
  }

  lemma StillOne(q: Queue, q': Queue, pid: Pid)
    requires OneRewriter(q) && pid in q.procs && Acts(q, q', pid)
    ensures OneRewriter(q')
  {
  }

  lemma ActorAndOther(q: Queue, q': Queue, pid: Pid, own: Option<Ino>, lane: Lane, solo: bool, other: Pid)
    requires Guarded(q, solo) && pid in q.procs && own == InoOf(q.procs[pid])
    requires OnlyAt(q, q', lane) && Fair(q, own, solo, lane, At(q', lane))
    requires !Rewrites(q.procs[pid]) ==> SameTmp(q, q') && LinksNew(q, q')
    requires other in q.procs && other != pid && (solo || q.procs[other].plan.dest != Outbox)
    ensures Holds(q', q.procs[other])
  {
    var p := q.procs[other];
    assert ProcessOk(q, p) && Apart(p, q.procs[pid]) && Holds(q, p);
    OtherHolds(q, q', own, solo, lane, p);
  }

  /** A process acts, and the others go on relying on what they did. */
  lemma ActorStep(q: Queue, q': Queue, pid: Pid, own: Option<Ino>, lane: Lane, solo: bool)
    requires Guarded(q, solo) && Safe(q') && pid in q.procs && own == InoOf(q.procs[pid])
    requires OnlyAt(q, q', lane) && Fair(q, own, solo, lane, At(q', lane))
    requires !Rewrites(q.procs[pid]) ==> SameTmp(q, q') && LinksNew(q, q')
    requires Acts(q, q', pid) && StillHolds(q', pid, solo)
    ensures Guarded(q', solo) && Progress(q, q', solo)
  {
    FairProgresses(q, q', own, solo, lane);
    if solo {
      StillOne(q, q', pid);
    }
    forall other | other in q'.procs && (solo || q'.procs[other].plan.dest != Outbox)
      ensures Holds(q', q'.procs[other])
    {
      if other != pid {
        ActorAndOther(q, q', pid, own, lane, solo, other);
      }
    }
  }

  /** At most one process rewrites in place after this step, too. */
  ghost predicate KeepsSolo(q: Queue, step: Step) {
    step.Start? && InPlace(step.tool) ==> forall pid :: pid in q.procs ==> !Rewrites(q.procs[pid])
  }

  /** No decision in place starts before the one before it has ended, failed or crashed. */
  ghost predicate SoloRun(q: Queue, steps: seq<Step>)
    decreases |steps|
  {
    steps != [] ==> KeepsSolo(q, steps[0]) && SoloRun(AfterStep(q, steps[0]), steps[1..])
  }

  /** As long as no file changes, nothing that a process relies on does. */
  lemma StaysHolds(q: Queue, q': Queue, p: Process)
    requires Stays(q, q')
    ensures Holds(q', p) <==> Holds(q, p)
  {
    assert forall lane :: At(q', lane) == At(q, lane);
  }

  lemma StayProgresses(q: Queue, q': Queue, solo: bool)
    requires Stays(q, q')
    ensures Progress(q, q', solo)
  {
    assert forall lane :: At(q', lane) == At(q, lane);
  }

  lemma StartHolds(q: Queue, step: Step, solo: bool)
    requires AllHold(q, solo) && step.Start?
    ensures AllHold(AfterStep(q, step), solo)
  {
    var q' := AfterStep(q, step);
    forall pid | pid in q'.procs && (solo || q'.procs[pid].plan.dest != Outbox) ensures Holds(q', q'.procs[pid]) {
      StartedHolds(q, step, pid);
      StaysHolds(q, q', q'.procs[pid]);
    }
  }

  lemma StartIsGuarded(q: Queue, step: Step, solo: bool)
    requires Guarded(q, solo) && step.Start? && (solo ==> KeepsSolo(q, step))
    ensures Guarded(AfterStep(q, step), solo) && Progress(q, AfterStep(q, step), solo)
  {
    StartKeepsSafe(q, step);
    StartHolds(q, step, solo);
    StayProgresses(q, AfterStep(q, step), solo);
  }

  /** A new process in place has just read the packet. */
  lemma StartedHolds(q: Queue, step: Step, pid: Pid)
    requires step.Start? && pid in AfterStep(q, step).procs
    requires pid in q.procs ==> Holds(q, q.procs[pid]) || q.procs[pid].plan.dest == Outbox
    ensures pid in q.procs ==> AfterStep(q, step).procs[pid] == q.procs[pid]
    ensures pid !in q.procs ==> Holds(q, AfterStep(q, step).procs[pid])
  {
  }

  lemma CrashIsGuarded(q: Queue, pid: Pid, solo: bool)
    requires Guarded(q, solo)
    ensures Guarded(Gone(q, pid), solo) && Progress(q, Gone(q, pid), solo)
  {
    var q' := Gone(q, pid);
    EndKeepsSafe(q, q', pid);
    StayProgresses(q, q', solo);
    forall other | other in q'.procs && (solo || q'.procs[other].plan.dest != Outbox)
      ensures Holds(q', q'.procs[other])
    {
      StaysHolds(q, q', q.procs[other]);
    }
  }

  lemma RewriteActs(q: Queue, pid: Pid, covers: bool)
    requires pid in q.procs && q.procs[pid].inPlace && ProcessOk(q, q.procs[pid])
    ensures Acts(q, RewriteOn(q, pid, covers), pid)
  {
  }

  lemma RewriteStillHolds(q: Queue, pid: Pid, covers: bool, solo: bool)
    requires Guarded(q, solo) && pid in q.procs && q.procs[pid].inPlace
    ensures StillHolds(RewriteOn(q, pid, covers), pid, solo)
  {
    RewriteActs(q, pid, covers);
    if solo && pid in RewriteOn(q, pid, covers).procs {
      RewriterHolds(q, pid, covers);
    }
  }

  lemma RewriteIsGuarded(q: Queue, pid: Pid, covers: bool, solo: bool)
    requires Guarded(q, solo) && pid in q.procs && q.procs[pid].inPlace
    ensures Guarded(RewriteOn(q, pid, covers), solo) && Progress(q, RewriteOn(q, pid, covers), solo)
  {
    var q', own := RewriteOn(q, pid, covers), InoOf(q.procs[pid]);
    RewriteKeepsSafe(q, pid, covers);
    RewriteIsFair(q, pid, covers, solo);
    FairWithOwn(q, own, solo, Outbox, At(q', Outbox));
    RewriteActs(q, pid, covers);
    RewriteStillHolds(q, pid, covers, solo);
    ActorStep(q, q', pid, own, Outbox, solo);
  }

  lemma MoveActs(q: Queue, pid: Pid, solo: bool)
    requires Guarded(q, solo) && pid in q.procs && !q.procs[pid].inPlace
    ensures Acts(q, MoveOn(q, pid), pid) && StillHolds(MoveOn(q, pid), pid, solo)
  {
    assert ProcessOk(q, q.procs[pid]);
    if pid in MoveOn(q, pid).procs && (solo || q.procs[pid].plan.dest != Outbox) {
      MoverHolds(q, pid, solo);
    }
  }

  lemma MoveIsGuarded(q: Queue, pid: Pid, solo: bool)
    requires Guarded(q, solo) && pid in q.procs && !q.procs[pid].inPlace
    ensures Guarded(MoveOn(q, pid), solo) && Progress(q, MoveOn(q, pid), solo)
  {
    MoveKeepsSafe(q, pid);
    MoveIsFair(q, pid, solo);
    MoveActs(q, pid, solo);
    ActorStep(q, MoveOn(q, pid), pid, InoOf(q.procs[pid]), Touched(q.procs[pid]), solo);
  }

  lemma ErrorActs(q: Queue, pid: Pid)
    requires pid in q.procs && ProcessOk(q, q.procs[pid])
    ensures Acts(q, ErrorOf(q, pid), pid)
  {
  }

  lemma ErrorStillHolds(q: Queue, pid: Pid, solo: bool)
    requires Guarded(q, solo) && pid in q.procs
    ensures StillHolds(ErrorOf(q, pid), pid, solo)
  {
    ErrorActs(q, pid);
    if pid in ErrorOf(q, pid).procs && (solo || q.procs[pid].plan.dest != Outbox) {
      ErrorHolds(q, pid, solo);
    }
  }

  lemma ErrorIsGuarded(q: Queue, pid: Pid, solo: bool)
    requires Guarded(q, solo) && pid in q.procs
    ensures Guarded(ErrorOf(q, pid), solo) && Progress(q, ErrorOf(q, pid), solo)
  {
    ErrorKeepsSafe(q, pid);
    ErrorIsFair(q, pid, solo);
    ErrorActs(q, pid);
    ErrorStillHolds(q, pid, solo);
    ActorStep(q, ErrorOf(q, pid), pid, InoOf(q.procs[pid]), q.procs[pid].plan.dest, solo);
  }

  lemma StepIsGuarded(q: Queue, step: Step, solo: bool)
    requires Guarded(q, solo) && (solo ==> KeepsSolo(q, step))
    ensures Guarded(AfterStep(q, step), solo) && Progress(q, AfterStep(q, step), solo)
  {
    match step
    case Start(_, _, _) => StartIsGuarded(q, step, solo);
    case Crash(pid) => CrashIsGuarded(q, pid, solo);
    case Advance(pid, covers) =>
      if pid !in q.procs {
        StayProgresses(q, q, solo);
      } else if q.procs[pid].inPlace {
        RewriteIsGuarded(q, pid, covers, solo);
      } else {
        MoveIsGuarded(q, pid, solo);
      }
    case WriteError(pid) =>
      if pid !in q.procs {
        StayProgresses(q, q, solo);
      } else {
        ErrorIsGuarded(q, pid, solo);
      }
  }

  lemma FairWithOwn(q: Queue, own: Option<Ino>, solo: bool, lane: Lane, slot: Slot)
    requires Fair(q, None, solo, lane, slot)
    ensures Fair(q, own, solo, lane, slot)
  {
  }

  /**
   * No packet is lost while decisions in place on it do not overlap.  Once a request is complete,
   * every later state of every interleaving, with any crashes and write errors, has a readable copy
   * of the packet in some lane.
   */
  lemma {:induction false} NeverLost(q: Queue, steps: seq<Step>)
    requires Guarded(q, true) && SoloRun(q, steps)
    ensures Guarded(AfterSteps(q, steps), true) && Progress(q, AfterSteps(q, steps), true)
    decreases |steps|
  {
    if steps != [] {
      StepIsGuarded(q, steps[0], true);
      NeverLost(AfterStep(q, steps[0]), steps[1..]);
    }
  }

  /**
   * Whatever overlaps: a claimed packet is never lost, and a packet that is done, denied or failed is
   * never overwritten or removed.
   */
  lemma {:induction false} ClaimedIsNeverLost(q: Queue, steps: seq<Step>)
    requires Guarded(q, false)
    ensures Guarded(AfterSteps(q, steps), false) && Progress(q, AfterSteps(q, steps), false)
    decreases |steps|
  {
    if steps != [] {
      StepIsGuarded(q, steps[0], false);
      ClaimedIsNeverLost(AfterStep(q, steps[0]), steps[1..]);
    }
  }

  /** Both results apply to every run from an empty queue. */
  lemma EmptyIsGuarded()
    ensures Guarded(EMPTY, true) && Guarded(EMPTY, false)
  {
  }

  // ---- The condition is exact -----------------------------------------------------------------------------

  /** The only copy of the packet is in the outbox. */
  predicate OnlyInOutbox(q: Queue) {
    At(q, Outbox).Whole? && !Beyond(q, Outbox)
  }

  /** Opening truncates the temporary file, whoever has it open. */
  lemma OpensEmpty(q: Queue, r: Pid)
    requires Safe(q) && r in q.procs && q.procs[r].inPlace && q.procs[r].phase.Planned?
    ensures var q' := AfterStep(q, Advance(r, true));
            && q'.tmp.Some? && q'.tmp.value in q'.files && q'.files[q'.tmp.value].text.Empty?
            && OnlyAt(q, q', Outbox) && At(q', Outbox) == At(q, Outbox)
            && q'.procs == q.procs[r := q.procs[r].(phase := Opened(q'.tmp.value))]
  {
    if q.tmp.Some? {
      TextIsLocal(q, AfterStep(q, Advance(r, true)), q.tmp.value);
    } else {
      NewIsLocal(q, AfterStep(q, Advance(r, true)), Outbox);
    }
  }

  /** One process renames the file that the other has just truncated. */
  lemma RenamesEmpty(q: Queue, p: Pid, r: Pid)
    requires p in q.procs && q.procs[p].inPlace && q.procs[p].phase.Renaming? && p != r
    requires q.tmp.Some? && q.tmp.value in q.files && q.files[q.tmp.value].text.Empty? && !Beyond(q, Outbox)
    ensures !Present(AfterSteps(q, [Advance(p, true), Crash(r)]))
  {
    var q1 := AfterStep(q, Advance(p, true));
    var q2 := AfterStep(q1, Crash(r));
    assert [Advance(p, true), Crash(r)][1..] == [Crash(r)] && [Crash(r)][1..] == [];
    assert AfterSteps(q, [Advance(p, true), Crash(r)]) == AfterSteps(q1, [Crash(r)]) == q2;
    assert forall lane :: lane != Outbox ==> At(q2, lane) == At(q, lane);
  }

  /** From a process that is about to rename and one that is about to open. */
  lemma LosesFromRenaming(q: Queue, p: Pid, r: Pid)
    requires Safe(q) && !Beyond(q, Outbox) && p in q.procs && r in q.procs && p != r
    requires q.procs[p].inPlace && q.procs[p].phase.Renaming? && q.procs[r].inPlace && q.procs[r].phase.Planned?
    ensures !Present(AfterSteps(q, [Advance(r, true), Advance(p, true), Crash(r)]))
  {
    var q1 := AfterStep(q, Advance(r, true));
    OpensEmpty(q, r);
    assert [Advance(r, true), Advance(p, true), Crash(r)][1..] == [Advance(p, true), Crash(r)];
    RenamesEmpty(q1, p, r);
  }

  /** The advances that take a rewriter to its rename. */
  function ToRenaming(p: Process, pid: Pid): seq<Step> {
    if p.phase.Planned? then [Advance(pid, true), Advance(pid, true)]
    else if p.phase.Opened? then [Advance(pid, true)]
    else []
  }

  /** A rewriter that has the temporary file open comes to its rename without changing the packet. */
  lemma WritesOut(q: Queue, p: Pid)
    requires Safe(q) && p in q.procs && q.procs[p].inPlace && q.procs[p].phase.Opened?
    requires Unlinked(q, q.procs[p].phase.ino)
    ensures var q' := AfterStep(q, Advance(p, true));
            Safe(q') && Beyond(q', Outbox) == Beyond(q, Outbox)
                && q'.procs == q.procs[p := q.procs[p].(phase := Renaming)]
  {
    var q' := AfterStep(q, Advance(p, true));
    StepKeepsSafe(q, Advance(p, true));
    assert ProcessOk(q, q.procs[p]);
    TextIsLocal(q, q', q.procs[p].phase.ino);
  }

  lemma OpensSafely(q: Queue, p: Pid)
    requires Safe(q) && p in q.procs && q.procs[p].inPlace && q.procs[p].phase.Planned?
    ensures var q' := AfterStep(q, Advance(p, true));
            && Safe(q') && q'.tmp.Some? && Unlinked(q', q'.tmp.value) && Beyond(q', Outbox) == Beyond(q, Outbox)
            && q'.procs == q.procs[p := q.procs[p].(phase := Opened(q'.tmp.value))]
  {
    OpensEmpty(q, p);
    StepKeepsSafe(q, Advance(p, true));
    assert PathOk(AfterStep(q, Advance(p, true)), Outbox);
  }

  lemma OpensAndWritesOut(q: Queue, p: Pid)
    requires Safe(q) && p in q.procs && q.procs[p].inPlace && q.procs[p].phase.Planned?
    ensures var q' := AfterStep(AfterStep(q, Advance(p, true)), Advance(p, true));
            Safe(q') && Beyond(q', Outbox) == Beyond(q, Outbox)
                && q'.procs == q.procs[p := q.procs[p].(phase := Renaming)]
  {
    OpensSafely(q, p);
    WritesOut(AfterStep(q, Advance(p, true)), p);
  }

  lemma TwoAfterSteps(q: Queue, s: Step, t: Step)
    ensures AfterSteps(q, [s]) == AfterStep(q, s) && AfterSteps(q, [s, t]) == AfterStep(AfterStep(q, s), t)
  {
    assert [s][1..] == [] && [s, t][1..] == [t] && [t][1..] == [];
    assert AfterSteps(AfterStep(q, s), [t]) == AfterStep(AfterStep(q, s), t);
  }

  lemma ReachesRenaming(q: Queue, p: Pid)
    requires Safe(q) && p in q.procs && Rewrites(q.procs[p])
    requires q.procs[p].phase.Opened? ==> Unlinked(q, q.procs[p].phase.ino)
    ensures var q' := AfterSteps(q, ToRenaming(q.procs[p], p));
            && Safe(q') && Beyond(q', Outbox) == Beyond(q, Outbox)
            && q'.procs == q.procs[p := q.procs[p].(phase := Renaming)]
  {
    TwoAfterSteps(q, Advance(p, true), Advance(p, true));
    if q.procs[p].phase.Planned? {
      OpensAndWritesOut(q, p);
    } else if q.procs[p].phase.Opened? {
      WritesOut(q, p);
    } else {
      assert ProcessOk(q, q.procs[p]);
      assert q.procs[p].(phase := Renaming) == q.procs[p];
    }
  }

  /** While a rewriter is at work, a second one can lose the packet. */
  lemma OverlapCanLose(q: Queue, p: Pid, r: Pid) returns (rest: seq<Step>)
    requires Safe(q) && !Beyond(q, Outbox) && p in q.procs && r in q.procs && p != r
    requires Rewrites(q.procs[p]) && q.procs[r].inPlace && q.procs[r].phase.Planned?
    requires q.procs[p].phase.Opened? ==> Unlinked(q, q.procs[p].phase.ino)
    ensures !Present(AfterSteps(q, rest)) && forall i :: 0 <= i < |rest| ==> !rest[i].Start?
  {
    var first := ToRenaming(q.procs[p], p);
    var last := [Advance(r, true), Advance(p, true), Crash(r)];
    ReachesRenaming(q, p);
    LosesFromRenaming(AfterSteps(q, first), p, r);
    StepsConcat(q, first, last);
    rest := first + last;
  }

  lemma {:induction false} NoStartIsSolo(q: Queue, steps: seq<Step>)
    requires forall i :: 0 <= i < |steps| ==> !steps[i].Start?
    ensures SoloRun(q, steps)
    decreases |steps|
  {
    if steps != [] {
      NoStartIsSolo(AfterStep(q, steps[0]), steps[1..]);
    }
  }

  /** The packet stays readable in every run from here in which no further decisions overlap. */
  ghost predicate StaysReadable(q: Queue) {
    forall rest: seq<Step> :: SoloRun(q, rest) ==> Present(AfterSteps(q, rest))
  }

  /** A decision in place that a tool accepts. */
  predicate Accepted(q: Queue, step: Step) {
    step.Start? && InPlace(step.tool) && step.pid !in q.procs
    && PlanOf(step.tool, step.actor, At(q, ReadsFrom(step.tool))).Some?
  }

  /**
   * The condition of NeverLost is exact: when a decision in place starts on a packet that is only in
   * the outbox, the packet stays readable whatever follows iff no other decision in place is at work
   * on it.
   */
  lemma StartIsSafeIff(q: Queue, step: Step)
    requires Guarded(q, true) && OnlyInOutbox(q) && Accepted(q, step)
    ensures StaysReadable(AfterStep(q, step)) <==> KeepsSolo(q, step)
  {
    var q' := AfterStep(q, step);
    StepKeepsSafe(q, step);
    StayProgresses(q, q', false);
    assert forall lane :: At(q', lane) == At(q, lane);
    if KeepsSolo(q, step) {
      StepIsGuarded(q, step, true);
      forall rest: seq<Step> | SoloRun(q', rest) ensures Present(AfterSteps(q', rest)) {
        NeverLost(q', rest);
      }
    } else {
      var p :| p in q.procs && Rewrites(q.procs[p]);
      assert ProcessOk(q, q.procs[p]) && Holds(q, q.procs[p]);
      var rest := OverlapCanLose(q', p, step.pid);
      NoStartIsSolo(q', rest);
    }
  }

  // ---- Two decisions in place that overlap ------------------------------------------------------------------

  /** One packet in the outbox, and no process. */
  function Resting(p: Packet): Queue {
    Queue(map[Outbox := 0], None, map[0 := File(Outbox, Text(p))], 1, map[])
  }

  /** The outbox holds a file that nothing can read, and there is no other copy. */
  ghost predicate Lost(q: Queue) {
    && Outbox in q.paths
    && (forall lane :: !At(q, lane).Whole?)
    && (forall pid :: pid in q.procs ==>
        !q.procs[pid].inPlace && q.procs[pid].phase.Planned? && q.procs[pid].plan.dest == Outbox)
  }

  /** Nothing that any process does afterwards brings the packet back. */
  lemma {:induction false} LostForever(q: Queue, steps: seq<Step>)
    requires Lost(q)
    ensures Lost(AfterSteps(q, steps))
    decreases |steps|
  {
    if steps != [] {
      LostStep(q, steps[0]);
      LostForever(AfterStep(q, steps[0]), steps[1..]);
    }
  }

  lemma LostStep(q: Queue, step: Step)
    requires Lost(q)
    ensures Lost(AfterStep(q, step))
  {
    var q' := AfterStep(q, step);
    assert Stays(q, q');
    assert forall lane :: At(q', lane) == At(q, lane);
    if step.Start? {
      assert !At(q, ReadsFrom(step.tool)).Whole?;
    }
  }

  /** A clears the request, B asks back; A writes the temporary file, B truncates it, A renames it. */
  function TruncatedByB(a: string, b: string): seq<Step> {
    [Start(0, Decide(CTA), a), Start(1, Decide(RfiPending), b),
     Advance(0, false), Advance(0, false), Advance(1, false), Advance(0, false)]
  }

  /** A opens the temporary file, B opens it, A writes, B writes something shorter, A renames. */
  function GarbledByB(a: string, b: string): seq<Step> {
    [Start(0, Decide(CTA), a), Start(1, Decide(RfiPending), b),
     Advance(0, false), Advance(1, false), Advance(0, false), Advance(1, false), Advance(0, false)]
  }

  function Rewriter(result: Packet, phase: Phase): Process {
    Process(true, Plan(None, Outbox, result), phase)
  }

  /** A and B at work on the packet of an outbox, with one temporary file between them. */
  function Sharing(p: Packet, text: Text, a: Packet, phaseA: Phase, b: Packet, phaseB: Phase): Queue {
    Queue(map[Outbox := 0], Some(1), map[0 := File(Outbox, Text(p)), 1 := File(Outbox, text)], 2,
          map[0 := Rewriter(a, phaseA), 1 := Rewriter(b, phaseB)])
  }

  lemma BothStart(p: Packet, a: string, b: string)
    requires Passes(Outbox, p) && Decidable(p.status)
    ensures AfterStep(AfterStep(Resting(p), Start(0, Decide(CTA), a)), Start(1, Decide(RfiPending), b))
            == Resting(p).(procs := map[0 := Rewriter(BuildDecision(p, CTA, a), Planned),
                                        1 := Rewriter(BuildDecision(p, RfiPending, b), Planned)])
  {
  }

  lemma OpensA(p: Packet, a: Packet, b: Packet)
    ensures AfterStep(Resting(p).(procs := map[0 := Rewriter(a, Planned), 1 := Rewriter(b, Planned)]),
                      Advance(0, false))
            == Sharing(p, Empty, a, Opened(1), b, Planned)
  {
  }

  lemma OpensB(p: Packet, text: Text, a: Packet, phaseA: Phase, b: Packet)
    ensures AfterStep(Sharing(p, text, a, phaseA, b, Planned), Advance(1, false))
            == Sharing(p, Empty, a, phaseA, b, Opened(1))
  {
  }

  lemma WritesA(p: Packet, a: Packet, b: Packet, phaseB: Phase)
    ensures AfterStep(Sharing(p, Empty, a, Opened(1), b, phaseB), Advance(0, false))
            == Sharing(p, Text(a), a, Renaming, b, phaseB)
  {
  }

  lemma WritesB(p: Packet, a: Packet, phaseA: Phase, b: Packet)
    ensures AfterStep(Sharing(p, Text(a), a, phaseA, b, Opened(1)), Advance(1, false))
            == Sharing(p, Garbled, a, phaseA, b, Renaming)
  {
  }

  /** A is done, and B is left with the file that is now the packet. */
  function Renamed(p: Packet, text: Text, a: Packet, b: Packet, phaseB: Phase): Queue {
    Sharing(p, text, a, Renaming, b, phaseB).(paths := map[Outbox := 1], tmp := None,
                                              procs := map[1 := Rewriter(b, phaseB)])
  }

  lemma RenamesA(p: Packet, text: Text, a: Packet, b: Packet, phaseB: Phase)
    ensures AfterStep(Sharing(p, text, a, Renaming, b, phaseB), Advance(0, false))
            == Renamed(p, text, a, b, phaseB)
  {
    assert map[Outbox := 0][Outbox := 1] == map[Outbox := 1];
    assert map[0 := Rewriter(a, Renaming), 1 := Rewriter(b, phaseB)] - {0} == map[1 := Rewriter(b, phaseB)];
  }

  lemma EndsLost(q: Queue)
    requires q.paths == map[Outbox := 1] && 1 in q.files && !q.files[1].text.Text?
    requires forall pid :: pid in q.procs ==> pid == 1
    ensures Lost(AfterStep(q, Crash(1)))
  {
  }

  /** The state after one more step of a sequence. */
  lemma OneMore(q: Queue, steps: seq<Step>, k: nat)
    requires k < |steps|
    ensures AfterSteps(q, steps[..k + 1]) == AfterStep(AfterSteps(q, steps[..k]), steps[k])
  {
    assert steps[..k + 1] == steps[..k] + [steps[k]] && [steps[k]][1..] == [];
    StepsConcat(q, steps[..k], [steps[k]]);
  }

  lemma TruncatedEnds(p: Packet, a: string, b: string)
    requires Passes(Outbox, p) && Decidable(p.status)
    ensures var c, r := BuildDecision(p, CTA, a), BuildDecision(p, RfiPending, b);
            AfterSteps(Resting(p), TruncatedByB(a, b)) == Renamed(p, Empty, c, r, Opened(1))
  {
    var c, r := BuildDecision(p, CTA, a), BuildDecision(p, RfiPending, b);
    var s := TruncatedByB(a, b);
    BothStart(p, a, b);
    OpensA(p, c, r);
    WritesA(p, c, r, Planned);
    OpensB(p, Text(c), c, Renaming, r);
    RenamesA(p, Empty, c, r, Opened(1));
    assert s[..0] == [] && s[..6] == s;
    OneMore(Resting(p), s, 0);
    OneMore(Resting(p), s, 1);
    OneMore(Resting(p), s, 2);
    OneMore(Resting(p), s, 3);
    OneMore(Resting(p), s, 4);
    OneMore(Resting(p), s, 5);
  }

  /** If B crashes before it writes, the only copy of the packet is an empty file. */
  lemma LostToACrash(p: Packet, a: string, b: string)
    requires Passes(Outbox, p) && Decidable(p.status)
    ensures Lost(AfterStep(AfterSteps(Resting(p), TruncatedByB(a, b)), Crash(1)))
  {
    TruncatedEnds(p, a, b);
    EndsLost(AfterSteps(Resting(p), TruncatedByB(a, b)));
  }

  /** Both have opened the temporary file. */
  lemma BothOpen(p: Packet, a: string, b: string)
    requires Passes(Outbox, p) && Decidable(p.status)
    ensures var c, r := BuildDecision(p, CTA, a), BuildDecision(p, RfiPending, b);
            AfterSteps(Resting(p), GarbledByB(a, b)[..4]) == Sharing(p, Empty, c, Opened(1), r, Opened(1))
  {
    var c, r := BuildDecision(p, CTA, a), BuildDecision(p, RfiPending, b);
    var s := GarbledByB(a, b);
    BothStart(p, a, b);
    OpensA(p, c, r);
    OpensB(p, Empty, c, Opened(1), r);
    assert s[..0] == [];
    OneMore(Resting(p), s, 0);
    OneMore(Resting(p), s, 1);
    OneMore(Resting(p), s, 2);
    OneMore(Resting(p), s, 3);
  }

  lemma GarbledEnds(p: Packet, a: string, b: string)
    requires Passes(Outbox, p) && Decidable(p.status)
    ensures var c, r := BuildDecision(p, CTA, a), BuildDecision(p, RfiPending, b);
            AfterSteps(Resting(p), GarbledByB(a, b)) == Renamed(p, Garbled, c, r, Renaming)
  {
    var c, r := BuildDecision(p, CTA, a), BuildDecision(p, RfiPending, b);
    var s := GarbledByB(a, b);
    BothOpen(p, a, b);
    WritesA(p, c, r, Opened(1));
    WritesB(p, c, Renaming, r);
    RenamesA(p, Garbled, c, r, Renaming);
    assert s[..7] == s;
    OneMore(Resting(p), s, 4);
    OneMore(Resting(p), s, 5);
    OneMore(Resting(p), s, 6);
  }

  /** Without any crash, B's shorter text over A's longer one leaves a file that does not parse. */
  lemma LostWithoutACrash(p: Packet, a: string, b: string)
    requires Passes(Outbox, p) && Decidable(p.status)
    ensures Lost(AfterSteps(AfterSteps(Resting(p), GarbledByB(a, b)), [Advance(1, false), Advance(1, false)]))
  {
    GarbledEnds(p, a, b);
    RenameFails(AfterSteps(Resting(p), GarbledByB(a, b)), BuildDecision(p, RfiPending, b));
  }

  /** B finds its temporary file gone, and gives up. */
  lemma RenameFails(q: Queue, b: Packet)
    requires q.paths == map[Outbox := 1] && 1 in q.files && !q.files[1].text.Text? && q.tmp == None
    requires q.procs == map[1 := Rewriter(b, Renaming)]
    ensures Lost(AfterSteps(q, [Advance(1, false), Advance(1, false)]))
  {
    var s := [Advance(1, false), Advance(1, false)];
    var q1 := AfterStep(q, s[0]);
    assert q1 == q.(procs := map[1 := Rewriter(b, Cleaning)]);
    assert s[1..] == [s[1]] && [s[1]][1..] == [];
    assert AfterSteps(q, s) == AfterStep(q1, s[1]) == q.(procs := q1.procs - {1});
  }
}
