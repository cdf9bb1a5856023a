/**
 * Audit trails against what happened: what each tool plans, said of the request it was given, and how
 * every event of a packet comes from a process that was asked for exactly that.
 */
module ClearanceTrails {
  import opened Wrappers
  import opened Clearance

  // ---- What a tool plans ------------------------------------------------------------------------

  /** The status that the caller of a tool asks for. */
  function Asked(tool: Tool): Status {
    match tool
    case Request(_) => RTA
    case Decide(decision) => decision
    case Claim => InProgress
    case Finish(status) => status
  }

  /** The statuses that the commands of a tool offer. */
  predicate Offered(tool: Tool) {
    && (tool.Decide? ==> tool.decision.CTA? || tool.decision.DTA? || tool.decision.RfiPending?)
    && (tool.Finish? ==> tool.status.Done? || tool.status.Failed?)
  }

  /** When a tool does not refuse, in terms of its arguments and of the packet it reads. */
  lemma PlansIff(tool: Tool, actor: string, read: Slot)
    ensures PlanOf(tool, actor, read).Some? <==>
            match tool
            case Request(wellFormed) => wellFormed
            case Decide(decision) =>
              && (decision.CTA? || decision.DTA? || decision.RfiPending?)
              && read.Whole? && read.packet.wellFormed && (read.packet.status.RTA? || read.packet.status.InReview?)
            case Claim =>
              && read.Whole? && read.packet.wellFormed && read.packet.lease
              && read.packet.status in {RTA, InReview, RfiPending, CTA}
            case Finish(status) =>
              && (status.Done? || status.Failed?)
              && read.Whole? && read.packet.wellFormed && read.packet.lease && read.packet.status.InProgress?
  {
  }

  /**
   * What it then plans: the packet it read, with the status it was asked for, one more event with that
   * status and the caller's name, and a lease only if it had one or is being cleared; from the lane it
   * read to the lane of that status.
   */
  lemma PlansAreAsked(tool: Tool, actor: string, read: Slot)
    requires PlanOf(tool, actor, read).Some?
    ensures var plan := PlanOf(tool, actor, read).value;
            var result := plan.result;
            && result.status == Asked(tool)
            && (tool.Request? ==> result == Packet(RTA, false, true, Some([Event(RTA, actor)])))
            && (!tool.Request? ==>
                  && read.Whole?
                  && result.wellFormed == read.packet.wellFormed
                  && (result.lease <==> read.packet.lease || Asked(tool).CTA?)
                  && (tool.Claim? && read.packet.events.None? ==> result.events.None?)
                  && (!tool.Claim? || read.packet.events.Some? ==>
                        result.events == Some(History(read.packet) + [Event(Asked(tool), actor)])))
    ensures var plan := PlanOf(tool, actor, read).value;
            && plan.dest == (match Asked(tool)
                             case InProgress => Working
                             case Done => DoneLane
                             case DTA => DoneLane
                             case Failed => FailedLane
                             case _ => Outbox)
            && plan.src == (match Asked(tool)
                            case InProgress => Some(Outbox)
                            case DTA => Some(Outbox)
                            case Done => Some(Working)
                            case Failed => Some(Working)
                            case _ => None)
  {
  }

  // ---- Where the events of a trail come from ------------------------------------------------------

  /** The step starts a tool that asks for this event. */
  predicate Asks(step: Step, e: Event) {
    step.Start? && Offered(step.tool) && Asked(step.tool) == e.name && step.actor == e.actor
  }

  /** For each event of the trail, in order, there is a step that asked for it, in the same order. */
  ghost predicate Traced(steps: seq<Step>, es: seq<Event>)
    decreases |es|
  {
    es == [] || exists i: nat :: i < |steps| && Asks(steps[i], es[|es| - 1]) && Traced(steps[..i], es[..|es| - 1])
  }

  lemma TracedLater(steps: seq<Step>, step: Step, es: seq<Event>)
    requires Traced(steps, es)
    ensures Traced(steps + [step], es)
  {
    assert (steps + [step])[..|steps|] == steps;
    TracedMore(steps + [step], |steps|, es);
  }

  lemma TracedNow(steps: seq<Step>, step: Step, es: seq<Event>, e: Event)
    requires Traced(steps, es) && Asks(step, e)
    ensures Traced(steps + [step], es + [e])
  {
    var later := steps + [step];
    assert later[..|steps|] == steps && later[|steps|] == step;
    assert (es + [e])[..|es + [e]| - 1] == es;
  }

  /** Everything that is written or about to be written has a trail that was asked for. */
  ghost predicate AllTraced(q: Queue, steps: seq<Step>) {
    && (forall i :: i in q.files && q.files[i].text.Text? ==> Traced(steps, History(q.files[i].text.packet)))
    && (forall pid :: pid in q.procs ==> Traced(steps, History(q.procs[pid].plan.result)))
  }

  /** A step writes nothing but the plan of its own process, and only a start adds a plan. */
  predicate WritesPlans(q: Queue, q': Queue, pid: Pid) {
    && (forall i :: i in q'.files && q'.files[i].text.Text? ==>
          || (i in q.files && q'.files[i].text == q.files[i].text)
          || (pid in q.procs && q'.files[i].text.packet == q.procs[pid].plan.result))
    && (forall p :: p in q'.procs ==> p in q.procs && q'.procs[p].plan == q.procs[p].plan)
  }

  lemma StepWritesPlans(q: Queue, step: Step)
    requires !step.Start?
    ensures WritesPlans(q, AfterStep(q, step), step.pid)
  {
    if step.pid in q.procs {
      match step
      case Advance(pid, covers) =>
        if q.procs[pid].inPlace {
          RewriteWritesPlans(q, pid, covers);
        } else {
          MoveWritesPlans(q, pid);
        }
      case WriteError(pid) => ErrorWritesPlans(q, pid);
      case Crash(_) =>
    }
  }

  lemma RewriteWritesPlans(q: Queue, pid: Pid, covers: bool)
    requires pid in q.procs
    ensures WritesPlans(q, RewriteOn(q, pid, covers), pid)
  {
  }

  lemma MoveWritesPlans(q: Queue, pid: Pid)
    requires pid in q.procs
    ensures WritesPlans(q, MoveOn(q, pid), pid)
  {
  }

  lemma ErrorWritesPlans(q: Queue, pid: Pid)
    requires pid in q.procs
    ensures WritesPlans(q, ErrorOf(q, pid), pid)
  {
  }

  lemma StartIsTraced(q: Queue, steps: seq<Step>, step: Step)
    requires Safe(q) && AllTraced(q, steps) && step.Start?
    requires PlanOf(step.tool, step.actor, At(q, ReadsFrom(step.tool))).Some?
    ensures Traced(steps + [step],
                   History(PlanOf(step.tool, step.actor, At(q, ReadsFrom(step.tool))).value.result))
  {
    var read := At(q, ReadsFrom(step.tool));
    var result := PlanOf(step.tool, step.actor, read).value.result;
    var e := Event(Asked(step.tool), step.actor);
    PlansIff(step.tool, step.actor, read);
    PlansAreAsked(step.tool, step.actor, read);
    if step.tool.Request? {
      assert History(result) == [] + [e];
      TracedNow(steps, step, [], e);
    } else {
      SafeLanes(q, ReadsFrom(step.tool));
      assert Traced(steps, History(read.packet));
      TracedNow(steps, step, History(read.packet), e);
    }
  }

  lemma StepKeepsTraced(q: Queue, steps: seq<Step>, step: Step)
    requires Safe(q) && AllTraced(q, steps)
    ensures AllTraced(AfterStep(q, step), steps + [step])
  {
    var q' := AfterStep(q, step);
    forall i | i in q.files && q.files[i].text.Text? ensures Traced(steps + [step], History(q.files[i].text.packet)) {
      TracedLater(steps, step, History(q.files[i].text.packet));
    }
    forall pid | pid in q.procs ensures Traced(steps + [step], History(q.procs[pid].plan.result)) {
      TracedLater(steps, step, History(q.procs[pid].plan.result));
    }
    if step.Start? {
      if q' != q {
        StartIsTraced(q, steps, step);
      }
    } else {
      StepWritesPlans(q, step);
    }
  }

  lemma {:induction false} RunIsTraced(steps: seq<Step>)
    ensures Safe(AfterSteps(EMPTY, steps)) && AllTraced(AfterSteps(EMPTY, steps), steps)
    decreases |steps|
  {
    if steps != [] {
      var n := |steps| - 1;
      var before := AfterSteps(EMPTY, steps[..n]);
      RunIsTraced(steps[..n]);
      assert steps == steps[..n] + [steps[n]];
      StepsConcat(EMPTY, steps[..n], [steps[n]]);
      assert AfterSteps(before, [steps[n]]) == AfterSteps(AfterStep(before, steps[n]), []);
      StepKeepsSafe(before, steps[n]);
      StepKeepsTraced(before, steps[..n], steps[n]);
    }
  }

  /**
   * No event without a request for it.  Whatever processes do, in any interleaving and with any crashes
   * and write errors: for every event in the audit trail of a readable packet a tool was started that
   * was asked for this status by this actor, one after the other in the order of the trail.
   */
  lemma EveryEventWasAsked(steps: seq<Step>, lane: Lane)
    requires At(AfterSteps(EMPTY, steps), lane).Whole?
    ensures Traced(steps, History(At(AfterSteps(EMPTY, steps), lane).packet))
  {
    RunIsTraced(steps);
  }

  lemma TracedPrefix(steps: seq<Step>, es: seq<Event>, k: nat)
    requires Traced(steps, es) && k <= |es|
    ensures Traced(steps, es[..k])
    decreases |es|
  {
    if k < |es| {
      var i: nat :| i < |steps| && Asks(steps[i], es[|es| - 1]) && Traced(steps[..i], es[..|es| - 1]);
      TracedMore(steps, i, es[..|es| - 1]);
      TracedPrefix(steps, es[..|es| - 1], k);
      assert es[..|es| - 1][..k] == es[..k];
    } else {
      assert es[..k] == es;
    }
  }

  lemma TracedMore(steps: seq<Step>, n: nat, es: seq<Event>)
    requires n <= |steps| && Traced(steps[..n], es)
    ensures Traced(steps, es)
  {
    if es != [] {
      var i: nat :| i < n && Asks(steps[..n][i], es[|es| - 1]) && Traced(steps[..n][..i], es[..|es| - 1]);
      assert steps[..n][..i] == steps[..i] && steps[..n][i] == steps[i];
    }
  }

  /** An operator cleared the packet, and afterwards a worker claimed it, under these names. */
  ghost predicate ClearedThenClaimed(steps: seq<Step>, cleared: string, claimed: string) {
    exists i, j :: 0 <= i < j < |steps|
                   && steps[i].Start? && steps[i].tool == Decide(CTA) && steps[i].actor == cleared
                   && steps[j].Start? && steps[j].tool == Claim && steps[j].actor == claimed
  }

  /**
   * Nothing runs that was not cleared.  A packet that is in progress, done or failed was decided CTA by
   * the actor of its CTA event, in a decide call, and after that claimed in a claim call.
   */
  lemma WorkWasCleared(steps: seq<Step>, lane: Lane)
    requires At(AfterSteps(EMPTY, steps), lane).Whole?
    requires var status := At(AfterSteps(EMPTY, steps), lane).packet.status;
             status.InProgress? || status.Done? || status.Failed?
    ensures var es := History(At(AfterSteps(EMPTY, steps), lane).packet);
            && |es| >= 3 && es[1].name == CTA && es[2].name == InProgress
            && ClearedThenClaimed(steps, es[1].actor, es[2].actor)
  {
    NothingRunsUncleared(steps, lane);
    EveryEventWasAsked(steps, lane);
    SecondBeforeThird(steps, History(At(AfterSteps(EMPTY, steps), lane).packet));
  }

  lemma SecondBeforeThird(steps: seq<Step>, es: seq<Event>)
    requires Traced(steps, es) && |es| >= 3 && es[1].name == CTA && es[2].name == InProgress
    ensures ClearedThenClaimed(steps, es[1].actor, es[2].actor)
  {
    var first := es[..3];
    TracedPrefix(steps, es, 3);
    var j: nat :| j < |steps| && Asks(steps[j], first[2]) && Traced(steps[..j], first[..2]);
    var i: nat :| i < j && Asks(steps[..j][i], first[..2][1]);
    assert steps[i] == steps[..j][i] && first[..2][1] == es[1];
  }
}
