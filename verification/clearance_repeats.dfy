/**
 * Work that can be done twice: a claim checks its destination after it has written it, and takes a
 * packet that is already finished for one that was never written.
 */
module ClearanceRepeats {
  import opened Wrappers
  import opened Clearance
  import opened ClearanceLoss

  /** A claims and writes; B finishes the packet before A has checked it; A checks and rolls back. */
  function FinishedBeforeChecked(a: string, b: string): seq<Step> {
    [Start(0, Claim, a), Advance(0, false), Advance(0, false),
     Start(1, Finish(Done), b), Advance(1, false), Advance(1, false), Advance(1, false), Advance(1, false),
     Advance(0, false), Advance(0, false)]
  }

  function Mover(src: Lane, dest: Lane, result: Packet, phase: Phase): Process {
    Process(false, Plan(Some(src), dest, result), phase)
  }

  /** The cleared packet, and what A has written of its claim. */
  function Claiming(p: Packet, w: Packet, text: Text, phase: Phase): Queue {
    Queue(map[Outbox := 0, Working := 1], None, map[0 := File(Outbox, Text(p)), 1 := File(Working, text)], 2,
          map[0 := Mover(Outbox, Working, w, phase)])
  }

  /** B has created its file while A is about to check. */
  function Finishing(p: Packet, w: Packet, f: Packet, text: Text, phase: Phase): Queue {
    Queue(map[Outbox := 0, Working := 1, DoneLane := 2], None,
          map[0 := File(Outbox, Text(p)), 1 := File(Working, Text(w)), 2 := File(DoneLane, text)], 3,
          map[0 := Mover(Outbox, Working, w, Written), 1 := Mover(Working, DoneLane, f, phase)])
  }

  /** B is done, and the file that A wrote has left its lane. */
  function Finished(p: Packet, w: Packet, f: Packet, procs: map<Pid, Process>): Queue {
    Finishing(p, w, f, Text(f), Written).(paths := map[Outbox := 0, DoneLane := 2], procs := procs)
  }

  predicate Claimable(p: Packet) {
    Passes(Outbox, p) && p.lease
  }

  lemma AClaims(p: Packet, a: string)
    requires Claimable(p)
    ensures var w := BuildClaimed(p, a);
            && Passes(Working, w)
            && AfterStep(Resting(p), Start(0, Claim, a))
               == Resting(p).(procs := map[0 := Mover(Outbox, Working, w, Planned)])
  {
  }

  lemma AWrites(p: Packet, w: Packet)
    ensures AfterStep(Resting(p).(procs := map[0 := Mover(Outbox, Working, w, Planned)]), Advance(0, false))
            == Claiming(p, w, Empty, Creating(1))
    ensures AfterStep(Claiming(p, w, Empty, Creating(1)), Advance(0, false)) == Claiming(p, w, Text(w), Written)
  {
    assert map[Outbox := 0][Working := 1] == map[Outbox := 0, Working := 1];
  }

  lemma BStarts(p: Packet, w: Packet, b: string)
    requires Passes(Working, w)
    ensures var f := BuildTransition(w, Done, b);
            && Passes(DoneLane, f)
            && AfterStep(Claiming(p, w, Text(w), Written), Start(1, Finish(Done), b))
               == Claiming(p, w, Text(w), Written).(procs := map[0 := Mover(Outbox, Working, w, Written),
                                                                 1 := Mover(Working, DoneLane, f, Planned)])
  {
    assert At(Claiming(p, w, Text(w), Written), Working) == Whole(w);
  }

  lemma BWrites(p: Packet, w: Packet, f: Packet)
    requires Passes(DoneLane, f)
    ensures AfterStep(Claiming(p, w, Text(w), Written).(procs := map[0 := Mover(Outbox, Working, w, Written),
                                                                     1 := Mover(Working, DoneLane, f, Planned)]),
                      Advance(1, false))
            == Finishing(p, w, f, Empty, Creating(2))
    ensures AfterStep(Finishing(p, w, f, Empty, Creating(2)), Advance(1, false)) == Finishing(p, w, f, Text(f), Written)
    ensures AfterStep(Finishing(p, w, f, Text(f), Written), Advance(1, false)) == Finishing(p, w, f, Text(f), Verified)
  {
    assert At(Finishing(p, w, f, Text(f), Written), DoneLane) == Whole(f);
  }

  lemma BRemoves(p: Packet, w: Packet, f: Packet)
    ensures AfterStep(Finishing(p, w, f, Text(f), Verified), Advance(1, false))
            == Finished(p, w, f, map[0 := Mover(Outbox, Working, w, Written)])
  {
    var q := Finishing(p, w, f, Text(f), Verified);
    assert q.paths - {Working} == map[Outbox := 0, DoneLane := 2];
    assert q.procs - {1} == map[0 := Mover(Outbox, Working, w, Written)];
  }

  lemma ARollsBack(p: Packet, w: Packet, f: Packet)
    ensures AfterStep(Finished(p, w, f, map[0 := Mover(Outbox, Working, w, Written)]), Advance(0, false))
            == Finished(p, w, f, map[0 := Mover(Outbox, Working, w, RollingBack)])
    ensures AfterStep(Finished(p, w, f, map[0 := Mover(Outbox, Working, w, RollingBack)]), Advance(0, false))
            == Finished(p, w, f, map[])
  {
    var q := Finished(p, w, f, map[0 := Mover(Outbox, Working, w, RollingBack)]);
    assert At(q, Working) == Absent;
    assert q.paths - {Working} == q.paths && q.procs - {0} == map[];
  }

  lemma RunEnds(p: Packet, a: string, b: string)
    requires Claimable(p)
    ensures var w := BuildClaimed(p, a);
            var f := BuildTransition(w, Done, b);
            AfterSteps(Resting(p), FinishedBeforeChecked(a, b)) == Finished(p, w, f, map[])
  {
    var w := BuildClaimed(p, a);
    var f := BuildTransition(w, Done, b);
    var s := FinishedBeforeChecked(a, b);
    AClaims(p, a);
    AWrites(p, w);
    BStarts(p, w, b);
    BWrites(p, w, f);
    BRemoves(p, w, f);
    ARollsBack(p, w, f);
    assert s[..0] == [] && s[..10] == s;
    FirstFive(p, s);
    OneMore(Resting(p), s, 5);
    OneMore(Resting(p), s, 6);
    OneMore(Resting(p), s, 7);
    OneMore(Resting(p), s, 8);
    OneMore(Resting(p), s, 9);
  }

  lemma FirstFive(p: Packet, s: seq<Step>)
    requires |s| >= 5
    ensures AfterSteps(Resting(p), s[..5])
            == AfterStep(AfterStep(AfterStep(AfterStep(AfterStep(Resting(p), s[0]), s[1]), s[2]), s[3]), s[4])
  {
    assert s[..0] == [];
    OneMore(Resting(p), s, 0);
    OneMore(Resting(p), s, 1);
    OneMore(Resting(p), s, 2);
    OneMore(Resting(p), s, 3);
    OneMore(Resting(p), s, 4);
  }

  /**
   * A claim that is overtaken can be made again.  No process crashed and no write failed: the packet is
   * done, the cleared packet still waits in the outbox, and the next claim of it is accepted.
   */
  lemma DoneAndStillClaimable(p: Packet, a: string, b: string, c: string)
    requires Claimable(p)
    ensures var q := AfterSteps(Resting(p), FinishedBeforeChecked(a, b));
            && At(q, Outbox) == Whole(p)
            && At(q, DoneLane).Whole? && At(q, DoneLane).packet.status.Done?
            && At(q, Working) == Absent && q.procs == map[]
            && PlanOf(Claim, c, At(q, Outbox)).Some?
  {
    RunEnds(p, a, b);
    AClaims(p, c);
  }

  /**
   * When that happens.  A mover that has written its packet removes its source iff the packet is still
   * readable in the destination lane when it looks; otherwise it removes whatever is there instead and
   * leaves the source for the next one.
   */
  lemma SourceGoesIff(q: Queue, pid: Pid)
    requires Safe(q) && pid in q.procs && !q.procs[pid].inPlace && q.procs[pid].phase.Written?
    requires q.procs[pid].plan.src.Some? && q.procs[pid].plan.src.value in q.paths
    ensures var plan := q.procs[pid].plan;
            var q' := AfterStep(AfterStep(q, Advance(pid, false)), Advance(pid, false));
            && pid !in q'.procs
            && (plan.src.value !in q'.paths <==> At(q, plan.dest).Whole?)
            && (plan.dest in q'.paths <==> At(q, plan.dest).Whole?)
  {
    var plan := q.procs[pid].plan;
    assert ProcessOk(q, q.procs[pid]) && PathOk(q, plan.dest);
    if At(q, plan.dest).Whole? {
      SafeLanes(q, plan.dest);
    }
  }
}
