/** A loop over packet positions: what it has read after so many rounds, and when it ends. */
module ItsLoop {
  import opened ItsFraming

  /** One round of the loop, as a function of the position. */
  type Rounds = int -> Step

  /** The variables `pos` and `parsed`, or an EgressBlocked raised inside the loop. */
  datatype Progress = At(pos: int, frames: seq<Frame>) | Rejected

  predicate Over(n: nat, p: Progress) {
    p.Rejected? || p.pos >= n
  }

  function Round(next: Rounds, n: nat, p: Progress): Progress {
    if Over(n, p) then p
    else
      match next(p.pos)
      case Bad => Rejected
      case Parsed(f, _, after) => At(after, p.frames + [f])
  }

  /** The loop after k rounds, or when it ended before that. */
  function Steps(next: Rounds, n: nat, k: nat): Progress {
    if k == 0 then At(0, []) else Round(next, n, Steps(next, n, k - 1))
  }

  ghost predicate Ends(next: Rounds, n: nat) {
    exists k: nat :: Over(n, Steps(next, n, k))
  }

  /** The loop ends without an exception, having read the frames fs. */
  predicate Reads(next: Rounds, n: nat, fs: seq<Frame>) {
    var p := Steps(next, n, |fs|);
    p.At? && p.frames == fs && Over(n, p)
  }

  /** After as many rounds as fs has frames, these have been read. */
  predicate Arrives(next: Rounds, n: nat, fs: seq<Frame>, pos: int) {
    Steps(next, n, |fs|) == At(pos, fs)
  }

  lemma {:induction false} StaysOver(next: Rounds, n: nat, k: nat, j: nat)
    requires k <= j && Over(n, Steps(next, n, k))
    ensures Steps(next, n, j) == Steps(next, n, k)
    decreases j
  {
    if k < j {
      StaysOver(next, n, k, j - 1);
    }
  }

  lemma StillRunning(next: Rounds, n: nat, i: nat, j: nat)
    requires i <= j && !Over(n, Steps(next, n, j))
    ensures !Over(n, Steps(next, n, i))
  {
    if Over(n, Steps(next, n, i)) {
      StaysOver(next, n, i, j);
    }
  }

  /** A loop that goes on reads one frame a round. */
  lemma {:induction false} OneFrameARound(next: Rounds, n: nat, k: nat)
    requires !Over(n, Steps(next, n, k))
    ensures |Steps(next, n, k).frames| == k
  {
    if k > 0 {
      OneFrameARound(next, n, k - 1);
    }
  }

  /** However many rounds are looked at, an ended loop has read one list of frames. */
  lemma {:induction false} EndedReads(next: Rounds, n: nat, k: nat)
    requires Steps(next, n, k).At? && Over(n, Steps(next, n, k))
    ensures Reads(next, n, Steps(next, n, k).frames)
  {
    if k > 0 {
      if Over(n, Steps(next, n, k - 1)) {
        EndedReads(next, n, k - 1);
      } else {
        OneFrameARound(next, n, k - 1);
      }
    }
  }

  /** Earlier rounds have read a prefix. */
  lemma {:induction false} Earlier(next: Rounds, n: nat, k: nat, j: nat)
    requires j <= k && Steps(next, n, k).At?
    ensures Steps(next, n, j).At? && Steps(next, n, j).frames <= Steps(next, n, k).frames
    decreases k
  {
    if j < k {
      Earlier(next, n, k - 1, j);
    }
  }

  // ---- When the loop ends -----------------------------------------------------------------------------

  predicate Running(next: Rounds, n: nat, k: nat) {
    !Over(n, Steps(next, n, k))
  }

  /** Two rounds start at the same position. */
  predicate SamePosition(next: Rounds, n: nat, i: nat, j: nat) {
    Running(next, n, i) && Running(next, n, j) && Steps(next, n, i).pos == Steps(next, n, j).pos
  }

  ghost predicate Returns(next: Rounds, n: nat) {
    exists i: nat, j: nat :: i < j && SamePosition(next, n, i, j)
  }

  predicate SamePath(p: Progress, q: Progress) {
    p.Rejected? == q.Rejected? && (p.At? ==> p.pos == q.pos)
  }

  lemma {:induction false} PathRepeats(next: Rounds, n: nat, i: nat, j: nat, t: nat)
    requires SamePosition(next, n, i, j)
    ensures SamePath(Steps(next, n, i + t), Steps(next, n, j + t))
    decreases t
  {
    if t > 0 {
      PathRepeats(next, n, i, j, t - 1);
    }
  }

  lemma {:induction false} ReturnNeverEnds(next: Rounds, n: nat, i: nat, j: nat, k: nat)
    requires i < j && SamePosition(next, n, i, j)
    ensures Running(next, n, k)
    decreases k
  {
    if Over(n, Steps(next, n, k)) {
      if k <= j {
        StaysOver(next, n, k, j);
      } else {
        PathRepeats(next, n, i, j, k - j);
        ReturnNeverEnds(next, n, i, j, i + (k - j));
      }
    }
  }

  /** Rounds stay between the two ends of Python's index range. */
  ghost predicate Bounded(next: Rounds, n: nat) {
    forall pos: int :: next(pos).Parsed? ==> 0 < next(pos).next + n <= 2 * n
  }

  lemma {:induction false} StepsRange(next: Rounds, n: nat, k: nat)
    requires Bounded(next, n) && Steps(next, n, k).At?
    ensures 0 <= Steps(next, n, k).pos + n <= 2 * n
  {
    if k > 0 {
      StepsRange(next, n, k - 1);
    }
  }

  ghost function Visited(next: Rounds, n: nat, k: nat): set<int>
    requires forall i: nat :: i < k ==> Running(next, n, i)
  {
    assert forall i: nat :: i < k ==> Running(next, n, i) ==> Steps(next, n, i).At?;
    set i: nat | i < k :: Steps(next, n, i).pos
  }

  lemma {:induction false} VisitedCount(next: Rounds, n: nat, k: nat)
    requires forall i: nat :: i < k ==> Running(next, n, i)
    requires !Returns(next, n)
    ensures |Visited(next, n, k)| == k
  {
    if k > 0 {
      VisitedCount(next, n, k - 1);
      assert Running(next, n, k - 1);
      var last := Steps(next, n, k - 1).pos;
      assert Visited(next, n, k) == Visited(next, n, k - 1) + {last};
      if last in Visited(next, n, k - 1) {
        var i: nat :| i < k - 1 && Running(next, n, i) && Steps(next, n, i).pos == last;
        assert SamePosition(next, n, i, k - 1);
      }
    }
  }

  /** So many different integers fit between two bounds. */
  lemma {:induction false} AtMost(a: set<int>, lo: int, hi: int)
    requires lo <= hi && forall x :: x in a ==> lo <= x < hi
    ensures |a| <= hi - lo
    decreases hi - lo
  {
    if lo == hi {
      assert a == {};
    } else {
      AtMost(a - {hi - 1}, lo, hi - 1);
    }
  }

  /** The loop ends exactly when no two rounds start at the same position. */
  lemma EndsIff(next: Rounds, n: nat)
    requires Bounded(next, n)
    ensures Ends(next, n) <==> !Returns(next, n)
  {
    if Returns(next, n) {
      var i: nat, j: nat :| i < j && SamePosition(next, n, i, j);
      forall k: nat ensures !Over(n, Steps(next, n, k)) {
        ReturnNeverEnds(next, n, i, j, k);
        assert Running(next, n, k);
      }
    } else if !Ends(next, n) {
      var k := 2 * n + 1;
      forall i: nat ensures Running(next, n, i) && 0 <= Steps(next, n, i).pos + n < 2 * n {
        assert !Over(n, Steps(next, n, i));
        StepsRange(next, n, i);
      }
      VisitedCount(next, n, k);
      var m: int := n;
      AtMost(Visited(next, n, k), -m, m);
    }
  }
}
