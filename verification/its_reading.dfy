/**
 * The while loop of `verify_its_composition` (tools/clearwright_egress_guard.py): when what it has read
 * is the packet, and when it ends.
 */
module ItsReading {
  import opened ItsFraming
  import opened ItsLoop

  function RoundsOf(sha: Bytes -> Bytes, data: Bytes): Rounds {
    (pos: int) => Next(sha, data, pos)
  }

  /** The loop over a packet ends without an exception, having read the frames fs. */
  predicate PacketReads(sha: Bytes -> Bytes, data: Bytes, fs: seq<Frame>) {
    Reads(RoundsOf(sha, data), |data|, fs)
  }

  ghost predicate PacketEnds(sha: Bytes -> Bytes, data: Bytes) {
    Ends(RoundsOf(sha, data), |data|)
  }

  predicate AllReadable(sha: Bytes -> Bytes, fs: seq<Frame>) {
    forall i :: 0 <= i < |fs| ==> Readable(sha, fs[i])
  }

  predicate NonNegative(f: Frame) {
    ParseInt(f.lenText).Some? && ParseInt(f.lenText).value >= 0
  }

  predicate AllNonNegative(fs: seq<Frame>) {
    forall i :: 0 <= i < |fs| ==> NonNegative(fs[i])
  }

  /** No header that the loop reads has a negative length. */
  ghost predicate NoNegativeLength(sha: Bytes -> Bytes, data: Bytes) {
    NeverNegative(RoundsOf(sha, data), |data|)
  }

  ghost predicate NeverNegative(next: Rounds, n: nat) {
    forall k: nat :: Steps(next, n, k).At? ==> AllNonNegative(Steps(next, n, k).frames)
  }

  // ---- What one round does, as far as the loop is concerned --------------------------------------------

  predicate ExactAt(sha: Bytes -> Bytes, data: Bytes, pos: nat, s: Step) {
    s.Parsed? && NonNegative(s.frame) ==>
      && Readable(sha, s.frame) && s.next == pos + |FrameBytes(s.frame)| && Has(data, pos, FrameBytes(s.frame))
  }

  ghost predicate Exact(sha: Bytes -> Bytes, data: Bytes, next: Rounds) {
    forall pos: nat :: pos <= |data| ==> ExactAt(sha, data, pos, next(pos))
  }

  predicate FrameAt(sha: Bytes -> Bytes, data: Bytes, pos: nat, f: Frame) {
    Readable(sha, f) && Has(data, pos, FrameBytes(f))
  }

  ghost predicate Complete(sha: Bytes -> Bytes, data: Bytes, next: Rounds) {
    forall pos: nat, f :: FrameAt(sha, data, pos, f) ==> next(pos) == Parsed(f, |f.content|, pos + |FrameBytes(f)|)
  }

  lemma NextIsExact(sha: Bytes -> Bytes, data: Bytes, pos: nat)
    requires pos <= |data|
    ensures ExactAt(sha, data, pos, Next(sha, data, pos))
  {
    if Next(sha, data, pos).Parsed? {
      var nl, fields := NextShape(sha, data, pos);
      BodyFields(sha, data, nl, fields, Next(sha, data, pos).length);
      if Next(sha, data, pos).length >= 0 {
        NextInverts(sha, data, pos);
      }
    }
  }

  lemma BodyFields(sha: Bytes -> Bytes, data: Bytes, nl: nat, fields: seq<Bytes>, length: int)
    requires |fields| == 5 && Body(sha, data, nl, fields, length).Parsed?
    ensures var s := Body(sha, data, nl, fields, length);
            && s.frame.kind == fields[0] && s.frame.ident == fields[1] && s.frame.lenText == fields[2]
            && s.frame.sha == fields[3] == sha(s.frame.content) && s.length == length
    ensures -|data| < Body(sha, data, nl, fields, length).next <= |data|
  {
  }

  lemma NextInRange(sha: Bytes -> Bytes, data: Bytes, pos: int)
    requires Next(sha, data, pos).Parsed?
    ensures -|data| < Next(sha, data, pos).next <= |data|
  {
    NextAtPlace(sha, data, pos);
    var nl, fields := NextShape(sha, data, Place(data, pos));
    BodyFields(sha, data, nl, fields, Next(sha, data, pos).length);
  }

  lemma RoundsAre(sha: Bytes -> Bytes, data: Bytes)
    ensures Exact(sha, data, RoundsOf(sha, data)) && Complete(sha, data, RoundsOf(sha, data))
    ensures Bounded(RoundsOf(sha, data), |data|)
  {
    var next := RoundsOf(sha, data);
    forall pos: nat | pos <= |data| ensures ExactAt(sha, data, pos, next(pos)) {
      NextIsExact(sha, data, pos);
    }
    forall pos: nat, f | FrameAt(sha, data, pos, f)
      ensures next(pos) == Parsed(f, |f.content|, pos + |FrameBytes(f)|)
    {
      NextReads(sha, data, pos, f);
    }
    forall pos: int | next(pos).Parsed? ensures 0 < next(pos).next + |data| <= 2 * |data| {
      NextInRange(sha, data, pos);
    }
  }

  // ---- When what was read is the packet ------------------------------------------------------------------

  /** As long as no length is negative, the frames are the part of the packet before the position. */
  lemma {:induction false} ForwardIsExact(sha: Bytes -> Bytes, data: Bytes, next: Rounds, k: nat)
    requires Exact(sha, data, next)
    requires Steps(next, |data|, k).At? && AllNonNegative(Steps(next, |data|, k).frames)
    ensures var p := Steps(next, |data|, k);
            0 <= p.pos <= |data| && data[..p.pos] == Concat(p.frames) && AllReadable(sha, p.frames)
  {
    if k == 0 {
      assert data[..0] == [];
    } else {
      var p, q := Steps(next, |data|, k - 1), Steps(next, |data|, k);
      Earlier(next, |data|, k, k - 1);
      ForwardIsExact(sha, data, next, k - 1);
      if !Over(|data|, p) {
        assert q.frames == p.frames + [q.frames[|p.frames|]] && NonNegative(q.frames[|p.frames|]);
        assert ExactAt(sha, data, p.pos, next(p.pos));
        ForwardStep(sha, data, p.pos, p.frames, next(p.pos));
      }
    }
  }

  lemma ForwardStep(sha: Bytes -> Bytes, data: Bytes, pos: nat, fs: seq<Frame>, s: Step)
    requires pos < |data| && data[..pos] == Concat(fs) && AllReadable(sha, fs)
    requires ExactAt(sha, data, pos, s) && s.Parsed? && NonNegative(s.frame)
    ensures pos < s.next <= |data| && data[..s.next] == Concat(fs + [s.frame]) && AllReadable(sha, fs + [s.frame])
  {
    ConcatLast(fs, s.frame);
    assert data[..s.next] == data[..pos] + data[pos..s.next];
  }

  /** The i-th frame of a packet is where the frames before it end. */
  lemma ReadableAt(sha: Bytes -> Bytes, fs: seq<Frame>, i: nat)
    requires AllReadable(sha, fs) && i < |fs|
    ensures FrameAt(sha, Concat(fs), |Concat(fs[..i])|, fs[i])
    ensures fs[..i + 1] == fs[..i] + [fs[i]] && |Concat(fs[..i + 1])| == |Concat(fs[..i])| + |FrameBytes(fs[i])|
  {
    FrameInConcat(fs, i);
    assert Readable(sha, fs[i]);
  }

  /** A packet of readable frames is read frame by frame. */
  lemma {:induction false} ReadsFrames(sha: Bytes -> Bytes, data: Bytes, next: Rounds, fs: seq<Frame>, i: nat)
    requires Complete(sha, data, next) && data == Concat(fs) && AllReadable(sha, fs) && i <= |fs|
    ensures Steps(next, |data|, i) == At(|Concat(fs[..i])|, fs[..i])
  {
    if i == 0 {
      assert fs[..0] == [];
    } else {
      ReadsFrames(sha, data, next, fs, i - 1);
      ReadableAt(sha, fs, i - 1);
      ReadsOne(sha, data, next, i - 1, |Concat(fs[..i - 1])|, fs[..i - 1], fs[i - 1]);
    }
  }

  lemma ReadsOne(sha: Bytes -> Bytes, data: Bytes, next: Rounds, k: nat, pos: nat, fs: seq<Frame>, f: Frame)
    requires Complete(sha, data, next) && FrameAt(sha, data, pos, f)
    requires Steps(next, |data|, k) == At(pos, fs)
    ensures Steps(next, |data|, k + 1) == At(pos + |FrameBytes(f)|, fs + [f])
  {
    assert FrameBytes(f) != [];
  }

  /** Where a frame of a packet starts. */
  lemma FrameInConcat(fs: seq<Frame>, i: nat)
    requires i < |fs|
    ensures Has(Concat(fs), |Concat(fs[..i])|, FrameBytes(fs[i]))
    ensures |Concat(fs[..i + 1])| == |Concat(fs[..i])| + |FrameBytes(fs[i])| <= |Concat(fs)|
  {
    var data, f, pos := Concat(fs), fs[i], |Concat(fs[..i])|;
    ConcatSplits(fs, i);
    ConcatCons(f, fs[i + 1..]);
    ConcatLast(fs[..i], f);
    assert fs[i..] == [f] + fs[i + 1..] && fs[..i + 1] == fs[..i] + [f];
    SuffixSplits(data, pos, FrameBytes(f), Concat(fs[i + 1..]));
  }

  /**
   * The loop ends with the frames fs and met no negative length exactly when the packet is, byte for
   * byte, these readable frames and nothing else.
   */
  lemma ReadIff(sha: Bytes -> Bytes, data: Bytes, fs: seq<Frame>)
    ensures PacketReads(sha, data, fs) && AllNonNegative(fs) <==> data == Concat(fs) && AllReadable(sha, fs)
  {
    var next := RoundsOf(sha, data);
    RoundsAre(sha, data);
    if PacketReads(sha, data, fs) && AllNonNegative(fs) {
      ForwardIsExact(sha, data, next, |fs|);
      assert data[..|data|] == data;
    }
    if data == Concat(fs) && AllReadable(sha, fs) {
      ReadsFrames(sha, data, next, fs, |fs|);
      assert fs[..|fs|] == fs;
      assert forall i :: 0 <= i < |fs| ==> Readable(sha, fs[i]);
    }
  }

  lemma ReadForward(next: Rounds, n: nat, fs: seq<Frame>)
    requires Reads(next, n, fs)
    ensures AllNonNegative(fs) <==> NeverNegative(next, n)
  {
    if AllNonNegative(fs) {
      forall k: nat | Steps(next, n, k).At? ensures AllNonNegative(Steps(next, n, k).frames) {
        if k <= |fs| {
          Earlier(next, n, |fs|, k);
        } else {
          StaysOver(next, n, |fs|, k);
        }
      }
    }
    if NeverNegative(next, n) {
      assert Steps(next, n, |fs|).At?;
    }
  }

  // ---- When the loop ends -----------------------------------------------------------------------------

  /** The loop over a packet ends exactly when no two of its rounds start at the same position. */
  lemma PacketEndsIff(sha: Bytes -> Bytes, data: Bytes)
    ensures PacketEnds(sha, data) <==> !Returns(RoundsOf(sha, data), |data|)
  {
    RoundsAre(sha, data);
    EndsIff(RoundsOf(sha, data), |data|);
  }

  lemma LastFrame(next: Rounds, n: nat, k: nat)
    requires NeverNegative(next, n) && Running(next, n, k) && Running(next, n, k + 1)
    ensures var s := next(Steps(next, n, k).pos);
            s.Parsed? && NonNegative(s.frame) && Steps(next, n, k + 1).pos == s.next
  {
    var p, q := Steps(next, n, k), Steps(next, n, k + 1);
    assert q.frames == p.frames + [next(p.pos).frame] && AllNonNegative(q.frames);
    assert q.frames[|p.frames|] == next(p.pos).frame;
  }

  lemma ForwardMoves(sha: Bytes -> Bytes, data: Bytes, next: Rounds, k: nat)
    requires Exact(sha, data, next) && NeverNegative(next, |data|)
    requires Running(next, |data|, k) && Running(next, |data|, k + 1)
    ensures Steps(next, |data|, k).pos < Steps(next, |data|, k + 1).pos
  {
    var p := Steps(next, |data|, k);
    LastFrame(next, |data|, k);
    assert AllNonNegative(p.frames);
    ForwardIsExact(sha, data, next, k);
    assert ExactAt(sha, data, p.pos, next(p.pos));
    ForwardStep(sha, data, p.pos, p.frames, next(p.pos));
  }

  lemma {:induction false} ForwardGrows(sha: Bytes -> Bytes, data: Bytes, next: Rounds, i: nat, j: nat)
    requires Exact(sha, data, next) && NeverNegative(next, |data|)
    requires i < j && Running(next, |data|, i) && Running(next, |data|, j)
    ensures Steps(next, |data|, i).pos < Steps(next, |data|, j).pos
    decreases j
  {
    StillRunning(next, |data|, j - 1, j);
    ForwardMoves(sha, data, next, j - 1);
    if i < j - 1 {
      ForwardGrows(sha, data, next, i, j - 1);
    }
  }

  /** Only a negative length can keep the loop from ending. */
  lemma ForwardEnds(sha: Bytes -> Bytes, data: Bytes)
    requires NoNegativeLength(sha, data)
    ensures PacketEnds(sha, data)
  {
    var next := RoundsOf(sha, data);
    RoundsAre(sha, data);
    EndsIff(next, |data|);
    if Returns(next, |data|) {
      var i: nat, j: nat :| i < j && SamePosition(next, |data|, i, j);
      ForwardGrows(sha, data, next, i, j);
    }
  }
}
