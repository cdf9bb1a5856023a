/**
 * Negative lengths.  int() takes them, and the loop then goes on in front of where it was: it may
 * accept packets that nothing prints, and it may not end.
 */
module ItsLengths {
  import opened Wrappers
  import opened ItsFraming
  import opened ItsLoop
  import opened ItsReading
  import opened ItsPackets

  /** SHA-256 in hexadecimal digits. */
  ghost predicate Hex64(sha: Bytes -> Bytes) {
    HexDigest(sha) && forall b :: |sha(b)| == 64
  }

  /** The header of a frame with its newline, and nothing after it. */
  function HeaderLine(f: Frame): Bytes {
    MARK + (Header(f) + [NL])
  }

  lemma HeaderLineLength(f: Frame)
    ensures |HeaderLine(f)| == |f.kind| + |f.ident| + |f.lenText| + |f.sha| + 11
    ensures FrameBytes(f) == HeaderLine(f) + (f.content + [NL])
  {
    var f3 := Fields(f)[3..];
    assert f3[1..] == [[]] && Join(f3) == f.sha + ([US] + Join(f3[1..]));
    var f2 := Fields(f)[2..];
    assert f2[1..] == f3 && Join(f2) == f.lenText + ([US] + Join(f3));
    var f1 := Fields(f)[1..];
    assert f1[1..] == f2 && Join(f1) == f.ident + ([US] + Join(f2));
    assert Header(f) == f.kind + ([US] + Join(f1));
  }

  predicate CleanFields(f: Frame) {
    Clean(f.kind) && Clean(f.ident) && Clean(f.lenText) && Clean(f.sha)
  }

  lemma HeaderOfLine(data: Bytes, pos: nat, f: Frame)
    requires NL !in Header(f) && Has(data, pos, HeaderLine(f))
    ensures var nl := pos + |HeaderLine(f)| - 1;
            nl == pos + |MARK| + |Header(f)| <= |data| && HeaderEnd(data, pos) == Some(nl)
            && data[pos + |MARK|..nl] == Header(f)
  {
    var h := Header(f);
    HasBoth(data, pos, MARK, h + [NL]);
    HasBoth(data, pos + |MARK|, h, [NL]);
    HeaderFound(data, pos, h);
  }

  /** A round at a header line, whatever its length says. */
  lemma NextAtHeader(sha: Bytes -> Bytes, data: Bytes, pos: nat, f: Frame, length: int)
    requires CleanFields(f) && Has(data, pos, HeaderLine(f)) && ParseInt(f.lenText) == Some(length)
    ensures Next(sha, data, pos) == Body(sha, data, pos + |HeaderLine(f)| - 1, Fields(f), length)
  {
    HeaderReads(f);
    HeaderOfLine(data, pos, f);
    NextIsBody(sha, data, pos, pos + |HeaderLine(f)| - 1, Header(f), Fields(f), length);
  }

  /** An empty content "before" the header: what a negative length in front of the packet reads. */
  lemma BodyGoesBack(sha: Bytes -> Bytes, data: Bytes, nl: nat, f: Frame, length: int)
    requires length < 0 <= nl + 1 + length < |data| && data[nl + 1 + length] == NL
    requires f.sha == sha([]) && f.content == []
    ensures Body(sha, data, nl, Fields(f), length) == Parsed(f, length, nl + 2 + length)
  {
    assert data[nl + 1 + length..nl + 2 + length] == [NL];
  }

  /** A header line whose length leads back to a newline reads an empty content and goes on behind it. */
  lemma NextGoesBack(sha: Bytes -> Bytes, data: Bytes, pos: nat, f: Frame, length: int)
    requires CleanFields(f) && Has(data, pos, HeaderLine(f)) && ParseInt(f.lenText) == Some(length)
    requires f.sha == sha([]) && f.content == []
    requires var end := pos + |HeaderLine(f)| + length; length < 0 <= end < |data| && data[end] == NL
    ensures Next(sha, data, pos) == Parsed(f, length, pos + |HeaderLine(f)| + length + 1)
  {
    NextAtHeader(sha, data, pos, f, length);
    BodyGoesBack(sha, data, pos + |HeaderLine(f)| - 1, f, length);
  }

  /** The last character of a piece of the packet. */
  lemma LastOf(data: Bytes, pos: nat, piece: Bytes)
    requires Has(data, pos, piece) && piece != []
    ensures data[pos + |piece| - 1] == piece[|piece| - 1]
  {
    assert data[pos..pos + |piece|][|piece| - 1] == data[pos + |piece| - 1];
  }

  lemma NotAllForward(sha: Bytes -> Bytes, data: Bytes, fs: seq<Frame>, i: nat)
    requires PacketReads(sha, data, fs) && i < |fs| && !NonNegative(fs[i])
    ensures !NoNegativeLength(sha, data)
  {
    ReadForward(RoundsOf(sha, data), |data|, fs);
  }

  /** Where a negative length is read, nothing was printed; this needs no assumption about the hash. */
  lemma PrintedIsForward(sha: Bytes -> Bytes, registry: Registry, data: Bytes, composition: Composition)
    ensures forall version :: IsPrinted(sha, registry, data, composition, version) ==> NoNegativeLength(sha, data)
  {
    forall version | IsPrinted(sha, registry, data, composition, version) ensures NoNegativeLength(sha, data) {
      var fs: seq<Frame> :|
        data == Concat(fs) && AllReadable(sha, fs) && PrintedLike(sha, registry, fs, composition, version);
      ReadIff(sha, data, fs);
      ReadForward(RoundsOf(sha, data), |data|, fs);
    }
  }

  lemma RoundIs(sha: Bytes -> Bytes, data: Bytes, pos: int, s: Step)
    requires Next(sha, data, pos) == s
    ensures RoundsOf(sha, data)(pos) == s
  {
  }

  /** Two more rounds. */
  lemma ThenTwoRounds(next: Rounds, n: nat, fs: seq<Frame>, pos: int, s: Step, t: Step)
    requires Arrives(next, n, fs, pos) && pos < n && next(pos) == s
    requires s.Parsed? && t.Parsed? && s.next < n && next(s.next) == t
    ensures Arrives(next, n, fs + [s.frame], s.next) && Arrives(next, n, fs + [s.frame, t.frame], t.next)
  {
    RoundAt(next, n, |fs|, pos, fs, s);
    RoundAt(next, n, |fs| + 1, s.next, fs + [s.frame], t);
    assert fs + [s.frame] + [t.frame] == fs + [s.frame, t.frame];
  }

  /** The first two rounds of a loop. */
  lemma TwoRounds(next: Rounds, n: nat, s: Step, t: Step)
    requires s.Parsed? && t.Parsed? && 0 < n && s.next < n && next(0) == s && next(s.next) == t
    ensures Arrives(next, n, [s.frame], s.next) && Arrives(next, n, [s.frame, t.frame], t.next)
  {
    ThenTwoRounds(next, n, [], 0, s, t);
    assert [] + [s.frame] == [s.frame] && [] + [s.frame, t.frame] == [s.frame, t.frame];
  }

  // ---- A packet that ends in a header -------------------------------------------------------------------

  /** The header of an empty component; its "content" is the newline of the header itself. */
  function Trailing(sha: Bytes -> Bytes, id: Bytes): Frame {
    Frame(COMPONENT, id, "-1", sha([]), [])
  }

  function TrailingPacket(sha: Bytes -> Bytes, version: Bytes, scaffold: Bytes, id: Bytes): Bytes {
    FrameBytes(Printed(sha, SCAFFOLD, version, scaffold)) + HeaderLine(Trailing(sha, id))
  }

  /** Where a frame and a header line after it are. */
  lemma FrameThenHeader(f: Frame, t: Frame)
    ensures var data, start := FrameBytes(f) + HeaderLine(t), |FrameBytes(f)|;
            && Has(data, 0, FrameBytes(f)) && Has(data, start, HeaderLine(t))
            && 0 < start < |data| && data[start - 1] == NL && data[|data| - 1] == NL
  {
    var first, line := FrameBytes(f), HeaderLine(t);
    var data := first + line;
    HeaderLineLength(f);
    HeaderLineLength(t);
    assert data[0..|first|] == first && data[|first|..|first| + |line|] == line;
    LastOf(data, 0, first);
    LastOf(data, |first|, line);
  }

  lemma TrailingBack(sha: Bytes -> Bytes, s: Frame, t: Frame)
    requires HexDigest(sha) && t == Trailing(sha, t.ident) && Clean(t.ident)
    ensures var data := FrameBytes(s) + HeaderLine(t);
            RoundsOf(sha, data)(|FrameBytes(s)|) == Parsed(t, -1, |data|)
  {
    var data, start := FrameBytes(s) + HeaderLine(t), |FrameBytes(s)|;
    FrameThenHeader(s, t);
    MinusOne();
    CleanSamples();
    NextGoesBack(sha, data, start, t, -1);
    RoundIs(sha, data, start, Parsed(t, -1, |data|));
  }

  lemma FirstRound(sha: Bytes -> Bytes, s: Frame, t: Frame)
    requires Readable(sha, s)
    ensures var data := FrameBytes(s) + HeaderLine(t);
            RoundsOf(sha, data)(0) == Parsed(s, |s.content|, |FrameBytes(s)|)
  {
    var data := FrameBytes(s) + HeaderLine(t);
    FrameThenHeader(s, t);
    NextReads(sha, data, 0, s);
    RoundIs(sha, data, 0, Parsed(s, |s.content|, |FrameBytes(s)|));
  }

  lemma TrailingReads(sha: Bytes -> Bytes, version: Bytes, scaffold: Bytes, id: Bytes)
    requires HexDigest(sha) && Clean(version) && Clean(id)
    ensures PacketReads(sha, TrailingPacket(sha, version, scaffold, id),
                        [Printed(sha, SCAFFOLD, version, scaffold), Trailing(sha, id)])
  {
    var s, t := Printed(sha, SCAFFOLD, version, scaffold), Trailing(sha, id);
    var data, start := TrailingPacket(sha, version, scaffold, id), |FrameBytes(s)|;
    PrintedIsReadable(sha, SCAFFOLD, version, scaffold);
    FrameThenHeader(s, t);
    FirstRound(sha, s, t);
    TrailingBack(sha, s, t);
    var first, second := Parsed(s, |scaffold|, start), Parsed(t, -1, |data|);
    TwoRounds(RoundsOf(sha, data), |data|, first, second);
  }

  lemma CleanSamples()
    ensures Clean("a") && Clean("b") && Clean("c") && Clean("90") && Clean("-1") && Clean("-178") && Clean(COMPONENT)
  {
  }

  lemma MinusOne()
    ensures ParseInt("-1") == Some(-1)
  {
  }

  /** It is accepted although it is not a sequence of frames, and without any step back. */
  lemma TrailingHeaderAccepted(sha: Bytes -> Bytes, registry: Registry, version: Bytes, id: Bytes)
    requires HexDigest(sha) && version in registry && Clean(version) && Clean(id)
    ensures var data := TrailingPacket(sha, version, registry[version], id);
            var composition := ManifestOf(sha, registry[version], [Component(id, [])]);
            && Verify(sha, registry, data, composition) == Accepted(version, 1)
            && !NoNegativeLength(sha, data)
            && forall v :: !IsPrinted(sha, registry, data, composition, v)
  {
    var data := TrailingPacket(sha, version, registry[version], id);
    var composition := ManifestOf(sha, registry[version], [Component(id, [])]);
    var fs := [Printed(sha, SCAFFOLD, version, registry[version]), Trailing(sha, id)];
    TrailingReads(sha, version, registry[version], id);
    VerdictOfRead(sha, registry, data, composition, fs);
    assert BoundsOf(fs[1..]) == composition.components;
    MinusOne();
    NotAllForward(sha, data, fs, 1);
    PrintedIsForward(sha, registry, data, composition);
  }

  // ---- A loop without end ---------------------------------------------------------------------------------

  /** A header whose length leads back to its own mark. */
  function Backlink(sha: Bytes -> Bytes): Frame {
    Frame(SCAFFOLD, [], "-87", sha([]), [])
  }

  lemma MinusEightySeven()
    ensures ParseInt("-87") == Some(-87)
  {
  }

  lemma BacklinkReturns(sha: Bytes -> Bytes, f: Frame)
    requires Hex64(sha)
    ensures var data := FrameBytes(f) + HeaderLine(Backlink(sha));
            RoundsOf(sha, data)(|FrameBytes(f)|) == Parsed(Backlink(sha), -87, |FrameBytes(f)|)
  {
    var b, start := Backlink(sha), |FrameBytes(f)|;
    var data := FrameBytes(f) + HeaderLine(b);
    FrameThenHeader(f, b);
    HeaderLineLength(b);
    MinusEightySeven();
    NextGoesBack(sha, data, start, b, -87);
    RoundIs(sha, data, start, Parsed(b, -87, start));
  }

  lemma Circles(next: Rounds, n: nat, fs: seq<Frame>, gs: seq<Frame>, pos: int)
    requires Arrives(next, n, fs, pos) && Arrives(next, n, gs, pos) && pos < n && |fs| < |gs|
    ensures Returns(next, n)
  {
    assert SamePosition(next, n, |fs|, |gs|);
  }

  /** After any readable frame, the header above makes the loop return to its own position for ever. */
  lemma NegativeLengthLoops(sha: Bytes -> Bytes, registry: Registry, composition: Composition, f: Frame)
    requires Hex64(sha) && Readable(sha, f)
    ensures Verify(sha, registry, FrameBytes(f) + HeaderLine(Backlink(sha)), composition) == Endless
  {
    var b, start := Backlink(sha), |FrameBytes(f)|;
    var data := FrameBytes(f) + HeaderLine(b);
    FrameThenHeader(f, b);
    FirstRound(sha, f, b);
    BacklinkReturns(sha, f);
    TwoRounds(RoundsOf(sha, data), |data|, Parsed(f, |f.content|, start), Parsed(b, -87, start));
    Circles(RoundsOf(sha, data), |data|, [f], [f, b], start);
    PacketEndsIff(sha, data);
  }

  // ---- Overlapping frames -----------------------------------------------------------------------------------

  /** The component whose length leads back into the content of the component before it. */
  function Back(sha: Bytes -> Bytes): Frame {
    Frame(COMPONENT, "b", "-178", sha([]), [])
  }

  /** The component hidden in that content; its own content is the header of Back. */
  function Hidden(sha: Bytes -> Bytes): Frame {
    var content := [NL] + HeaderLine(Back(sha));
    Frame(COMPONENT, "c", "90", sha(content), content)
  }

  function Carrier(sha: Bytes -> Bytes): Frame {
    Printed(sha, COMPONENT, "a", [NL] + HeaderLine(Hidden(sha)))
  }

  function OverlapPacket(sha: Bytes -> Bytes, scaffold: Frame): Bytes {
    FrameBytes(scaffold) + (FrameBytes(Carrier(sha)) + (HeaderLine(Back(sha)) + [NL]))
  }

  function OverlapFrames(sha: Bytes -> Bytes, scaffold: Frame): seq<Frame> {
    [scaffold, Carrier(sha), Back(sha), Hidden(sha)]
  }

  lemma OverlapNumbers()
    ensures ParseInt("-178") == Some(-178) && ParseInt("90") == Some(90)
  {
    assert "178"[..2] == "17" && "17"[..1] == "1" && "90"[..1] == "9" && "-178"[1..] == "178";
    assert ParseDigits("1") == Some(1) && ParseDigits("17") == Some(17);
  }

  /** The lengths: 87 for the hidden header, 89 for the one that leads back. */
  lemma OverlapLengths(sha: Bytes -> Bytes)
    requires Hex64(sha)
    ensures |HeaderLine(Hidden(sha))| == 87 && |HeaderLine(Back(sha))| == 89 && |Hidden(sha).content| == 90
  {
    HeaderLineLength(Hidden(sha));
    HeaderLineLength(Back(sha));
  }

  lemma OverlapReadable(sha: Bytes -> Bytes)
    requires Hex64(sha)
    ensures Readable(sha, Carrier(sha)) && Readable(sha, Hidden(sha)) && CleanFields(Back(sha))
  {
    CleanSamples();
    OverlapNumbers();
    OverlapLengths(sha);
    PrintedIsReadable(sha, COMPONENT, "a", [NL] + HeaderLine(Hidden(sha)));
  }

  /** The carrier with the rest of the packet, split where the hidden frame starts. */
  lemma OverlapSplits(sha: Bytes -> Bytes)
    ensures FrameBytes(Carrier(sha)) + (HeaderLine(Back(sha)) + [NL])
            == (HeaderLine(Carrier(sha)) + [NL]) + FrameBytes(Hidden(sha))
  {
    HeaderLineLength(Carrier(sha));
    HeaderLineLength(Hidden(sha));
    Regroup(HeaderLine(Carrier(sha)), HeaderLine(Hidden(sha)), HeaderLine(Back(sha)));
  }

  lemma Regroup(a: Bytes, c: Bytes, h: Bytes)
    ensures (a + (([NL] + c) + [NL])) + (h + [NL]) == (a + [NL]) + (c + (([NL] + h) + [NL]))
  {
    assert (a + (([NL] + c) + [NL])) + (h + [NL]) == a + [NL] + c + [NL] + h + [NL];
    assert (a + [NL]) + (c + (([NL] + h) + [NL])) == a + [NL] + c + [NL] + h + [NL];
  }

  function HiddenAt(sha: Bytes -> Bytes, s: Frame): nat {
    |FrameBytes(s)| + |HeaderLine(Carrier(sha))| + 1
  }

  /** Where the pieces of the packet are. */
  lemma OverlapPlaces(sha: Bytes -> Bytes, s: Frame)
    requires Hex64(sha)
    ensures var data, p, r := OverlapPacket(sha, s), |FrameBytes(s)|, HiddenAt(sha, s);
            && p + |FrameBytes(Carrier(sha))| == r + 88 && |data| == r + 178
            && Has(data, 0, FrameBytes(s)) && Has(data, p, FrameBytes(Carrier(sha)))
            && Has(data, r + 88, HeaderLine(Back(sha))) && Has(data, r, FrameBytes(Hidden(sha)))
            && data[r - 1] == NL
  {
    var data, p, r := OverlapPacket(sha, s), |FrameBytes(s)|, HiddenAt(sha, s);
    var a, back := FrameBytes(Carrier(sha)), HeaderLine(Back(sha));
    OverlapLengths(sha);
    HeaderLineLength(Carrier(sha));
    assert data[0..] == data && data[p..] == a + (back + [NL]);
    SuffixSplits(data, 0, FrameBytes(s), a + (back + [NL]));
    SuffixSplits(data, p, a, back + [NL]);
    SuffixSplits(data, r + 88, back, [NL]);
    OverlapSplits(sha);
    HiddenPlace(data, p, HeaderLine(Carrier(sha)) + [NL], FrameBytes(Hidden(sha)));
  }

  lemma HiddenPlace(data: Bytes, p: nat, lead: Bytes, hidden: Bytes)
    requires p <= |data| && data[p..] == lead + hidden && lead != [] && lead[|lead| - 1] == NL
    ensures Has(data, p + |lead|, hidden) && data[p + |lead| - 1] == NL
  {
    SuffixSplits(data, p, lead, hidden);
    LastOf(data, p, lead);
    assert hidden == hidden + [];
    SuffixSplits(data, p + |lead|, hidden, []);
  }

  lemma OverlapForward(sha: Bytes -> Bytes, s: Frame)
    requires Hex64(sha) && Readable(sha, s)
    ensures var data, p, r := OverlapPacket(sha, s), |FrameBytes(s)|, HiddenAt(sha, s);
            && Next(sha, data, 0) == Parsed(s, |s.content|, p)
            && Next(sha, data, p) == Parsed(Carrier(sha), |Carrier(sha).content|, r + 88)
  {
    var data, p := OverlapPacket(sha, s), |FrameBytes(s)|;
    OverlapPlaces(sha, s);
    OverlapReadable(sha);
    NextReads(sha, data, 0, s);
    NextReads(sha, data, p, Carrier(sha));
  }

  lemma OverlapHidden(sha: Bytes -> Bytes, s: Frame)
    requires Hex64(sha)
    ensures var data, r := OverlapPacket(sha, s), HiddenAt(sha, s);
            RoundsOf(sha, data)(r) == Parsed(Hidden(sha), 90, |data|)
  {
    var data, r := OverlapPacket(sha, s), HiddenAt(sha, s);
    OverlapPlaces(sha, s);
    OverlapReadable(sha);
    OverlapLengths(sha);
    HeaderLineLength(Hidden(sha));
    NextReads(sha, data, r, Hidden(sha));
    RoundIs(sha, data, r, Parsed(Hidden(sha), 90, |data|));
  }

  lemma OverlapBack(sha: Bytes -> Bytes, s: Frame)
    requires Hex64(sha)
    ensures var data, r := OverlapPacket(sha, s), HiddenAt(sha, s);
            RoundsOf(sha, data)(r + 88) == Parsed(Back(sha), -178, r)
  {
    var data, r := OverlapPacket(sha, s), HiddenAt(sha, s);
    OverlapPlaces(sha, s);
    BackRound(sha, data, r);
    RoundIs(sha, data, r + 88, Parsed(Back(sha), -178, r));
  }

  lemma BackRound(sha: Bytes -> Bytes, data: Bytes, r: nat)
    requires Hex64(sha) && 0 < r && r + 88 <= |data| && Has(data, r + 88, HeaderLine(Back(sha))) && data[r - 1] == NL
    ensures Next(sha, data, r + 88) == Parsed(Back(sha), -178, r)
  {
    CleanSamples();
    OverlapLengths(sha);
    OverlapNumbers();
    NextGoesBack(sha, data, r + 88, Back(sha), -178);
  }

  lemma OverlapStarts(sha: Bytes -> Bytes, s: Frame)
    requires Hex64(sha) && Readable(sha, s)
    ensures var data := OverlapPacket(sha, s);
            Arrives(RoundsOf(sha, data), |data|, [s, Carrier(sha)], HiddenAt(sha, s) + 88)
  {
    var data, p, r, a := OverlapPacket(sha, s), |FrameBytes(s)|, HiddenAt(sha, s), Carrier(sha);
    OverlapPlaces(sha, s);
    OverlapForward(sha, s);
    var first, second := Parsed(s, |s.content|, p), Parsed(a, |a.content|, r + 88);
    RoundIs(sha, data, 0, first);
    RoundIs(sha, data, p, second);
    TwoRounds(RoundsOf(sha, data), |data|, first, second);
  }

  lemma OverlapSize(sha: Bytes -> Bytes, s: Frame)
    requires Hex64(sha)
    ensures |OverlapPacket(sha, s)| == HiddenAt(sha, s) + 178
  {
    OverlapPlaces(sha, s);
  }

  lemma ThenRound(next: Rounds, n: nat, fs: seq<Frame>, pos: int, s: Step)
    requires Arrives(next, n, fs, pos) && pos < n && next(pos) == s && s.Parsed?
    ensures Arrives(next, n, fs + [s.frame], s.next)
    ensures s.next >= n ==> Reads(next, n, fs + [s.frame])
  {
    RoundAt(next, n, |fs|, pos, fs, s);
  }

  lemma OverlapGoesBack(sha: Bytes -> Bytes, s: Frame)
    requires Hex64(sha) && Readable(sha, s)
    ensures var data := OverlapPacket(sha, s);
            Arrives(RoundsOf(sha, data), |data|, [s, Carrier(sha)] + [Back(sha)], HiddenAt(sha, s))
  {
    var data, r := OverlapPacket(sha, s), HiddenAt(sha, s);
    OverlapSize(sha, s);
    OverlapStarts(sha, s);
    OverlapBack(sha, s);
    ThenRound(RoundsOf(sha, data), |data|, [s, Carrier(sha)], r + 88, Parsed(Back(sha), -178, r));
  }

  lemma OverlapReads(sha: Bytes -> Bytes, s: Frame)
    requires Hex64(sha) && Readable(sha, s)
    ensures PacketReads(sha, OverlapPacket(sha, s), OverlapFrames(sha, s))
  {
    var data, r := OverlapPacket(sha, s), HiddenAt(sha, s);
    var three := [s, Carrier(sha)] + [Back(sha)];
    OverlapSize(sha, s);
    OverlapGoesBack(sha, s);
    OverlapHidden(sha, s);
    ThenRound(RoundsOf(sha, data), |data|, three, r, Parsed(Hidden(sha), 90, |data|));
    FourFrames(s, Carrier(sha), Back(sha), Hidden(sha));
  }

  lemma FourFrames(s: Frame, a: Frame, b: Frame, c: Frame)
    ensures [s, a] + [b] + [c] == [s, a, b, c]
  {
  }

  /**
   * A negative length may also lead back into a content that was already read, and on from there to
   * the end: the packet is accepted with four overlapping frames.
   */
  lemma OverlapAccepted(sha: Bytes -> Bytes, registry: Registry, version: Bytes)
    requires Hex64(sha) && version in registry && Clean(version)
    ensures var a, c := Carrier(sha).content, Hidden(sha).content;
            var data := OverlapPacket(sha, Printed(sha, SCAFFOLD, version, registry[version]));
            var composition := ManifestOf(sha, registry[version],
                                          [Component("a", a), Component("b", []), Component("c", c)]);
            && Verify(sha, registry, data, composition) == Accepted(version, 3)
            && !NoNegativeLength(sha, data)
            && forall v :: !IsPrinted(sha, registry, data, composition, v)
  {
    var s := Printed(sha, SCAFFOLD, version, registry[version]);
    var data, fs := OverlapPacket(sha, s), OverlapFrames(sha, s);
    var cs := [Component("a", Carrier(sha).content), Component("b", []), Component("c", Hidden(sha).content)];
    var composition := ManifestOf(sha, registry[version], cs);
    PrintedIsReadable(sha, SCAFFOLD, version, registry[version]);
    OverlapReads(sha, s);
    VerdictOfRead(sha, registry, data, composition, fs);
    OverlapJudged(sha, registry, version, fs, composition);
    OverlapNumbers();
    NotAllForward(sha, data, fs, 2);
    PrintedIsForward(sha, registry, data, composition);
  }

  lemma OverlapJudged(sha: Bytes -> Bytes, registry: Registry, version: Bytes, fs: seq<Frame>, composition: Composition)
    requires version in registry && |fs| == 4 && fs[0] == Printed(sha, SCAFFOLD, version, registry[version])
    requires forall i :: 1 <= i < 4 ==> fs[i].kind == COMPONENT
    requires composition.scaffoldSha == sha(registry[version])
    requires composition.components == [Bound(fs[1].ident, fs[1].sha), Bound(fs[2].ident, fs[2].sha),
                                        Bound(fs[3].ident, fs[3].sha)]
    ensures Judge(sha, registry, fs, composition) == Accepted(version, 3)
  {
    assert BoundsOf(fs[1..]) == composition.components;
  }
}
