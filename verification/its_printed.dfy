/** Which printed packets the verifier accepts: names with separators, and why the loop cannot end on them. */
module ItsPrinted {
  import opened ItsFraming
  import opened ItsLoop
  import opened ItsReading
  import opened ItsPackets

  // ---- A version that holds a separator but no newline ------------------------------------------------

  lemma {:induction false} SplitCount(a: Bytes, s: Bytes)
    ensures |Split(a + s)| == |Split(a)| + |Split(s)| - 1
    ensures US in a ==> |Split(a)| >= 2
    decreases |a|
  {
    if a == [] {
      assert a + s == s;
    } else {
      SplitCount(a[1..], s);
      assert (a + s)[1..] == a[1..] + s && (a + s)[0] == a[0];
      assert a == [a[0]] + a[1..];
    }
  }

  lemma HeaderFieldCount(f: Frame)
    requires US !in f.kind && Clean(f.lenText) && Clean(f.sha) && US in f.ident
    ensures |Split(Header(f))| > 5
  {
    var tail: seq<Bytes> := [f.lenText, f.sha, []];
    SplitOfJoin(tail);
    var rest := [US] + Join(tail);
    assert rest[1..] == Join(tail);
    SplitCount(f.ident, rest);
    var middle := [US] + (f.ident + rest);
    assert middle[1..] == f.ident + rest;
    SplitCount(f.kind, middle);
    SplitCount(f.kind, []);
    assert Fields(f)[2..] == tail && Fields(f)[1..][1..] == tail && Fields(f)[1..][0] == f.ident;
    assert Join(Fields(f)[1..]) == f.ident + rest;
    assert Header(f) == f.kind + middle;
  }

  lemma TooManyFields(sha: Bytes -> Bytes, data: Bytes, f: Frame)
    requires Clean(f.kind) && Clean(f.lenText) && Clean(f.sha) && US in f.ident && NL !in f.ident
    requires Has(data, 0, FrameBytes(f))
    ensures Next(sha, data, 0).Bad?
  {
    FrameParts(data, 0, f);
    JoinHolds(Fields(f), NL);
    HeaderFound(data, 0, Header(f));
    HeaderFieldCount(f);
  }

  // ---- A version that holds a newline: the loop falls behind ------------------------------------------------

  /** A round that starts before a newline at stop - 1 ends no later than its content allows. */
  predicate LagsAt(data: Bytes, pos: int, stop: nat, s: Step) {
    s.Parsed? && 0 < stop <= |data| && data[stop - 1] == NL && Place(data, pos) < stop
    ==> Place(data, s.next) <= stop + 1 + |s.frame.content|
  }

  ghost predicate Lags(data: Bytes, next: Rounds) {
    forall pos: int, stop: nat :: LagsAt(data, pos, stop, next(pos))
  }

  lemma BodyPlace(sha: Bytes -> Bytes, data: Bytes, nl: nat, fields: seq<Bytes>, length: int)
    requires nl < |data| && |fields| == 5 && Body(sha, data, nl, fields, length).Parsed?
    ensures var s := Body(sha, data, nl, fields, length); Place(data, s.next) <= nl + 2 + |s.frame.content|
  {
  }

  lemma NextLags(sha: Bytes -> Bytes, data: Bytes, pos: int, stop: nat)
    ensures LagsAt(data, pos, stop, Next(sha, data, pos))
  {
    var s := Next(sha, data, pos);
    if s.Parsed? && 0 < stop <= |data| && data[stop - 1] == NL && Place(data, pos) < stop {
      MarkPlace(data, pos);
      NextAtPlace(sha, data, pos);
      var q := Place(data, pos);
      var nl, fields := NextShape(sha, data, q);
      BodyPlace(sha, data, nl, fields, s.length);
      HeaderEndsBy(data, q, nl, stop);
    }
  }

  lemma HeaderEndsBy(data: Bytes, q: nat, nl: nat, stop: nat)
    requires q + |MARK| <= nl < |data| && data[q..q + |MARK|] == MARK && NL !in data[q + |MARK|..nl]
    requires q < stop <= |data| && data[stop - 1] == NL
    ensures nl < stop
  {
    if stop - 1 < q + |MARK| {
      NotInSlice(data, q, q + |MARK|, stop - 1);
    } else if stop - 1 < nl {
      NotInSlice(data, q + |MARK|, nl, stop - 1);
    }
  }

  lemma NotInSlice(data: Bytes, lo: nat, hi: nat, i: nat)
    requires lo <= i < hi <= |data| && NL !in data[lo..hi]
    ensures data[i] != NL
  {
    assert data[lo..hi][i - lo] == data[i];
  }

  lemma FrameIsLonger(f: Frame)
    ensures |FrameBytes(f)| == |MARK| + |Header(f)| + 2 + |f.content|
    ensures FrameBytes(f)[|FrameBytes(f)| - 1] == NL
  {
    assert [] + FrameBytes(f) == FrameBytes(f);
    FrameParts(FrameBytes(f), 0, f);
    HasAt(FrameBytes(f), |FrameBytes(f)| - 1, NL);
  }

  lemma EndsInNewline(fs: seq<Frame>, i: nat)
    requires 0 < i <= |fs|
    ensures 0 < |Concat(fs[..i])| <= |Concat(fs)| && Concat(fs)[|Concat(fs[..i])| - 1] == NL
  {
    FrameInConcat(fs, i - 1);
    FrameIsLonger(fs[i - 1]);
    var b, start := FrameBytes(fs[i - 1]), |Concat(fs[..i - 1])|;
    assert Concat(fs)[start..start + |b|] == b;
    assert b[|b| - 1] == Concat(fs)[start + |b| - 1];
  }

  predicate SameLengths(fs: seq<Frame>, gs: seq<Frame>) {
    |fs| == |gs| && forall i :: 0 <= i < |fs| ==> |fs[i].content| == |gs[i].content|
  }

  /** The j-th round has not reached the j-th frame of the packet. */
  ghost predicate Behind(next: Rounds, gs: seq<Frame>, j: nat)
    requires j <= |gs|
  {
    var p := Steps(next, |Concat(gs)|, j);
    p.At? && Place(Concat(gs), p.pos) < |Concat(gs[..j])|
  }

  /** After as many rounds as fs has frames, these have been read. */
  predicate Got(next: Rounds, n: nat, fs: seq<Frame>) {
    Steps(next, n, |fs|).At? && Steps(next, n, |fs|).frames == fs
  }

  lemma RoundOf(next: Rounds, n: nat, fs: seq<Frame>, j: nat)
    requires Got(next, n, fs) && j < |fs| && !Over(n, Steps(next, n, j))
    ensures var p, q := Steps(next, n, j), Steps(next, n, j + 1);
            q.At? && next(p.pos).Parsed? && q.pos == next(p.pos).next && next(p.pos).frame == fs[j]
  {
    Earlier(next, n, |fs|, j);
    Earlier(next, n, |fs|, j + 1);
    OneFrameARound(next, n, j);
    var p, q := Steps(next, n, j), Steps(next, n, j + 1);
    assert q.frames == p.frames + [next(p.pos).frame];
    assert q.frames[j] == fs[j];
  }

  lemma StaysBehind(next: Rounds, gs: seq<Frame>, fs: seq<Frame>, j: nat)
    requires Lags(Concat(gs), next) && Got(next, |Concat(gs)|, fs) && SameLengths(fs, gs)
    requires 0 < j < |gs| && Behind(next, gs, j)
    ensures Behind(next, gs, j + 1)
  {
    var data := Concat(gs);
    var n, start := |data|, |Concat(gs[..j])|;
    EndsInNewline(gs, j);
    var p := Steps(next, n, j);
    RoundOf(next, n, fs, j);
    assert LagsAt(data, p.pos, start, next(p.pos));
    FrameInConcat(gs, j);
    FrameIsLonger(gs[j]);
  }

  lemma {:induction false} AlwaysBehind(next: Rounds, gs: seq<Frame>, fs: seq<Frame>, j: nat)
    requires Lags(Concat(gs), next) && Got(next, |Concat(gs)|, fs) && SameLengths(fs, gs)
    requires 0 < j <= |gs| && Behind(next, gs, 1)
    ensures Behind(next, gs, j)
  {
    if j > 1 {
      AlwaysBehind(next, gs, fs, j - 1);
      StaysBehind(next, gs, fs, j - 1);
    }
  }

  /** Once behind, the loop has not ended after as many rounds as there are frames. */
  lemma NeverCatchesUp(next: Rounds, gs: seq<Frame>, fs: seq<Frame>)
    requires Lags(Concat(gs), next) && Got(next, |Concat(gs)|, fs) && SameLengths(fs, gs)
    requires gs != [] && Behind(next, gs, 1)
    ensures !Reads(next, |Concat(gs)|, fs)
  {
    AlwaysBehind(next, gs, fs, |gs|);
    assert gs[..|gs|] == gs;
  }

  lemma NewlineInHeader(f: Frame) returns (i: nat)
    requires NL in f.ident
    ensures i < |Header(f)| && Header(f)[i] == NL
  {
    var k :| 0 <= k < |f.ident| && f.ident[k] == NL;
    i := |f.kind| + 1 + k;
    var rest := [US] + Join(Fields(f)[2..]);
    assert Fields(f)[1..][1..] == Fields(f)[2..] && Fields(f)[1..][0] == f.ident;
    assert Join(Fields(f)[1..]) == f.ident + rest;
    assert Header(f) == f.kind + ([US] + (f.ident + rest));
    assert Header(f)[i] == (f.ident + rest)[k] == NL;
  }

  /** The first round stops inside the name, and falls behind. */
  lemma FirstFallsBehind(next: Rounds, gs: seq<Frame>, fs: seq<Frame>)
    requires Lags(Concat(gs), next) && Got(next, |Concat(gs)|, fs) && SameLengths(fs, gs)
    requires gs != [] && NL in gs[0].ident
    ensures Behind(next, gs, 1)
  {
    var data, g := Concat(gs), gs[0];
    var stop := NewlineInFirst(gs);
    assert gs[..0] == [];
    FrameInConcat(gs, 0);
    FrameIsLonger(g);
    RoundOf(next, |data|, fs, 0);
    assert LagsAt(data, 0, stop, next(0));
  }

  lemma NewlineInFirst(gs: seq<Frame>) returns (stop: nat)
    requires gs != [] && NL in gs[0].ident
    ensures 0 < stop <= |MARK| + |Header(gs[0])| && stop <= |Concat(gs)| && Concat(gs)[stop - 1] == NL
  {
    var data, g := Concat(gs), gs[0];
    assert gs[..0] == [];
    FrameInConcat(gs, 0);
    FrameParts(data, 0, g);
    var i := NewlineInHeader(g);
    stop := |MARK| + i + 1;
    assert data[|MARK|..|MARK| + |Header(g)|][i] == data[|MARK| + i];
  }

  // ---- The printer and the verifier --------------------------------------------------------------------------

  /** Accepted frames of a printed packet carry its contents and its component ids. */
  lemma AcceptedFrames(sha: Bytes -> Bytes, registry: Registry, version: Bytes, components: seq<Component>,
                       fs: seq<Frame>)
    requires Injective(sha) && version in registry
    requires var p := Build(sha, registry, version, components);
             PacketReads(sha, p.data, fs) && Verify(sha, registry, p.data, p.composition).Accepted?
    ensures SameLengths(fs, PrintedFrames(sha, version, registry[version], components))
    ensures forall i :: 0 <= i < |components| ==> Clean(components[i].id)
  {
    var p := Build(sha, registry, version, components);
    AcceptedContents(sha, registry, p.data, p.composition, fs);
    ManifestFixes(sha, registry[version], registry[fs[0].ident], components, ComponentsOf(fs[1..]));
    ReadIsChecked(sha, p.data, fs);
    forall i | 0 <= i < |components| ensures components[i] == Component(fs[i + 1].ident, fs[i + 1].content) {
      assert ComponentsOf(fs[1..])[i] == components[i];
    }
    forall i | 0 <= i < |components| ensures Clean(components[i].id) {
      assert Checked(sha, fs[i + 1]);
    }
  }

  lemma VersionIsClean(sha: Bytes -> Bytes, version: Bytes, scaffold: Bytes, components: seq<Component>, fs: seq<Frame>)
    requires HexDigest(sha)
    requires var gs := PrintedFrames(sha, version, scaffold, components);
             PacketReads(sha, Concat(gs), fs) && SameLengths(fs, gs)
    ensures Clean(version)
  {
    var gs := PrintedFrames(sha, version, scaffold, components);
    var data := Concat(gs);
    var next := RoundsOf(sha, data);
    if NL in version {
      forall pos: int, stop: nat ensures LagsAt(data, pos, stop, next(pos)) {
        NextLags(sha, data, pos, stop);
      }
      FirstFallsBehind(next, gs, fs);
      NeverCatchesUp(next, gs, fs);
    } else if US in version {
      FirstIsBad(sha, gs, fs);
    }
  }

  lemma FirstIsBad(sha: Bytes -> Bytes, gs: seq<Frame>, fs: seq<Frame>)
    requires gs != [] && fs != []
    requires var g := gs[0];
             Clean(g.kind) && g.lenText == Decimal(|g.content|) && Clean(g.sha) && US in g.ident && NL !in g.ident
    ensures !PacketReads(sha, Concat(gs), fs)
  {
    var data, next := Concat(gs), RoundsOf(sha, Concat(gs));
    FrameInConcat(gs, 0);
    assert gs[..0] == [];
    FrameIsLonger(gs[0]);
    DecimalReadsBack(|gs[0].content|);
    TooManyFields(sha, data, gs[0]);
    assert next(0).Bad?;
    StaysOver(next, |data|, 1, |fs|);
  }

  /**
   * The verifier accepts a printed packet exactly when the scaffold version and every component id are
   * free of the unit separator and of newlines.
   */
  lemma PrintedAcceptedIff(sha: Bytes -> Bytes, registry: Registry, version: Bytes, components: seq<Component>)
    requires HexDigest(sha) && Injective(sha) && version in registry
    ensures var p := Build(sha, registry, version, components);
            Verify(sha, registry, p.data, p.composition).Accepted? <==> CleanNames(version, components)
  {
    var p := Build(sha, registry, version, components);
    if CleanNames(version, components) {
      RoundTrip(sha, registry, version, components);
    }
    if Verify(sha, registry, p.data, p.composition).Accepted? {
      var fs := AcceptedReads(sha, registry, p.data, p.composition);
      AcceptedFrames(sha, registry, version, components, fs);
      VersionIsClean(sha, version, registry[version], components, fs);
    }
  }
}
