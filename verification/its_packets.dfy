/** Internal technical packets: printing, verification against a composition, and what acceptance means. */
module ItsPackets {
  import opened ItsFraming
  import opened ItsLoop
  import opened ItsReading

  datatype Component = Component(id: Bytes, text: Bytes)
  datatype Bound = Bound(id: Bytes, sha: Bytes)
  datatype Composition = Composition(scaffoldSha: Bytes, components: seq<Bound>)

  /** The registered scaffold texts by version. */
  type Registry = map<Bytes, Bytes>

  const SCAFFOLD: Bytes := "scaffold"
  const COMPONENT: Bytes := "component"

  // ---- build_its_packet ---------------------------------------------------------------------------

  function Printed(sha: Bytes -> Bytes, kind: Bytes, ident: Bytes, text: Bytes): Frame {
    Frame(kind, ident, Decimal(|text|), sha(text), text)
  }

  function PrintedFrames(sha: Bytes -> Bytes, version: Bytes, scaffold: Bytes, components: seq<Component>): seq<Frame> {
    [Printed(sha, SCAFFOLD, version, scaffold)]
    + seq(|components|, i requires 0 <= i < |components| =>
          Printed(sha, COMPONENT, components[i].id, components[i].text))
  }

  function ManifestOf(sha: Bytes -> Bytes, scaffold: Bytes, components: seq<Component>): Composition {
    Composition(sha(scaffold),
                seq(|components|, i requires 0 <= i < |components| => Bound(components[i].id, sha(components[i].text))))
  }

  datatype Built = Packet(data: Bytes, composition: Composition) | Stale

  function Build(sha: Bytes -> Bytes, registry: Registry, version: Bytes, components: seq<Component>): Built {
    if version !in registry then Stale
    else Packet(Concat(PrintedFrames(sha, version, registry[version], components)),
                ManifestOf(sha, registry[version], components))
  }

  // ---- verify_its_composition ----------------------------------------------------------------------

  /** Endless is not an answer: the loop does not end. */
  datatype Verdict = Accepted(version: Bytes, count: nat) | Refused | Endless

  function BoundsOf(fs: seq<Frame>): seq<Bound> {
    seq(|fs|, i requires 0 <= i < |fs| => Bound(fs[i].ident, fs[i].sha))
  }

  function Judge(sha: Bytes -> Bytes, registry: Registry, fs: seq<Frame>, composition: Composition): Verdict {
    if fs == [] || fs[0].kind != SCAFFOLD then Refused
    else if composition.scaffoldSha != fs[0].sha then Refused
    else if fs[0].ident !in registry || sha(registry[fs[0].ident]) != fs[0].sha then Refused
    else if exists i :: 1 <= i < |fs| && fs[i].kind != COMPONENT then Refused
    else if BoundsOf(fs[1..]) != composition.components then Refused
    else Accepted(fs[0].ident, |fs| - 1)
  }

  /** The answer, given where the loop ended. */
  function Conclude(sha: Bytes -> Bytes, registry: Registry, p: Progress, composition: Composition): Verdict {
    match p
    case Rejected => Refused
    case At(_, fs) => Judge(sha, registry, fs, composition)
  }

  ghost function Verify(sha: Bytes -> Bytes, registry: Registry, data: Bytes, composition: Composition): Verdict {
    if !PacketEnds(sha, data) then Endless
    else
      var k: nat :| Over(|data|, Steps(RoundsOf(sha, data), |data|, k));
      Conclude(sha, registry, Steps(RoundsOf(sha, data), |data|, k), composition)
  }

  /** The answer does not depend on how many rounds after the end one looks. */
  lemma VerdictOf(sha: Bytes -> Bytes, registry: Registry, data: Bytes, composition: Composition, k: nat)
    requires Over(|data|, Steps(RoundsOf(sha, data), |data|, k))
    ensures Verify(sha, registry, data, composition)
            == Conclude(sha, registry, Steps(RoundsOf(sha, data), |data|, k), composition)
  {
    var next := RoundsOf(sha, data);
    forall j: nat | Over(|data|, Steps(next, |data|, j))
      ensures Steps(next, |data|, j) == Steps(next, |data|, k)
    {
      if j <= k {
        StaysOver(next, |data|, j, k);
      } else {
        StaysOver(next, |data|, k, j);
      }
    }
  }

  lemma VerdictOfRead(sha: Bytes -> Bytes, registry: Registry, data: Bytes, composition: Composition, fs: seq<Frame>)
    requires PacketReads(sha, data, fs)
    ensures Verify(sha, registry, data, composition) == Judge(sha, registry, fs, composition)
  {
    VerdictOf(sha, registry, data, composition, |fs|);
  }

  lemma AcceptedReads(sha: Bytes -> Bytes, registry: Registry, data: Bytes, composition: Composition)
    returns (fs: seq<Frame>)
    requires Verify(sha, registry, data, composition).Accepted?
    ensures PacketReads(sha, data, fs)
    ensures Judge(sha, registry, fs, composition) == Verify(sha, registry, data, composition)
  {
    var next := RoundsOf(sha, data);
    var k: nat :| Over(|data|, Steps(next, |data|, k));
    VerdictOf(sha, registry, data, composition, k);
    EndedReads(next, |data|, k);
    fs := Steps(next, |data|, k).frames;
  }

  /** verify_its_composition: the while loop over `pos` and `parsed`, and the checks after it. */
  method VerifyItsComposition(sha: Bytes -> Bytes, registry: Registry, data: Bytes, composition: Composition)
    returns (verdict: Verdict)
    requires PacketEnds(sha, data)
    ensures verdict == Verify(sha, registry, data, composition) && !verdict.Endless?
  {
    var p, k := ReadFrames(RoundsOf(sha, data), |data|);
    VerdictOf(sha, registry, data, composition, k);
    if p.Rejected? {
      return Refused;
    }
    verdict := JudgeFrames(sha, registry, p.frames, composition);
  }

  method ReadFrames(next: Rounds, n: nat) returns (p: Progress, ghost k: nat)
    requires Ends(next, n)
    ensures p == Steps(next, n, k) && Over(n, p)
  {
    ghost var last: nat :| Over(n, Steps(next, n, last));
    k := 0;
    var pos: int := 0;
    var parsed: seq<Frame> := [];
    while pos < n
      invariant k <= last && Steps(next, n, k) == At(pos, parsed)
      decreases last - k
    {
      var step := next(pos);
      RoundAt(next, n, k, pos, parsed, step);
      k := k + 1;
      if step.Bad? {
        return Rejected, k;
      }
      parsed := parsed + [step.frame];
      pos := step.next;
    }
    p := At(pos, parsed);
  }

  lemma RoundAt(next: Rounds, n: nat, k: nat, pos: int, parsed: seq<Frame>, step: Step)
    requires Steps(next, n, k) == At(pos, parsed) && pos < n && next(pos) == step
    ensures Steps(next, n, k + 1) == if step.Bad? then Rejected else At(step.next, parsed + [step.frame])
  {
  }

  /** The checks on the parsed frames. */
  method JudgeFrames(sha: Bytes -> Bytes, registry: Registry, parsed: seq<Frame>, composition: Composition)
    returns (verdict: Verdict)
    ensures verdict == Judge(sha, registry, parsed, composition)
  {
    if parsed == [] || parsed[0].kind != SCAFFOLD {
      return Refused;
    }
    var version := parsed[0].ident;
    if composition.scaffoldSha != parsed[0].sha || version !in registry || sha(registry[version]) != parsed[0].sha {
      return Refused;
    }
    var got: seq<Bound> := [];
    for i := 1 to |parsed|
      invariant got == BoundsOf(parsed[1..i])
      invariant forall k :: 1 <= k < i ==> parsed[k].kind == COMPONENT
    {
      if parsed[i].kind != COMPONENT {
        return Refused;
      }
      assert parsed[1..i + 1] == parsed[1..i] + [parsed[i]];
      got := got + [Bound(parsed[i].ident, parsed[i].sha)];
    }
    assert parsed[1..|parsed|] == parsed[1..];
    if got != composition.components {
      return Refused;
    }
    return Accepted(version, |got|);
  }

  // ---- What acceptance means -------------------------------------------------------------------------

  /** The frame as the printer would have spelled its length. */
  function Canonical(f: Frame): Frame {
    f.(lenText := Decimal(|f.content|))
  }

  function ComponentsOf(fs: seq<Frame>): seq<Component> {
    seq(|fs|, i requires 0 <= i < |fs| => Component(fs[i].ident, fs[i].content))
  }

  /**
   * fs is the packet printed for the registered scaffold of `version` and some components with this
   * composition, up to the spelling of the lengths.
   */
  ghost predicate PrintedLike(sha: Bytes -> Bytes, registry: Registry, fs: seq<Frame>, composition: Composition,
                              version: Bytes) {
    && fs != [] && version in registry
    && var components := ComponentsOf(fs[1..]);
    && composition == ManifestOf(sha, registry[version], components)
    && |fs| == |components| + 1
    && forall i :: 0 <= i < |fs| ==>
         Canonical(fs[i]) == PrintedFrames(sha, version, registry[version], components)[i]
  }

  predicate Accepts(verdict: Verdict, version: Bytes) {
    verdict.Accepted? && verdict.version == version
  }

  /** What the loop checks of every frame, whatever its length says. */
  predicate Checked(sha: Bytes -> Bytes, f: Frame) {
    f.sha == sha(f.content) && Clean(f.ident)
  }

  predicate AllChecked(sha: Bytes -> Bytes, fs: seq<Frame>) {
    forall i :: 0 <= i < |fs| ==> Checked(sha, fs[i])
  }

  ghost predicate Checks(sha: Bytes -> Bytes, next: Rounds) {
    forall pos: int :: next(pos).Parsed? ==> Checked(sha, next(pos).frame)
  }

  lemma NextChecks(sha: Bytes -> Bytes, data: Bytes, pos: int)
    requires Next(sha, data, pos).Parsed?
    ensures Checked(sha, Next(sha, data, pos).frame)
  {
    NextAtPlace(sha, data, pos);
    var nl, fields := NextShape(sha, data, Place(data, pos));
    HeaderInverts(data, Place(data, pos), nl);
    BodyFields(sha, data, nl, fields, Next(sha, data, pos).length);
  }

  lemma {:induction false} StepsCheck(sha: Bytes -> Bytes, next: Rounds, n: nat, k: nat)
    requires Checks(sha, next) && Steps(next, n, k).At?
    ensures AllChecked(sha, Steps(next, n, k).frames)
  {
    if k > 0 {
      StepsCheck(sha, next, n, k - 1);
    }
  }

  lemma ReadIsChecked(sha: Bytes -> Bytes, data: Bytes, fs: seq<Frame>)
    requires PacketReads(sha, data, fs)
    ensures AllChecked(sha, fs)
  {
    var next := RoundsOf(sha, data);
    forall pos: int | next(pos).Parsed? ensures Checked(sha, next(pos).frame) {
      NextChecks(sha, data, pos);
    }
    StepsCheck(sha, next, |data|, |fs|);
  }

  lemma JudgeMeaning(sha: Bytes -> Bytes, registry: Registry, fs: seq<Frame>, composition: Composition, version: Bytes)
    requires Injective(sha) && AllChecked(sha, fs)
    ensures Accepts(Judge(sha, registry, fs, composition), version)
            <==> PrintedLike(sha, registry, fs, composition, version)
  {
    assert forall i :: 0 <= i < |fs| ==> Checked(sha, fs[i]);
  }

  /** The packet is, byte for byte, printed frames with this composition, up to the spelling of lengths. */
  ghost predicate IsPrinted(sha: Bytes -> Bytes, registry: Registry, data: Bytes, composition: Composition,
                            version: Bytes) {
    exists fs: seq<Frame> ::
      data == Concat(fs) && AllReadable(sha, fs) && PrintedLike(sha, registry, fs, composition, version)
  }

  lemma ReadableIsChecked(sha: Bytes -> Bytes, fs: seq<Frame>)
    requires AllReadable(sha, fs)
    ensures AllChecked(sha, fs)
  {
    assert forall i :: 0 <= i < |fs| ==> Readable(sha, fs[i]);
  }

  /**
   * An accepted packet is, byte for byte, the frames of a printed packet with the given composition
   * exactly when no header that was read has a negative length; then nothing lies outside the frames,
   * and only the spelling of the lengths is free.
   */
  lemma AcceptedIffPrinted(sha: Bytes -> Bytes, registry: Registry, data: Bytes, composition: Composition,
                           version: Bytes)
    requires Injective(sha)
    ensures IsPrinted(sha, registry, data, composition, version)
            <==> Accepts(Verify(sha, registry, data, composition), version) && NoNegativeLength(sha, data)
  {
    if Accepts(Verify(sha, registry, data, composition), version) && NoNegativeLength(sha, data) {
      var fs := AcceptedReads(sha, registry, data, composition);
      ReadForward(RoundsOf(sha, data), |data|, fs);
      ReadIsChecked(sha, data, fs);
      ReadIff(sha, data, fs);
      JudgeMeaning(sha, registry, fs, composition, version);
    }
    if IsPrinted(sha, registry, data, composition, version) {
      var fs: seq<Frame> :|
        data == Concat(fs) && AllReadable(sha, fs) && PrintedLike(sha, registry, fs, composition, version);
      ReadIff(sha, data, fs);
      ReadForward(RoundsOf(sha, data), |data|, fs);
      ReadableIsChecked(sha, fs);
      VerdictOfRead(sha, registry, data, composition, fs);
      JudgeMeaning(sha, registry, fs, composition, version);
    }
  }

  /** Components are determined by what a manifest binds. */
  lemma ManifestFixes(sha: Bytes -> Bytes, t: Bytes, u: Bytes, cs: seq<Component>, ds: seq<Component>)
    requires Injective(sha) && ManifestOf(sha, t, cs) == ManifestOf(sha, u, ds)
    ensures t == u && cs == ds
  {
    var m, k := ManifestOf(sha, t, cs).components, ManifestOf(sha, u, ds).components;
    assert |m| == |cs| && |k| == |ds|;
    forall i | 0 <= i < |cs| ensures cs[i] == ds[i] {
      assert m[i] == Bound(cs[i].id, sha(cs[i].text)) && k[i] == Bound(ds[i].id, sha(ds[i].text));
    }
  }

  /**
   * Two packets accepted for one composition carry the same scaffold and the same contents in the same
   * order, negative lengths or not.
   */
  lemma CompositionFixesContents(sha: Bytes -> Bytes, registry: Registry, a: Bytes, b: Bytes,
                                 composition: Composition, fa: seq<Frame>, fb: seq<Frame>)
    requires Injective(sha) && PacketReads(sha, a, fa) && PacketReads(sha, b, fb)
    requires Verify(sha, registry, a, composition).Accepted? && Verify(sha, registry, b, composition).Accepted?
    ensures |fa| == |fb| == |composition.components| + 1
    ensures fa[0].ident in registry && fa[0].content == fb[0].content == registry[fa[0].ident]
    ensures ComponentsOf(fa[1..]) == ComponentsOf(fb[1..])
  {
    AcceptedContents(sha, registry, a, composition, fa);
    AcceptedContents(sha, registry, b, composition, fb);
    ManifestFixes(sha, registry[fa[0].ident], registry[fb[0].ident], ComponentsOf(fa[1..]), ComponentsOf(fb[1..]));
  }

  lemma AcceptedContents(sha: Bytes -> Bytes, registry: Registry, data: Bytes, composition: Composition, fs: seq<Frame>)
    requires Injective(sha) && PacketReads(sha, data, fs) && Verify(sha, registry, data, composition).Accepted?
    ensures fs != [] && fs[0].ident in registry && fs[0].content == registry[fs[0].ident]
    ensures composition == ManifestOf(sha, registry[fs[0].ident], ComponentsOf(fs[1..]))
    ensures |fs| == |composition.components| + 1
    ensures PrintedLike(sha, registry, fs, composition, fs[0].ident)
  {
    VerdictOfRead(sha, registry, data, composition, fs);
    ReadIsChecked(sha, data, fs);
    var version := Verify(sha, registry, data, composition).version;
    JudgeMeaning(sha, registry, fs, composition, version);
    assert Canonical(fs[0]) == PrintedFrames(sha, version, registry[version], ComponentsOf(fs[1..]))[0];
  }

  // ---- The printer and the parser -----------------------------------------------------------------------

  predicate CleanNames(version: Bytes, components: seq<Component>) {
    Clean(version) && forall i :: 0 <= i < |components| ==> Clean(components[i].id)
  }

  lemma PrintedIsReadable(sha: Bytes -> Bytes, kind: Bytes, ident: Bytes, text: Bytes)
    requires HexDigest(sha) && Clean(kind)
    ensures Readable(sha, Printed(sha, kind, ident, text)) <==> Clean(ident)
  {
    DecimalReadsBack(|text|);
  }

  lemma JudgePrinted(sha: Bytes -> Bytes, registry: Registry, version: Bytes, components: seq<Component>)
    requires version in registry
    ensures Judge(sha, registry, PrintedFrames(sha, version, registry[version], components),
                  ManifestOf(sha, registry[version], components)) == Accepted(version, |components|)
  {
  }

  lemma PrintedAreReadable(sha: Bytes -> Bytes, version: Bytes, scaffold: Bytes, components: seq<Component>)
    requires HexDigest(sha) && CleanNames(version, components)
    ensures AllReadable(sha, PrintedFrames(sha, version, scaffold, components))
  {
    var fs := PrintedFrames(sha, version, scaffold, components);
    forall i | 0 <= i < |fs| ensures Readable(sha, fs[i]) {
      if i == 0 {
        PrintedIsReadable(sha, SCAFFOLD, version, scaffold);
      } else {
        PrintedIsReadable(sha, COMPONENT, components[i - 1].id, components[i - 1].text);
      }
    }
  }

  /** The verifier accepts what the printer prints, for texts of any content, frame markers included. */
  lemma RoundTrip(sha: Bytes -> Bytes, registry: Registry, version: Bytes, components: seq<Component>)
    requires HexDigest(sha) && version in registry && CleanNames(version, components)
    ensures var p := Build(sha, registry, version, components);
            Verify(sha, registry, p.data, p.composition) == Accepted(version, |components|)
  {
    var fs := PrintedFrames(sha, version, registry[version], components);
    PrintedAreReadable(sha, version, registry[version], components);
    ReadIff(sha, Concat(fs), fs);
    VerdictOfRead(sha, registry, Concat(fs), ManifestOf(sha, registry[version], components), fs);
    JudgePrinted(sha, registry, version, components);
  }
}
