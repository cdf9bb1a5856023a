/**
 * The per-line hash chain of tools/clearwright_alf.py.
 *
 * A digest is the free term `Sha(payload, prev)`: two digests are equal exactly when what was
 * hashed is equal.  A stored line carries its digests as plain fields, so a file may well hold
 * lines whose digests are wrong; only `ChainOk` (the check of `verify_chain`) says they are right.
 */
module HashChain {
  datatype Digest<P> = Sentinel | Sha(payload: P, prev: Digest<P>)

  datatype Line<P> = Line(payload: P, prev: Digest<P>, sha: Digest<P>)

  datatype Head<P> = Head(digest: Digest<P>, count: nat)

  function Chained<P>(payload: P, prev: Digest<P>): Line<P> {
    Line(payload, prev, Sha(payload, prev))
  }

  function ChainHead<P>(lines: seq<Line<P>>): Digest<P> {
    if lines == [] then Sentinel else lines[|lines| - 1].sha
  }

  function HeadOf<P>(lines: seq<Line<P>>): Head<P> {
    Head(ChainHead(lines), |lines|)
  }

  /** Line i carries its own digest and links to the line before it. */
  predicate LinkOk<P(==)>(lines: seq<Line<P>>, i: nat)
    requires i < |lines|
  {
    && lines[i].sha == Sha(lines[i].payload, lines[i].prev)
    && lines[i].prev == ChainHead(lines[..i])
  }

  ghost predicate ChainOk<P>(lines: seq<Line<P>>) {
    forall i :: 0 <= i < |lines| ==> LinkOk(lines, i)
  }

  /** What `verify_chain` reports: at most one broken line, and whatever follows the last readable one. */
  datatype Problem = HashMismatch(line: nat) | LinkBreak(line: nat) | TornTail

  /**
   * `verify_chain` over the readable lines of a file; `tail` says that something follows them, be it
   * unterminated or unreadable.
   */
  method VerifyChain<P(==)>(lines: seq<Line<P>>, tail: bool) returns (problems: seq<Problem>)
    ensures problems == [] <==> ChainOk(lines) && !tail
    ensures TornTail in problems <==> tail
    ensures forall p :: p in problems && !p.TornTail? ==>
              && p.line < |lines| && !LinkOk(lines, p.line) && ChainOk(lines[..p.line])
              && (p.HashMismatch? <==> lines[p.line].sha != Sha(lines[p.line].payload, lines[p.line].prev))
  {
    problems := [];
    var prev: Digest<P> := Sentinel;
    var i := 0;
    while i < |lines|
      invariant 0 <= i <= |lines| && problems == []
      invariant prev == ChainHead(lines[..i])
      invariant forall k :: 0 <= k < i ==> LinkOk(lines, k)
    {
      var line := lines[i];
      if line.sha != Sha(line.payload, line.prev) {
        PrefixOfChain(lines, i);
        problems := [HashMismatch(i)];
        break;
      }
      if line.prev != prev {
        PrefixOfChain(lines, i);
        problems := [LinkBreak(i)];
        break;
      }
      prev := line.sha;
      assert lines[..i + 1][i] == line;
      i := i + 1;
    }
    assert problems != [] ==> !LinkOk(lines, problems[0].line);
    if tail {
      problems := problems + [TornTail];
    }
  }

  lemma PrefixLink<P>(lines: seq<Line<P>>, n: nat, i: nat)
    requires i < n <= |lines|
    ensures LinkOk(lines[..n], i) <==> LinkOk(lines, i)
  {
    assert lines[..n][..i] == lines[..i];
  }

  lemma PrefixOfChain<P>(lines: seq<Line<P>>, n: nat)
    requires n <= |lines|
    requires forall i :: 0 <= i < n ==> LinkOk(lines, i)
    ensures ChainOk(lines[..n])
  {
    forall i | 0 <= i < n ensures LinkOk(lines[..n], i) {
      PrefixLink(lines, n, i);
    }
  }

  /** Appending one chained record keeps a chain intact. */
  lemma ChainExtends<P>(lines: seq<Line<P>>, payload: P)
    requires ChainOk(lines)
    ensures ChainOk(lines + [Chained(payload, ChainHead(lines))])
  {
    var longer := lines + [Chained(payload, ChainHead(lines))];
    forall i | 0 <= i < |longer| ensures LinkOk(longer, i) {
      if i < |lines| {
        assert longer[..|lines|] == lines;
        PrefixLink(longer, |lines|, i);
      } else {
        assert longer[..i] == lines;
      }
    }
  }

  /** Two intact chains with the same head and the same length are equal line for line. */
  lemma {:induction false} ChainDeterminism<P>(a: seq<Line<P>>, b: seq<Line<P>>)
    requires ChainOk(a) && ChainOk(b)
    requires HeadOf(a) == HeadOf(b)
    ensures a == b
  {
    if a != [] {
      var n := |a| - 1;
      assert LinkOk(a, n) && LinkOk(b, n);
      PrefixOfChain(a, n);
      PrefixOfChain(b, n);
      ChainDeterminism(a[..n], b[..n]);
      assert a == a[..n] + [a[n]] && b == b[..n] + [b[n]];
    }
  }

  /**
   * A recorded (head, position) pair fixes everything before it: if it matches in two intact
   * files, the files agree on the whole prefix, however each of them was extended afterwards.
   */
  lemma AncestryFixesPrefix<P>(a: seq<Line<P>>, b: seq<Line<P>>, n: nat)
    requires ChainOk(a) && ChainOk(b) && n <= |a| && n <= |b|
    requires n > 0 ==> a[n - 1].sha == b[n - 1].sha
    ensures a[..n] == b[..n]
  {
    PrefixOfChain(a, n);
    PrefixOfChain(b, n);
    ChainDeterminism(a[..n], b[..n]);
  }
}
