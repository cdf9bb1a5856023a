/**
 * The length-delimited framing of internal technical packets (tools/clearwright_egress_guard.py):
 * the printer `build_its_packet` and the fail-closed parser `verify_its_composition`.
 *
 * Texts are their UTF-8 bytes, one char a byte.  `sha` stands for the SHA-256 hex digest.
 */
module ItsFraming {
  import opened Wrappers

  type Bytes = string

  const US: char := '\U{1F}'
  const NL: char := '\n'
  const MARK: Bytes := ['C', 'W', 'I', 'T', 'S', US]

  /** Free of the two characters that structure a frame header. */
  predicate Clean(s: Bytes) {
    US !in s && NL !in s
  }

  ghost predicate HexDigest(sha: Bytes -> Bytes) {
    forall b :: Clean(sha(b))
  }

  ghost predicate Injective(sha: Bytes -> Bytes) {
    forall a, b :: sha(a) == sha(b) ==> a == b
  }

  // ---- Numbers ---------------------------------------------------------------------------------

  predicate IsDigit(c: char) {
    '0' <= c <= '9'
  }

  function Digit(c: char): nat
    requires IsDigit(c)
  {
    (c as int) - ('0' as int)
  }

  function Decimal(n: nat): Bytes {
    var last := [(('0' as int) + n % 10) as char];
    if n < 10 then last else Decimal(n / 10) + last
  }

  /** The white space that int() strips from bytes. */
  predicate IsSpace(c: char) {
    c == ' ' || '\t' <= c <= '\r'
  }

  function StripLeft(s: Bytes): Bytes {
    if s != [] && IsSpace(s[0]) then StripLeft(s[1..]) else s
  }

  function StripRight(s: Bytes): Bytes {
    if s != [] && IsSpace(s[|s| - 1]) then StripRight(s[..|s| - 1]) else s
  }

  /** Digits with single underscores between them. */
  function ParseDigits(s: Bytes): Option<nat>
    decreases |s|
  {
    if s == [] || !IsDigit(s[|s| - 1]) then None
    else
      var d := Digit(s[|s| - 1]);
      if |s| == 1 then Some(d)
      else
        var front := if s[|s| - 2] == '_' then s[..|s| - 2] else s[..|s| - 1];
        match ParseDigits(front)
        case None => None
        case Some(n) => Some(10 * n + d)
  }

  function Signed(digits: Option<nat>, negative: bool): Option<int> {
    if digits.None? then None
    else
      var n: int := digits.value;
      Some(if negative then -n else n)
  }

  /** Python's int() on bytes: white space, one sign, leading zeros and underscores are accepted. */
  function ParseInt(s: Bytes): Option<int> {
    var t := StripRight(StripLeft(s));
    if t == [] then None
    else if t[0] == '-' || t[0] == '+' then Signed(ParseDigits(t[1..]), t[0] == '-')
    else Signed(ParseDigits(t), false)
  }

  lemma {:induction false} DecimalParses(n: nat)
    ensures ParseDigits(Decimal(n)) == Some(n) && Decimal(n) != []
    ensures forall i :: 0 <= i < |Decimal(n)| ==> IsDigit(Decimal(n)[i])
  {
    var s := Decimal(n);
    assert s[|s| - 1] == (('0' as int) + n % 10) as char;
    if n >= 10 {
      DecimalParses(n / 10);
      assert s[..|s| - 1] == Decimal(n / 10);
      assert IsDigit(s[|s| - 2]);
    }
  }

  /** int() reads back the decimal the printer writes. */
  lemma DecimalReadsBack(n: nat)
    ensures ParseInt(Decimal(n)) == Some(n) && Clean(Decimal(n))
  {
    DecimalParses(n);
    var s := Decimal(n);
    assert IsDigit(s[0]) && IsDigit(s[|s| - 1]);
    forall i | 0 <= i < |s| ensures s[i] != US && s[i] != NL {
      assert IsDigit(s[i]);
    }
  }

  // ---- Frames ----------------------------------------------------------------------------------

  datatype Frame = Frame(kind: Bytes, ident: Bytes, lenText: Bytes, sha: Bytes, content: Bytes)

  /** The fields of a header, and the nothing after its last separator. */
  function Fields(f: Frame): seq<Bytes> {
    [f.kind, f.ident, f.lenText, f.sha, []]
  }

  function Join(fields: seq<Bytes>): Bytes
    requires fields != []
  {
    if |fields| == 1 then fields[0] else fields[0] + ([US] + Join(fields[1..]))
  }

  function Header(f: Frame): Bytes {
    Join(Fields(f))
  }

  function FrameBytes(f: Frame): Bytes {
    MARK + (Header(f) + ([NL] + (f.content + [NL])))
  }

  function Concat(fs: seq<Frame>): Bytes {
    if fs == [] then [] else FrameBytes(fs[0]) + Concat(fs[1..])
  }

  /** A frame that the parser reads back; the length may be spelled in any way int() takes. */
  predicate Readable(sha: Bytes -> Bytes, f: Frame) {
    && Clean(f.kind) && Clean(f.ident) && Clean(f.lenText) && Clean(f.sha)
    && f.sha == sha(f.content)
    && ParseInt(f.lenText) == Some(|f.content|)
  }

  // ---- The parser --------------------------------------------------------------------------------

  /** Python's data[i:j]. */
  function PySlice(data: Bytes, i: int, j: int): Bytes {
    var n := |data|;
    var lo := if i < 0 then (if i + n < 0 then 0 else i + n) else if i > n then n else i;
    var hi := if j < 0 then (if j + n < 0 then 0 else j + n) else if j > n then n else j;
    if lo <= hi then data[lo..hi] else []
  }

  /** The first c at or after a position. */
  function Find(data: Bytes, c: char, from: nat): (r: Option<nat>)
    ensures r.Some? ==> from <= r.value < |data| && data[r.value] == c && c !in data[from..r.value]
    decreases |data| - from
  {
    if from >= |data| then None
    else if data[from] == c then Some(from)
    else
      var r := Find(data, c, from + 1);
      assert r.Some? ==> data[from..r.value] == [data[from]] + data[from + 1..r.value];
      r
  }

  function Split(s: Bytes): (fields: seq<Bytes>)
    ensures fields != []
  {
    if s == [] then [[]]
    else
      var rest := Split(s[1..]);
      if s[0] == US then [[]] + rest else [[s[0]] + rest[0]] + rest[1..]
  }

  datatype Step = Bad | Parsed(frame: Frame, length: int, next: int)

  /** Python's data.find(c, i). */
  function PyFind(data: Bytes, c: char, i: int): Option<nat> {
    Find(data, c, if i >= 0 then i else if i + |data| < 0 then 0 else i + |data|)
  }

  /** Where the header that starts at a position ends, if the mark is there. */
  function HeaderEnd(data: Bytes, pos: int): Option<nat> {
    if PySlice(data, pos, pos + |MARK|) != MARK then None else PyFind(data, NL, pos + |MARK|)
  }

  /** The content after a header that ends at nl. */
  function Body(sha: Bytes -> Bytes, data: Bytes, nl: nat, fields: seq<Bytes>, length: int): Step
    requires |fields| == 5
  {
    var start := nl + 1;
    var end := start + length;
    if end > |data| || PySlice(data, end, end + 1) != [NL] then Bad
    else
      var content := PySlice(data, start, end);
      if sha(content) != fields[3] then Bad
      else Parsed(Frame(fields[0], fields[1], fields[2], fields[3], content), length, end + 1)
  }

  /**
   * One round of the while loop.  The position may be negative: int() accepts negative lengths, and
   * Python counts negative indices from the end of the packet.
   */
  function Next(sha: Bytes -> Bytes, data: Bytes, pos: int): Step {
    var nl := HeaderEnd(data, pos);
    if nl.None? then Bad
    else
      var fields := Split(PySlice(data, pos + |MARK|, nl.value));
      if |fields| != 5 || fields[4] != [] then Bad
      else
        var length := ParseInt(fields[2]);
        if length.None? then Bad else Body(sha, data, nl.value, fields, length.value)
  }

  /** The place in the packet that a position names. */
  function Place(data: Bytes, pos: int): int {
    if pos < 0 then pos + |data| else pos
  }

  // ---- Splitting a header -------------------------------------------------------------------------

  /** Joining inverts splitting. */
  lemma {:induction false} JoinOfSplit(s: Bytes)
    ensures Join(Split(s)) == s
    decreases |s|
  {
    if s != [] {
      JoinOfSplit(s[1..]);
      var rest, fields := Split(s[1..]), Split(s);
      assert s == [s[0]] + s[1..];
      if s[0] == US {
        assert fields[1..] == rest;
      } else {
        assert fields[0] == [s[0]] + rest[0] && fields[1..] == rest[1..];
      }
    }
  }

  /** No field holds a separator, and fields hold no other characters than the text. */
  lemma {:induction false} FieldsAreParts(s: Bytes)
    ensures forall i :: 0 <= i < |Split(s)| ==> Free(Split(s)[i], s)
    decreases |s|
  {
    if s != [] {
      FieldsAreParts(s[1..]);
      var rest, fields := Split(s[1..]), Split(s);
      forall i | 0 <= i < |fields| ensures Free(fields[i], s) {
        if s[0] == US {
          assert i > 0 ==> Free(rest[i - 1], s[1..]);
        } else {
          assert Free(rest[i], s[1..]);
        }
      }
    }
  }

  predicate Free(field: Bytes, s: Bytes) {
    US !in field && forall c :: c in field ==> c in s
  }

  lemma SplitCons(c: char, s: Bytes)
    requires c != US
    ensures Split([c] + s) == [[c] + Split(s)[0]] + Split(s)[1..]
  {
    assert ([c] + s)[1..] == s;
  }

  lemma {:induction false} SplitPrefix(a: Bytes, s: Bytes)
    requires US !in a
    ensures Split(a + s) == [a + Split(s)[0]] + Split(s)[1..]
    decreases |a|
  {
    if a == [] {
      assert a + s == s && a + Split(s)[0] == Split(s)[0];
    } else {
      var c, rest := a[0], a[1..];
      SplitPrefix(rest, s);
      SplitCons(c, rest + s);
      assert a == [c] + rest && a + s == [c] + (rest + s);
      assert [c] + (rest + Split(s)[0]) == a + Split(s)[0];
    }
  }

  lemma {:induction false} SplitOfJoin(fields: seq<Bytes>)
    requires fields != [] && forall i :: 0 <= i < |fields| ==> US !in fields[i]
    ensures Split(Join(fields)) == fields
    decreases |fields|
  {
    var first := fields[0];
    if |fields| == 1 {
      SplitPrefix(first, []);
      assert first + [] == first;
    } else {
      var tail := [US] + Join(fields[1..]);
      SplitOfJoin(fields[1..]);
      assert tail[1..] == Join(fields[1..]);
      assert Split(tail) == [[]] + fields[1..];
      SplitPrefix(first, tail);
      assert first + [] == first;
      assert fields == [first] + fields[1..];
    }
  }

  lemma {:induction false} JoinHolds(fields: seq<Bytes>, c: char)
    requires fields != [] && c != US && forall i :: 0 <= i < |fields| ==> c !in fields[i]
    ensures c !in Join(fields)
    decreases |fields|
  {
    if |fields| > 1 {
      JoinHolds(fields[1..], c);
    }
  }

  // ---- One frame ----------------------------------------------------------------------------------

  predicate Has(data: Bytes, pos: nat, piece: Bytes) {
    pos + |piece| <= |data| && data[pos..pos + |piece|] == piece
  }

  lemma HasBoth(data: Bytes, pos: nat, a: Bytes, b: Bytes)
    ensures Has(data, pos, a + b) <==> Has(data, pos, a) && Has(data, pos + |a|, b)
  {
    if pos + |a| + |b| <= |data| {
      assert data[pos..pos + |a + b|] == data[pos..pos + |a|] + data[pos + |a|..pos + |a| + |b|];
      assert (a + b)[..|a|] == a && (a + b)[|a|..] == b;
    }
  }

  lemma HasParts(data: Bytes, pos: nat, h: Bytes, c: Bytes)
    ensures var nl := pos + |MARK| + |h|;
            Has(data, pos, MARK + (h + ([NL] + (c + [NL])))) <==>
              && Has(data, pos, MARK) && Has(data, pos + |MARK|, h) && Has(data, nl, [NL])
              && Has(data, nl + 1, c) && Has(data, nl + 1 + |c|, [NL])
  {
    var nl := pos + |MARK| + |h|;
    HasBoth(data, pos, MARK, h + ([NL] + (c + [NL])));
    HasBoth(data, pos + |MARK|, h, [NL] + (c + [NL]));
    HasBoth(data, nl, [NL], c + [NL]);
    HasBoth(data, nl + 1, c, [NL]);
  }

  /** Where the parts of a frame are. */
  lemma FrameParts(data: Bytes, pos: nat, f: Frame)
    ensures var nl := pos + |MARK| + |Header(f)|;
            var end := nl + 1 + |f.content|;
            && pos + |FrameBytes(f)| == end + 1
            && (Has(data, pos, FrameBytes(f)) <==>
                  && Has(data, pos, MARK) && Has(data, pos + |MARK|, Header(f))
                  && Has(data, nl, [NL]) && Has(data, nl + 1, f.content) && Has(data, end, [NL]))
  {
    HasParts(data, pos, Header(f), f.content);
  }

  lemma HasAt(data: Bytes, pos: nat, c: char)
    ensures Has(data, pos, [c]) <==> pos < |data| && data[pos] == c
  {
    if pos < |data| {
      assert data[pos..pos + 1] == [data[pos]];
    }
  }

  /** The header is found where it is, because it holds no newline. */
  lemma HeaderFound(data: Bytes, pos: nat, h: Bytes)
    requires Has(data, pos, MARK) && Has(data, pos + |MARK|, h) && NL !in h
    requires Has(data, pos + |MARK| + |h|, [NL])
    ensures HeaderEnd(data, pos) == Some(pos + |MARK| + |h|)
    ensures data[pos + |MARK|..pos + |MARK| + |h|] == h
  {
    var from := pos + |MARK|;
    HasAt(data, from + |h|, NL);
    FindFirst(data, NL, from, from + |h|);
  }

  lemma {:induction false} FindFirst(data: Bytes, c: char, from: nat, k: nat)
    requires from <= k < |data| && data[k] == c && c !in data[from..k]
    ensures Find(data, c, from) == Some(k)
    decreases k - from
  {
    if from < k {
      assert data[from..k][0] == data[from];
      assert data[from + 1..k] == data[from..k][1..];
      FindFirst(data, c, from + 1, k);
    }
  }

  lemma BodyReads(sha: Bytes -> Bytes, data: Bytes, nl: nat, f: Frame)
    requires Has(data, nl + 1, f.content) && Has(data, nl + 1 + |f.content|, [NL]) && f.sha == sha(f.content)
    ensures Body(sha, data, nl, Fields(f), |f.content|) == Parsed(f, |f.content|, nl + 2 + |f.content|)
  {
  }

  lemma HeaderReads(f: Frame)
    requires Clean(f.kind) && Clean(f.ident) && Clean(f.lenText) && Clean(f.sha)
    ensures NL !in Header(f) && Split(Header(f)) == Fields(f)
  {
    JoinHolds(Fields(f), NL);
    SplitOfJoin(Fields(f));
  }

  /** One round, given the header it finds. */
  lemma NextIsBody(sha: Bytes -> Bytes, data: Bytes, pos: nat, nl: nat, h: Bytes, fields: seq<Bytes>, length: int)
    requires pos + |MARK| <= nl <= |data| && HeaderEnd(data, pos) == Some(nl) && h == data[pos + |MARK|..nl]
    requires Split(h) == fields && |fields| == 5 && fields[4] == [] && ParseInt(fields[2]) == Some(length)
    ensures Next(sha, data, pos) == Body(sha, data, nl, fields, length)
  {
  }

  /** A frame's header is found, and its content follows. */
  lemma FrameHeader(data: Bytes, pos: nat, f: Frame)
    requires NL !in Header(f) && Has(data, pos, FrameBytes(f))
    ensures var nl := pos + |MARK| + |Header(f)|;
            && HeaderEnd(data, pos) == Some(nl) && nl <= |data| && data[pos + |MARK|..nl] == Header(f)
            && Has(data, nl + 1, f.content) && Has(data, nl + 1 + |f.content|, [NL])
            && pos + |FrameBytes(f)| == nl + 2 + |f.content|
  {
    FrameParts(data, pos, f);
    HeaderFound(data, pos, Header(f));
  }

  lemma NextAtFrame(sha: Bytes -> Bytes, data: Bytes, pos: nat, f: Frame)
    requires Readable(sha, f) && Has(data, pos, FrameBytes(f))
    ensures Next(sha, data, pos) == Body(sha, data, pos + |MARK| + |Header(f)|, Fields(f), |f.content|)
  {
    HeaderReads(f);
    FrameHeader(data, pos, f);
    NextIsBody(sha, data, pos, pos + |MARK| + |Header(f)|, Header(f), Fields(f), |f.content|);
  }

  lemma BodyAtFrame(sha: Bytes -> Bytes, data: Bytes, pos: nat, f: Frame)
    requires f.sha == sha(f.content) && Has(data, pos, FrameBytes(f))
    ensures Body(sha, data, pos + |MARK| + |Header(f)|, Fields(f), |f.content|)
            == Parsed(f, |f.content|, pos + |FrameBytes(f)|)
  {
    FrameParts(data, pos, f);
    BodyReads(sha, data, pos + |MARK| + |Header(f)|, f);
  }

  /** The parser reads a readable frame, whatever surrounds it and whatever its content is. */
  lemma NextReads(sha: Bytes -> Bytes, data: Bytes, pos: nat, f: Frame)
    requires Readable(sha, f) && Has(data, pos, FrameBytes(f))
    ensures Next(sha, data, pos) == Parsed(f, |f.content|, pos + |FrameBytes(f)|)
  {
    NextAtFrame(sha, data, pos, f);
    BodyAtFrame(sha, data, pos, f);
  }

  lemma BodyInverts(sha: Bytes -> Bytes, data: Bytes, nl: nat, fields: seq<Bytes>, length: nat)
    requires |fields| == 5 && fields[4] == [] && Body(sha, data, nl, fields, length).Parsed?
    ensures var s := Body(sha, data, nl, fields, length);
            && Fields(s.frame) == fields && s.frame.sha == sha(s.frame.content)
            && |s.frame.content| == length && s.length == length && s.next == nl + 2 + length
            && Has(data, nl + 1, s.frame.content) && Has(data, nl + 1 + length, [NL])
  {
  }

  lemma HeaderInverts(data: Bytes, pos: nat, nl: nat)
    requires HeaderEnd(data, pos) == Some(nl) && |Split(data[pos + |MARK|..nl])| == 5
    ensures var fields := Split(data[pos + |MARK|..nl]);
            && Join(fields) == data[pos + |MARK|..nl]
            && (forall i :: 0 <= i < 5 ==> Clean(fields[i]))
            && Has(data, pos, MARK) && Has(data, nl, [NL])
  {
    var header := data[pos + |MARK|..nl];
    JoinOfSplit(header);
    FieldsAreParts(header);
    assert forall i :: 0 <= i < 5 ==> Free(Split(header)[i], header);
    HasAt(data, nl, NL);
  }

  lemma NextShape(sha: Bytes -> Bytes, data: Bytes, pos: nat) returns (nl: nat, fields: seq<Bytes>)
    requires Next(sha, data, pos).Parsed?
    ensures HeaderEnd(data, pos) == Some(nl) && fields == Split(data[pos + |MARK|..nl])
    ensures |fields| == 5 && fields[4] == [] && ParseInt(fields[2]) == Some(Next(sha, data, pos).length)
    ensures Next(sha, data, pos) == Body(sha, data, nl, fields, Next(sha, data, pos).length)
  {
    nl := HeaderEnd(data, pos).value;
    fields := Split(data[pos + |MARK|..nl]);
  }

  lemma FrameOfFields(sha: Bytes -> Bytes, data: Bytes, pos: nat, nl: nat, fields: seq<Bytes>, f: Frame)
    requires Fields(f) == fields && pos + |MARK| <= nl < |data| && Join(fields) == data[pos + |MARK|..nl]
    requires forall i :: 0 <= i < 5 ==> Clean(fields[i])
    requires ParseInt(fields[2]) == Some(|f.content|) && f.sha == sha(f.content)
    requires Has(data, pos, MARK) && Has(data, nl, [NL])
    requires Has(data, nl + 1, f.content) && Has(data, nl + 1 + |f.content|, [NL])
    ensures Readable(sha, f) && Has(data, pos, FrameBytes(f)) && pos + |FrameBytes(f)| == nl + 2 + |f.content|
  {
    assert fields[0] == f.kind && fields[1] == f.ident && fields[2] == f.lenText && fields[3] == f.sha;
    FrameParts(data, pos, f);
  }

  /** What the parser reads with a length of at least zero is a readable frame, byte for byte. */
  lemma NextInverts(sha: Bytes -> Bytes, data: Bytes, pos: nat)
    requires pos <= |data| && Next(sha, data, pos).Parsed? && Next(sha, data, pos).length >= 0
    ensures var s := Next(sha, data, pos);
            && Readable(sha, s.frame)
            && s.next == pos + |FrameBytes(s.frame)|
            && Has(data, pos, FrameBytes(s.frame))
  {
    var s := Next(sha, data, pos);
    var nl, fields := NextShape(sha, data, pos);
    HeaderInverts(data, pos, nl);
    BodyInverts(sha, data, nl, fields, s.length);
    FrameOfFields(sha, data, pos, nl, fields, s.frame);
  }

  /** A position with a mark names a place in the packet, and the header is read from there. */
  lemma MarkPlace(data: Bytes, pos: int)
    requires HeaderEnd(data, pos).Some?
    ensures var q, nl := Place(data, pos), HeaderEnd(data, pos).value;
            && 0 <= q && q + |MARK| <= nl < |data| && HeaderEnd(data, q) == Some(nl)
            && data[q..q + |MARK|] == MARK && data[nl] == NL && NL !in data[q + |MARK|..nl]
            && PySlice(data, pos + |MARK|, nl) == PySlice(data, q + |MARK|, nl) == data[q + |MARK|..nl]
  {
    assert |PySlice(data, pos, pos + |MARK|)| == 6;
  }

  /** A round at a position is a round at the place it names. */
  lemma NextAtPlace(sha: Bytes -> Bytes, data: Bytes, pos: int)
    requires Next(sha, data, pos).Parsed?
    ensures 0 <= Place(data, pos) < |data| && Next(sha, data, Place(data, pos)) == Next(sha, data, pos)
  {
    MarkPlace(data, pos);
  }

  lemma ConcatCons(f: Frame, rest: seq<Frame>)
    ensures Concat([f] + rest) == FrameBytes(f) + Concat(rest)
  {
    assert ([f] + rest)[1..] == rest;
  }

  lemma SuffixSplits(data: Bytes, pos: nat, b: Bytes, rest: Bytes)
    requires pos <= |data|
    ensures data[pos..] == b + rest <==> Has(data, pos, b) && data[pos + |b|..] == rest
  {
    if pos + |b| <= |data| {
      assert data[pos..] == data[pos..pos + |b|] + data[pos + |b|..];
    }
    if data[pos..] == b + rest {
      assert |data[pos..]| == |b| + |rest|;
      assert (b + rest)[..|b|] == b && (b + rest)[|b|..] == rest;
      assert data[pos..][..|b|] == data[pos..pos + |b|] && data[pos..][|b|..] == data[pos + |b|..];
    }
  }

  lemma {:induction false} ConcatSplits(fs: seq<Frame>, i: nat)
    requires i <= |fs|
    ensures Concat(fs) == Concat(fs[..i]) + Concat(fs[i..])
    decreases i
  {
    if i == 0 {
      assert fs[..0] == [] && fs[0..] == fs;
    } else {
      ConcatSplits(fs[1..], i - 1);
      assert fs[..i] == [fs[0]] + fs[1..][..i - 1] && fs[i..] == fs[1..][i - 1..];
      ConcatCons(fs[0], fs[1..][..i - 1]);
    }
  }

  lemma ConcatLast(fs: seq<Frame>, f: Frame)
    ensures Concat(fs + [f]) == Concat(fs) + FrameBytes(f)
  {
    ConcatSplits(fs + [f], |fs|);
    ConcatCons(f, []);
    assert (fs + [f])[..|fs|] == fs && (fs + [f])[|fs|..] == [f] == [f] + [];
  }
}
