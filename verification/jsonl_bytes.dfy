/**
 * The byte level of the chained JSONL files: splitting at newlines and healing a torn tail.
 * It justifies treating such a file as its complete lines plus a flag for an unterminated end.
 */
module JsonlBytes {
  type Bytes = seq<int>

  const NEWLINE := 10

  predicate NoNewline(b: Bytes) {
    NEWLINE !in b
  }

  /** Length of the part of the data that ends with its last newline (0 without one). */
  function Complete(data: Bytes): (n: nat)
    ensures n <= |data|
  {
    if data == [] then 0
    else if data[|data| - 1] == NEWLINE then |data|
    else Complete(data[..|data| - 1])
  }

  /** The complete lines, without their newlines. */
  function LinesOf(data: Bytes): seq<Bytes>
    decreases |data|
  {
    if data == [] then []
    else
      var rest := data[..|data| - 1];
      if data[|data| - 1] == NEWLINE then LinesOf(data[..Complete(rest)]) + [rest[Complete(rest)..]]
      else LinesOf(data[..Complete(rest)])
  }

  /** `_heal_torn_tail`: what is kept and what is moved to quarantine. */
  method HealTornTail(data: Bytes) returns (kept: Bytes, torn: Bytes)
    ensures kept + torn == data && NoNewline(torn)
    ensures kept == [] || kept[|kept| - 1] == NEWLINE
    ensures kept == data[..Complete(data)]
  {
    var idx := |data|;
    assert data[..|data|] == data;
    while idx > 0 && data[idx - 1] != NEWLINE
      invariant 0 <= idx <= |data|
      invariant NoNewline(data[idx..])
      invariant Complete(data[..idx]) == Complete(data)
    {
      assert data[..idx][..idx - 1] == data[..idx - 1];
      assert data[idx - 1..] == [data[idx - 1]] + data[idx..];
      idx := idx - 1;
    }
    assert idx > 0 ==> data[..idx][idx - 1] == NEWLINE;
    kept, torn := data[..idx], data[idx..];
  }

  lemma {:induction false} CompleteIgnoresTail(data: Bytes, tail: Bytes)
    requires NoNewline(tail)
    ensures Complete(data + tail) == Complete(data)
    decreases |tail|
  {
    if tail == [] {
      assert data + tail == data;
    } else {
      var shorter := tail[..|tail| - 1];
      assert (data + tail)[..|data + tail| - 1] == data + shorter;
      assert (data + tail)[|data + tail| - 1] == tail[|tail| - 1];
      CompleteIgnoresTail(data, shorter);
    }
  }

  predicate Terminated(data: Bytes) {
    Complete(data) == |data|
  }

  /** Appending a whole line to a terminated file adds exactly that line. */
  lemma AppendLine(data: Bytes, line: Bytes)
    requires Terminated(data) && NoNewline(line)
    ensures Terminated(data + line + [NEWLINE])
    ensures LinesOf(data + line + [NEWLINE]) == LinesOf(data) + [line]
  {
    var all := data + line + [NEWLINE];
    assert all[..|all| - 1] == data + line;
    CompleteIgnoresTail(data, line);
    assert all[..|data|] == data && (data + line)[|data|..] == line;
  }

  lemma {:induction false} LinesIgnoreTail(data: Bytes, tail: Bytes)
    requires Terminated(data) && NoNewline(tail)
    ensures LinesOf(data + tail) == LinesOf(data)
  {
    if tail == [] {
      assert data + tail == data;
    } else {
      var shorter := tail[..|tail| - 1];
      assert (data + tail)[..|data + tail| - 1] == data + shorter;
      assert (data + tail)[|data + tail| - 1] == tail[|tail| - 1];
      CompleteIgnoresTail(data, shorter);
      assert (data + tail)[..|data|] == data;
    }
  }

  /**
   * A torn append: whatever strict prefix of a line reached the disk, the complete lines are those
   * of before, and healing gives back the bytes of before.
   */
  lemma TornAppendHeals(data: Bytes, line: Bytes, n: nat)
    requires Terminated(data) && NoNewline(line) && n <= |line|
    ensures LinesOf(data + line[..n]) == LinesOf(data)
    ensures (data + line[..n])[..Complete(data + line[..n])] == data
    ensures Terminated(data + line[..n]) <==> n == 0
  {
    assert NoNewline(line[..n]);
    CompleteIgnoresTail(data, line[..n]);
    LinesIgnoreTail(data, line[..n]);
    assert (data + line[..n])[..|data|] == data;
  }
}
