/**
 * What an operation does to the store, said without its staged writes: every chained file is
 * extended by the caller's rows for it, in the caller's order, and every rewritten file holds the
 * caller's content.
 */
module AlfPost {
  import opened Wrappers
  import opened HashChain
  import opened AlfRecords
  import opened AlfJournal
  import opened AlfAtomicity
  import opened AlfRecovery

  /** A chain extended row by row. */
  function Extended(lines: seq<Line<Row>>, rows: seq<Row>): seq<Line<Row>>
    decreases |rows|
  {
    if rows == [] then lines else Extended(lines + [Chained(rows[0], ChainHead(lines))], rows[1..])
  }

  function Rewritten(files: map<FilePath, Obj>, rewrites: seq<Replace>): map<FilePath, Obj>
    decreases |rewrites|
  {
    if rewrites == [] then files
    else Rewritten(files, rewrites[..|rewrites| - 1])[rewrites[|rewrites| - 1].file := rewrites[|rewrites| - 1].obj]
  }

  lemma {:induction false} ExtendedGrows(lines: seq<Line<Row>>, rows: seq<Row>)
    ensures lines <= Extended(lines, rows)
    ensures |Extended(lines, rows)| == |lines| + |rows|
    ensures forall i :: 0 <= i < |rows| ==> Extended(lines, rows)[|lines| + i].payload == rows[i]
    ensures ChainOk(lines) ==> ChainOk(Extended(lines, rows))
    decreases |rows|
  {
    if rows != [] {
      if ChainOk(lines) {
        ChainExtends(lines, rows[0]);
      }
      ExtendedGrows(lines + [Chained(rows[0], ChainHead(lines))], rows[1..]);
      var r := Extended(lines, rows);
      forall i | 0 <= i < |rows| ensures r[|lines| + i].payload == rows[i] {
        if i > 0 {
          assert rows[i] == rows[1..][i - 1];
        }
      }
    }
  }

  lemma {:induction false} ExtendedConcat(lines: seq<Line<Row>>, a: seq<Row>, b: seq<Row>)
    ensures Extended(lines, a + b) == Extended(Extended(lines, a), b)
    decreases |a|
  {
    if a == [] {
      assert a + b == b;
    } else {
      assert (a + b)[1..] == a[1..] + b;
      ExtendedConcat(lines + [Chained(a[0], ChainHead(lines))], a[1..], b);
    }
  }

  // ---- Grouping per target keeps the order of the rows of each target -----------------------

  lemma {:induction false} RowsOfConcat(a: seq<Append>, b: seq<Append>, p: Path)
    ensures RowsFor(a + b, p) == RowsFor(a, p) + RowsFor(b, p)
    decreases |a|
  {
    if a == [] {
      assert a + b == b;
    } else {
      var first, rest := a[0], a[1..];
      RowsOfConcat(rest, b, p);
      assert a == [first] + rest && a + b == [first] + (rest + b);
    }
  }

  lemma {:induction false} RowsOfOnly(appends: seq<Append>, q: Path, same: bool, p: Path)
    ensures RowsFor(Only(appends, q, same), p) == if (p == q) == same then RowsFor(appends, p) else []
    decreases |appends|
  {
    if appends != [] {
      RowsOfOnly(appends[1..], q, same, p);
      var rest := Only(appends[1..], q, same);
      if (appends[0].chain == q) == same {
        assert Only(appends, q, same) == [appends[0]] + rest;
      } else {
        assert Only(appends, q, same) == rest;
      }
    }
  }

  lemma {:induction false} RowsOfGroup(appends: seq<Append>, p: Path)
    ensures RowsFor(Group(appends), p) == RowsFor(appends, p)
    decreases |appends|
  {
    if appends != [] {
      var first, rest := appends[0], appends[1..];
      var same, others := Only(rest, first.chain, true), Only(rest, first.chain, false);
      OnlyShrinks(rest, first.chain, false);
      RowsOfGroup(others, p);
      RowsOfParts(first, rest, same, Group(others), p);
      assert Group(appends) == [first] + (same + Group(others));
      assert appends == [first] + rest;
    }
  }

  lemma RowsOfParts(first: Append, rest: seq<Append>, same: seq<Append>, grouped: seq<Append>, p: Path)
    requires same == Only(rest, first.chain, true)
    requires RowsFor(grouped, p) == RowsFor(Only(rest, first.chain, false), p)
    ensures RowsFor([first] + (same + grouped), p) == RowsFor([first] + rest, p)
  {
    RowsOfConcat(same, grouped, p);
    RowsOfOnly(rest, first.chain, true, p);
    RowsOfOnly(rest, first.chain, false, p);
  }

  // ---- The store after the staged writes ------------------------------------------------------

  lemma StageAppendsUnfolds(s: Store, appends: seq<Append>) returns (t: Store)
    requires appends != []
    ensures t == AppendRow(s, appends[0].chain, Chained(appends[0].row, ChainHead(Lines(s, appends[0].chain))))
    ensures var ws, rest := StageAppends(s, appends), StageAppends(t, appends[1..]);
            |ws| == |rest| + 1 && Applied(s, ws, |ws|) == Applied(t, rest, |rest|)
  {
    var a := appends[0];
    t := AppendRow(s, a.chain, Chained(a.row, ChainHead(Lines(s, a.chain))));
    var ws := StageAppends(s, appends);
    assert ws == ws[..1] + ws[1..] && ws[1..] == StageAppends(t, appends[1..]);
    AppliedSuffix(s, ws[..1], ws[1..], |ws[1..]|);
    assert Applied(s, ws[..1], 1) == t by { assert Applied(s, ws[..1], 0) == s; }
  }

  lemma {:induction false} AfterAppends(s: Store, appends: seq<Append>, p: Path)
    ensures var ws := StageAppends(s, appends);
            && Lines(Applied(s, ws, |ws|), p) == Extended(Lines(s, p), RowsFor(appends, p))
            && Applied(s, ws, |ws|).files == s.files
    decreases |appends|
  {
    if appends != [] {
      var a, rest := appends[0], appends[1..];
      var t := StageAppendsUnfolds(s, appends);
      AfterAppends(t, rest, p);
      assert appends == [a] + rest;
      if a.chain == p {
      } else {
        assert RowsFor(appends, p) == [] + RowsFor(rest, p) == RowsFor(rest, p);
      }
    }
  }

  lemma {:induction false} AfterRewrites(s0: Store, t: Store, rs: seq<Replace>, k: nat)
    requires k <= |rs|
    ensures Applied(t, StageRewrites(s0, rs), k) == t.(files := Rewritten(t.files, rs[..k]))
  {
    if k > 0 {
      AfterRewrites(s0, t, rs, k - 1);
      assert rs[..k][..k - 1] == rs[..k - 1];
    }
  }

  /** The number of lines and the digest of the last one; an empty file has the sentinel. */
  predicate Records<P(==)>(head: Head<P>, lines: seq<Line<P>>) {
    && head.count == |lines|
    && (lines == [] ==> head.digest == Sentinel)
    && (lines != [] ==> head.digest == lines[|lines| - 1].sha)
  }

  /** The checkpoint on disk records the journal and the three chained files as they were in s. */
  predicate LiveRecords(files: map<FilePath, Obj>, s: Store, journal: seq<Line<JRecord>>) {
    var live := Get(files, ExpectedHeads);
    && live.Some? && live.value.CheckpointObj?
    && Records(live.value.checkpoint.journal, journal)
    && Records(live.value.checkpoint.index, Lines(s, Index))
    && Records(live.value.checkpoint.occurrences, Lines(s, Occurrences))
    && Records(live.value.checkpoint.ledger, Lines(s, Ledger))
  }

  /**
   * The meaning of an operation, in terms of what the caller registered, and the checkpoint that comes
   * with it.
   */
  lemma PostMeaning(t: Txn)
    ensures forall p :: Lines(t.Post(), p) == Extended(Lines(t.base.store, p), RowsFor(t.op.appends, p))
    ensures t.Post().files == Rewritten(t.base.store.files, AllRewrites(t.base, t.op))
    ensures forall f :: f != ExpectedHeads ==>
              Get(t.Post().files, f) == Get(Rewritten(t.base.store.files, t.op.rewrites), f)
    ensures LiveRecords(t.Post().files, t.base.store, t.base.journal)
  {
    var s, rs := t.base.store, AllRewrites(t.base, t.op);
    var a := StageAppends(s, Group(t.op.appends));
    var b := StageRewrites(s, rs);
    AppliedSuffix(s, a, b, |b|);
    AfterRewrites(s, Applied(s, a, |a|), rs, |rs|);
    assert rs[..|rs|] == rs;
    assert rs[..|rs| - 1] == t.op.rewrites;
    forall p
      ensures Lines(t.Post(), p) == Extended(Lines(s, p), RowsFor(t.op.appends, p))
      ensures Applied(s, a, |a|).files == s.files
    {
      AfterAppends(s, Group(t.op.appends), p);
      RowsOfGroup(t.op.appends, p);
    }
  }

  lemma {:induction false} RewrittenAt(files: map<FilePath, Obj>, rewrites: seq<Replace>, f: FilePath)
    requires Consistent(rewrites)
    ensures (forall i :: 0 <= i < |rewrites| ==> rewrites[i].file != f)
            ==> Get(Rewritten(files, rewrites), f) == Get(files, f)
    ensures forall i :: (0 <= i < |rewrites| && rewrites[i].file == f
                         ==> Get(Rewritten(files, rewrites), f) == Some(rewrites[i].obj))
    decreases |rewrites|
  {
    if rewrites != [] {
      var n := |rewrites| - 1;
      var front, last := rewrites[..n], rewrites[n];
      assert forall i :: 0 <= i < n ==> front[i] == rewrites[i];
      RewrittenAt(files, front, f);
      var after := Rewritten(files, rewrites);
      assert after == Rewritten(files, front)[last.file := last.obj];
      forall i | 0 <= i <= n && rewrites[i].file == f ensures Get(after, f) == Some(rewrites[i].obj) {
        if last.file == f {
          assert rewrites[i].obj == last.obj;
        } else {
          assert front[i] == rewrites[i];
        }
      }
    }
  }

  /** A committed operation leaves a settled disk settled. */
  lemma AfterIsSettled(t: Txn, d: Disk)
    requires Governed(t) && IsAfter(t, d)
    ensures Settled(d)
    ensures LiveRecords(d.store.files, t.base.store, t.base.journal)
  {
    var base := t.base;
    PostMeaning(t);
    forall p ensures Lines(base.store, p) <= Lines(d.store, p) && ChainOk(Lines(d.store, p)) {
      ExtendedGrows(Lines(base.store, p), RowsFor(t.op.appends, p));
    }
    FinishedIsPaired(t);
    var rs := AllRewrites(base, t.op);
    assert Rewritten(base.store.files, rs)[ExpectedHeads] == rs[|rs| - 1].obj;
  }

  lemma FinishedIsPaired(t: Txn)
    requires Settled(t.base)
    ensures ChainOk(t.FinishedJournal()) && Paired(t.FinishedJournal()) && t.base.journal <= t.FinishedJournal()
    ensures LastCheckpoint(t.FinishedJournal()) == Some(PreCheckpoint(t.base.store, t.base.journal))
  {
    FreshId(t);
    ChainExtends(t.base.journal, OpBegin(t.Id(), Entries(t.Writes())));
    ChainExtends(t.BegunJournal(), OpCommit(t.Id()));
    var journal := t.FinishedJournal();
    var n := |journal|;
    assert journal[..n - 2] == t.base.journal;
    assert journal[n - 2] == t.BeginLine();
  }

}
