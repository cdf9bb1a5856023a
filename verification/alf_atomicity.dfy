/**
 * Crash atomicity of the operation journal: whatever step of a commit a crash strikes, and however
 * often the following recoveries are themselves interrupted, the store ends in the state before
 * the operation or in the state after it.
 */
module AlfAtomicity {
  import opened Wrappers
  import opened HashChain
  import opened AlfRecords
  import opened AlfJournal

  // ---- Staged writes that can be replayed ---------------------------------------------------

  function Applied(s: Store, ws: seq<Staged>, k: nat): Store
    requires k <= |ws|
  {
    if k == 0 then s else Effect(Applied(s, ws, k - 1), ws[k - 1].entry, ws[k - 1].payload)
  }

  /** The write is visible in the store, so that applying it again changes nothing. */
  predicate InEffect(s: Store, w: Staged) {
    match w.entry
    case AppendEntry(p, _, _, pos) =>
      w.payload.LineBytes? && 0 < pos <= |Lines(s, p)| && Lines(s, p)[pos - 1] == w.payload.line
    case ReplaceEntry(f, _, _) => w.payload.ObjBytes? && f in s.files && s.files[f] == w.payload.obj
  }

  /** The write finds its bindings met: it either takes effect now or is in effect already. */
  predicate Exact(s: Store, w: Staged) {
    && !Judge(s, w.entry, w.payload).Divergent?
    && InEffect(Effect(s, w.entry, w.payload), w)
    && (Judge(s, w.entry, w.payload).Already? ==> Effect(s, w.entry, w.payload) == s)
  }

  predicate ExactAt(s: Store, ws: seq<Staged>, k: nat)
    requires k < |ws|
  {
    Exact(Applied(s, ws, k), ws[k])
  }

  ghost predicate Bound(s: Store, ws: seq<Staged>) {
    forall k {:trigger ExactAt(s, ws, k)} :: 0 <= k < |ws| ==> ExactAt(s, ws, k)
  }

  predicate Harmless(v: Staged, w: Staged) {
    v.entry.ReplaceEntry? && w.entry.ReplaceEntry? && v.entry.file == w.entry.file ==> v.payload == w.payload
  }

  ghost predicate Agree(ws: seq<Staged>) {
    forall i, j {:trigger Harmless(ws[i], ws[j])} :: 0 <= i < |ws| && 0 <= j < |ws| ==> Harmless(ws[i], ws[j])
  }

  ghost predicate Hashed(ws: seq<Staged>) {
    forall i :: 0 <= i < |ws| ==> ws[i].entry.content == Sha256(ws[i].payload)
  }

  ghost predicate Sound(s: Store, ws: seq<Staged>) {
    Bound(s, ws) && Agree(ws) && Hashed(ws)
  }

  lemma {:induction false} EarlierInEffect(s: Store, ws: seq<Staged>, j: nat, m: nat)
    requires Sound(s, ws) && j < m <= |ws|
    ensures InEffect(Applied(s, ws, m), ws[j])
    decreases m
  {
    assert ExactAt(s, ws, m - 1);
    if j < m - 1 {
      EarlierInEffect(s, ws, j, m - 1);
      assert Harmless(ws[j], ws[m - 1]);
    }
  }

  /** Applying write j on top of the first m >= j writes succeeds and moves on only if m == j. */
  lemma ReapplyWrite(s: Store, ws: seq<Staged>, j: nat, m: nat, d: Disk)
    requires Sound(s, ws) && j <= m <= |ws| && j < |ws|
    requires d.store == Applied(s, ws, m)
    ensures var next := if m == j then m + 1 else m;
            ApplyWrite(d, ws[j].entry, ws[j].payload)
              == Done(Healed(d, ws[j].entry).(store := Applied(s, ws, next)))
  {
    if j < m {
      EarlierInEffect(s, ws, j, m);
    } else {
      assert ExactAt(s, ws, j);
    }
  }

  // ---- Derived writes are sound -------------------------------------------------------------

  lemma {:induction false} AppliedPrefix(s: Store, a: seq<Staged>, b: seq<Staged>, k: nat)
    requires k <= |a|
    ensures Applied(s, a + b, k) == Applied(s, a, k)
  {
    if k > 0 {
      AppliedPrefix(s, a, b, k - 1);
      assert (a + b)[k - 1] == a[k - 1];
    }
  }

  lemma {:induction false} AppliedSuffix(s: Store, a: seq<Staged>, b: seq<Staged>, k: nat)
    requires k <= |b|
    ensures Applied(s, a + b, |a| + k) == Applied(Applied(s, a, |a|), b, k)
  {
    if k == 0 {
      AppliedPrefix(s, a, b, |a|);
    } else {
      AppliedSuffix(s, a, b, k - 1);
      assert (a + b)[|a| + k - 1] == b[k - 1];
    }
  }

  lemma BoundConcat(s: Store, a: seq<Staged>, b: seq<Staged>)
    requires Bound(s, a) && Bound(Applied(s, a, |a|), b)
    ensures Bound(s, a + b)
  {
    forall k | 0 <= k < |a + b| ensures ExactAt(s, a + b, k) {
      if k < |a| {
        AppliedPrefix(s, a, b, k);
        assert ExactAt(s, a, k);
      } else {
        AppliedSuffix(s, a, b, k - |a|);
        assert ExactAt(Applied(s, a, |a|), b, k - |a|);
      }
    }
  }

  lemma {:induction false} StagedAppendsHashed(s: Store, appends: seq<Append>)
    ensures var ws := StageAppends(s, appends);
            Hashed(ws) && forall i {:trigger ws[i]} :: 0 <= i < |ws| ==> ws[i].entry.AppendEntry?
    decreases |appends|
  {
    if appends != [] {
      var ws := StageAppends(s, appends);
      var a := appends[0];
      var rest := StageAppends(AppendRow(s, a.chain, Chained(a.row, ChainHead(Lines(s, a.chain)))), appends[1..]);
      StagedAppendsHashed(AppendRow(s, a.chain, Chained(a.row, ChainHead(Lines(s, a.chain)))), appends[1..]);
      assert forall i :: 0 < i < |ws| ==> ws[i] == rest[i - 1];
    }
  }

  lemma {:induction false} StagedAppendsBound(s: Store, appends: seq<Append>)
    ensures Bound(s, StageAppends(s, appends))
    ensures Hashed(StageAppends(s, appends))
    ensures forall i {:trigger StageAppends(s, appends)[i]} :: 0 <= i < |StageAppends(s, appends)|
              ==> StageAppends(s, appends)[i].entry.AppendEntry?
    ensures Applied(s, StageAppends(s, appends), |StageAppends(s, appends)|).files == s.files
    decreases |appends|
  {
    StagedAppendsHashed(s, appends);
    if appends != [] {
      var ws := StageAppends(s, appends);
      var a := appends[0];
      var t := AppendRow(s, a.chain, Chained(a.row, ChainHead(Lines(s, a.chain))));
      StagedAppendsBound(t, appends[1..]);
      var first, rest := ws[..1], ws[1..];
      assert rest == StageAppends(t, appends[1..]) && ws == first + rest;
      assert Applied(s, first, 1) == t by { assert Applied(s, first, 0) == s; }
      assert Bound(s, first);
      BoundConcat(s, first, rest);
      AppliedSuffix(s, first, rest, |rest|);
    }
  }

  /** No two rewrites give one file different contents. */
  ghost predicate Consistent(rewrites: seq<Replace>) {
    forall i, j :: 0 <= i < |rewrites| && 0 <= j < |rewrites| && rewrites[i].file == rewrites[j].file
      ==> rewrites[i].obj == rewrites[j].obj
  }

  /** The file still has the bytes it was bound to, or the new ones. */
  predicate Pending(s0: Store, t: Store, r: Replace) {
    FileHash(t, r.file) == FileHash(s0, r.file) || FileHash(t, r.file) == Some(Sha256(ObjBytes(r.obj)))
  }

  lemma {:induction false} StagedRewritesPending(s0: Store, t: Store, rs: seq<Replace>, k: nat)
    requires Consistent(rs) && k <= |rs|
    requires forall i :: 0 <= i < |rs| ==> FileHash(t, rs[i].file) == FileHash(s0, rs[i].file)
    ensures forall i :: 0 <= i < |rs| ==> Pending(s0, Applied(t, StageRewrites(s0, rs), k), rs[i])
  {
    if k > 0 {
      StagedRewritesPending(s0, t, rs, k - 1);
    }
  }

  lemma StagedRewritesBound(s0: Store, t: Store, rs: seq<Replace>)
    requires Consistent(rs)
    requires forall i :: 0 <= i < |rs| ==> FileHash(t, rs[i].file) == FileHash(s0, rs[i].file)
    ensures Bound(t, StageRewrites(s0, rs))
  {
    var ws := StageRewrites(s0, rs);
    forall k | 0 <= k < |ws| ensures ExactAt(t, ws, k) {
      StagedRewritesPending(s0, t, rs, k);
      assert Pending(s0, Applied(t, ws, k), rs[k]);
    }
  }

  /** A caller's operation whose replay is deterministic; the checkpoint file is not the caller's. */
  ghost predicate WellFormed(op: Intents) {
    && Consistent(op.rewrites)
    && forall i :: 0 <= i < |op.rewrites| ==> op.rewrites[i].file != ExpectedHeads
  }

  lemma DeriveSound(d: Disk, op: Intents)
    requires WellFormed(op)
    ensures Sound(d.store, Derive(d, op))
  {
    var a := StageAppends(d.store, Group(op.appends));
    var rs := AllRewrites(d, op);
    var b := StageRewrites(d.store, rs);
    StagedAppendsBound(d.store, Group(op.appends));
    StagedRewritesBound(d.store, Applied(d.store, a, |a|), rs);
    BoundConcat(d.store, a, b);
    var ws := a + b;
    forall i, j | 0 <= i < |ws| && 0 <= j < |ws| ensures Harmless(ws[i], ws[j]) {
      if i >= |a| && j >= |a| {
        assert ws[i] == b[i - |a|] && ws[j] == b[j - |a|];
      }
    }
  }

  // ---- Runs of the two programs --------------------------------------------------------------

  function TargetsFrom(ws: seq<Staged>, j: nat): set<Path> {
    set i | j <= i < |ws| && ws[i].entry.AppendEntry? :: ws[i].entry.chain
  }

  ghost predicate AllStaged(d: Disk, id: OpId, ws: seq<Staged>) {
    forall n {:trigger StagedBytes(d, id, n)} :: 0 <= n < |ws| ==> StagedBytes(d, id, n) == Some(ws[n].payload)
  }

  /** d and e differ at most in what is staged and in the unterminated end of the journal. */
  predicate SameButStaging(d: Disk, e: Disk) {
    e == d.(staged := e.staged, journalTorn := e.journalTorn)
  }

  lemma {:induction false} StageSteps(d: Disk, id: OpId, ws: seq<Staged>, n: nat, rest: Prog, fuse: Option<Crash>)
    returns (e: Disk, f: Option<Crash>, crashed: bool)
    requires n <= |ws|
    requires forall i {:trigger StagedBytes(d, id, i)} :: 0 <= i < n ==> StagedBytes(d, id, i) == Some(ws[i].payload)
    ensures SameButStaging(d, e) && e.journalTorn == d.journalTorn
    ensures forall other :: other != id ==> Get(e.staged, other) == Get(d.staged, other)
    ensures crashed ==> fuse.Some? && Run(d, StageProg(id, ws, n, rest), fuse) == Outcome(e, Crashed)
    ensures !crashed ==> AllStaged(e, id, ws) && Run(d, StageProg(id, ws, n, rest), fuse) == Run(e, rest, f)
    ensures !crashed && fuse.None? ==> f.None?
    decreases |ws| - n
  {
    if n == |ws| {
      e, f, crashed := d, fuse, false;
    } else if fuse.Some? && fuse.value.after == 0 {
      e, f, crashed := Interrupt(d, Stage(id, n, ws[n].payload), fuse.value.tear), None, true;
    } else {
      var d' := PutStaged(d, id, n, ws[n].payload);
      forall i | 0 <= i < n + 1 ensures StagedBytes(d', id, i) == Some(ws[i].payload) {
        assert i < n ==> StagedBytes(d, id, i) == Some(ws[i].payload);
      }
      e, f, crashed := StageSteps(d', id, ws, n + 1, rest, Burn(fuse));
    }
  }

  /** Healing the target of write j leaves only later targets torn; a crash tears only targets. */
  lemma TornTargets(d: Disk, ws: seq<Staged>, j: nat, tear: Tear)
    requires j < |ws|
    ensures d.torn <= TargetsFrom(ws, j) ==> Healed(d, ws[j].entry).torn <= TargetsFrom(ws, j + 1)
    ensures var e := Interrupt(d, Apply(ws[j].entry, ws[j].payload), tear);
            e == d.(torn := e.torn) && e.torn <= d.torn + TargetsFrom(ws, 0)
  {
    if ws[j].entry.AppendEntry? {
      assert ws[j].entry.chain in TargetsFrom(ws, 0);
    }
    forall p | p in TargetsFrom(ws, j) && p !in TargetsFrom(ws, j + 1)
      ensures ws[j].entry.AppendEntry? && p == ws[j].entry.chain
    {
    }
  }

  /** From the first m writes applied, applying from write j <= m on reaches all of them. */
  lemma {:induction false} ApplySteps(s: Store, ws: seq<Staged>, d: Disk, j: nat, m: nat, rest: Prog,
                                      fuse: Option<Crash>)
    returns (e: Disk, f: Option<Crash>, crashed: bool, k: nat)
    requires Sound(s, ws) && j <= m <= |ws|
    requires d.store == Applied(s, ws, m)
    ensures m <= k <= |ws| && e == d.(store := Applied(s, ws, k), torn := e.torn)
    ensures crashed ==> fuse.Some? && e.torn <= d.torn + TargetsFrom(ws, 0)
                        && Run(d, ApplyProg(ws, j, rest), fuse) == Outcome(e, Crashed)
    ensures !crashed ==> k == |ws| && Run(d, ApplyProg(ws, j, rest), fuse) == Run(e, rest, f)
    ensures !crashed && d.torn <= TargetsFrom(ws, j) ==> e.torn == {}
    ensures !crashed && fuse.None? ==> f.None?
    decreases |ws| - j
  {
    if j == |ws| {
      e, f, crashed, k := d, fuse, false, m;
    } else if fuse.Some? && fuse.value.after == 0 {
      TornTargets(d, ws, j, fuse.value.tear);
      e := Interrupt(d, Apply(ws[j].entry, ws[j].payload), fuse.value.tear);
      f, crashed, k := None, true, m;
    } else {
      ReapplyWrite(s, ws, j, m, d);
      TornTargets(d, ws, j, Unstarted);
      var next := if m == j then m + 1 else m;
      var d' := Healed(d, ws[j].entry).(store := Applied(s, ws, next));
      e, f, crashed, k := ApplySteps(s, ws, d', j + 1, next, rest, Burn(fuse));
    }
  }

  /** Replaying from the staged bytes does what applying from memory does. */
  lemma {:induction false} ReplayIsApply(d: Disk, id: OpId, ws: seq<Staged>, n: nat, rest: Prog, fuse: Option<Crash>)
    requires n <= |ws| && Hashed(ws) && AllStaged(d, id, ws)
    ensures Run(d, ReplayProg(id, Entries(ws), n, rest), fuse) == Run(d, ApplyProg(ws, n, rest), fuse)
    decreases |ws| - n
  {
    if n < |ws| {
      assert StagedBytes(d, id, n) == Some(ws[n].payload);
      if fuse.None? || fuse.value.after > 0 {
        var x := ApplyWrite(d, ws[n].entry, ws[n].payload);
        if x.Done? {
          assert AllStaged(x.disk, id, ws) by {
            forall i | 0 <= i < |ws| ensures StagedBytes(x.disk, id, i) == Some(ws[i].payload) {
              assert StagedBytes(d, id, i) == Some(ws[i].payload);
            }
          }
          ReplayIsApply(x.disk, id, ws, n + 1, rest, Burn(fuse));
        }
      }
    }
  }

  /** Every record from i up to `limit` needs only cleanup. */
  ghost predicate OnlyCleanup(journal: seq<Line<JRecord>>, i: nat, limit: nat)
    requires i <= limit <= |journal|
  {
    forall k {:trigger journal[k]} :: i <= k < limit && journal[k].payload.OpBegin? ==>
        Committed(journal, journal[k].payload.op)
  }

  lemma {:induction false} CleanupSteps(journal: seq<Line<JRecord>>, d: Disk, i: nat, limit: nat, fuse: Option<Crash>)
    returns (e: Disk, f: Option<Crash>, crashed: bool)
    requires i <= limit <= |journal| && OnlyCleanup(journal, i, limit)
    ensures SameButStaging(d, e) && e.journalTorn == d.journalTorn
    ensures forall keep: OpId {:trigger Get(e.staged, keep)} :: !Committed(journal, keep) ==>
            Get(e.staged, keep) == Get(d.staged, keep)
    ensures crashed ==> fuse.Some? && Run(d, BeginsProg(journal, i), fuse) == Outcome(e, Crashed)
    ensures !crashed ==> Run(d, BeginsProg(journal, i), fuse) == Run(e, BeginsProg(journal, limit), f)
    ensures !crashed && fuse.None? ==> f.None?
    decreases limit - i
  {
    if i == limit {
      e, f, crashed := d, fuse, false;
    } else if journal[i].payload.OpCommit? {
      e, f, crashed := CleanupSteps(journal, d, i + 1, limit, fuse);
    } else {
      var op := journal[i].payload.op;
      if fuse.Some? && fuse.value.after == 0 {
        e, f, crashed := Interrupt(d, RemoveStaging(op), fuse.value.tear), None, true;
      } else {
        e, f, crashed := CleanupSteps(journal, DropStaging(d, op), i + 1, limit, Burn(fuse));
      }
    }
  }
}
