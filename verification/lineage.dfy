/**
 * Sensitivity lineage (tools/clearwright_egress_guard.py): the recursive, fail-closed resolver over a
 * graph that may be cyclic or incomplete, and what its answer means.
 */
module Lineage {
  import opened Wrappers

  type NodeId = string

  datatype Sensitivity = Standard | Its | Sensitive

  function Rank(s: Sensitivity): nat {
    match s case Standard => 0 case Its => 1 case Sensitive => 2
  }

  function MaxOf(a: Sensitivity, b: Sensitivity): Sensitivity {
    if Rank(b) > Rank(a) then b else a
  }

  datatype Classification = Raw | Machine | SanitizedOk
  datatype ProvenanceClass = ApprovedRepoFile | SyntheticFixture | FixedScaffold | OtherClass
  datatype Domain = Clinical | NonClinical | Unknown

  datatype Sanitizer = Sanitizer(approvedId: bool, currentPolicy: bool, hasProof: bool)

  /** `scanned` is None for a node without generated content, else its scan_passed flag. */
  datatype Node = Node(classification: Classification, sources: seq<NodeId>, provenance: ProvenanceClass,
                       assertsStandard: bool, escalated: bool, domain: Domain, sanitizer: Sanitizer,
                       scanned: Option<bool>)

  type Graph = map<NodeId, Node>

  predicate StandardProvenance(p: ProvenanceClass) {
    p.ApprovedRepoFile? || p.SyntheticFixture?
  }

  function Base(node: Node): Sensitivity {
    if StandardProvenance(node.provenance) then Standard
    else if node.provenance.FixedScaffold? then Its
    else Sensitive
  }

  /** A generated node without declared sources. */
  predicate Ambiguous(node: Node) {
    !node.escalated && node.classification.Machine? && node.sources == []
  }

  // ---- The resolver ---------------------------------------------------------------------------

  datatype Problem = Cycle | SourceMissing | NoSources
  datatype Resolved = Ok(level: Sensitivity) | Err(problem: Problem)

  function Free(g: Graph, stack: seq<NodeId>): set<NodeId> {
    set n | n in g && n !in stack
  }

  lemma FreeShrinks(g: Graph, stack: seq<NodeId>, n: NodeId)
    requires n in g && n !in stack
    ensures |Free(g, stack + [n])| < |Free(g, stack)|
  {
    assert Free(g, stack + [n]) == Free(g, stack) - {n};
  }

  /** `resolve_sensitivity` of a node, below the nodes on the stack. */
  function Resolve(g: Graph, n: NodeId, stack: seq<NodeId>): Resolved
    decreases |Free(g, stack)|, 0, 0
  {
    if n in stack then Err(Cycle)
    else if n !in g then Err(SourceMissing)
    else if g[n].escalated then Ok(Sensitive)
    else if Ambiguous(g[n]) then Err(NoSources)
    else if g[n].classification.Raw? && g[n].sources == [] then Ok(Base(g[n]))
    else
      FreeShrinks(g, stack, n);
      var worst := MaxSources(g, g[n].sources, stack + [n]);
      if worst.Err? then worst else Ok(Combine(g[n], worst.level))
  }

  /** What a node that is not escalated makes of the worst of its sources. */
  function Combine(node: Node, worst: Sensitivity): Sensitivity {
    match node.classification
    case Raw =>
      var base := Base(node);
      if base.Sensitive? then Sensitive else if Rank(worst) >= Rank(base) then worst else base
    case SanitizedOk => worst
    case Machine =>
      match node.scanned
      case None => worst
      case Some(passed) => if !passed || worst.Sensitive? then Sensitive else Its
  }

  /** `_max_sources`: the first source that fails decides, else the worst one. */
  function MaxSources(g: Graph, sources: seq<NodeId>, stack: seq<NodeId>): Resolved
    decreases |Free(g, stack)|, 1, |sources|
  {
    if sources == [] then Ok(Standard)
    else
      var before := MaxSources(g, sources[..|sources| - 1], stack);
      if before.Err? then before
      else
        var last := Resolve(g, sources[|sources| - 1], stack);
        if last.Err? then last else Ok(MaxOf(before.level, last.level))
  }

  // ---- What the answer means ------------------------------------------------------------------

  /** The sensitivity a node has of its own, whatever its sources are. */
  function Local(node: Node): Sensitivity {
    if node.escalated then Sensitive
    else
      match node.classification
      case Raw => Base(node)
      case SanitizedOk => Standard
      case Machine => match node.scanned case None => Standard case Some(passed) => if passed then Its else Sensitive
  }

  predicate IsPath(g: Graph, p: seq<NodeId>) {
    && p != []
    && (forall i :: 0 <= i < |p| ==> p[i] in g)
    && (forall i :: 0 <= i < |p| - 1 ==> p[i + 1] in g[p[i]].sources)
  }

  predicate Connects(g: Graph, p: seq<NodeId>, n: NodeId, m: NodeId) {
    IsPath(g, p) && p[0] == n && p[|p| - 1] == m
  }

  /** m is n, or can be reached from n through declared sources that exist. */
  ghost predicate Ancestor(g: Graph, n: NodeId, m: NodeId) {
    exists p :: Connects(g, p, n, m)
  }

  /** level is the maximum of the local sensitivities of n and everything reachable from it. */
  ghost predicate IsWorst(g: Graph, n: NodeId, level: Sensitivity) {
    && (forall m :: Ancestor(g, n, m) ==> Rank(Local(g[m])) <= Rank(level))
    && (exists m :: Ancestor(g, n, m) && Local(g[m]) == level)
  }

  lemma {:induction false} WorstOfSources(g: Graph, sources: seq<NodeId>, stack: seq<NodeId>)
    requires MaxSources(g, sources, stack).Ok?
    ensures var w := MaxSources(g, sources, stack).level;
            && (forall i :: 0 <= i < |sources| ==>
                  Resolve(g, sources[i], stack).Ok? && Rank(Resolve(g, sources[i], stack).level) <= Rank(w))
            && (w == Standard || exists i :: 0 <= i < |sources| && Resolve(g, sources[i], stack) == Ok(w))
    decreases |sources|
  {
    if sources != [] {
      WorstOfSources(g, sources[..|sources| - 1], stack);
    }
  }

  lemma PathTail(g: Graph, p: seq<NodeId>, n: NodeId, m: NodeId)
    requires Connects(g, p, n, m) && |p| > 1
    ensures Connects(g, p[1..], p[1], m) && Ancestor(g, p[1], m)
  {
    assert forall i :: 0 <= i < |p| - 1 ==> p[1..][i] == p[i + 1];
  }

  lemma PathPrepend(g: Graph, n: NodeId, p: seq<NodeId>, m: NodeId)
    requires n in g && p != [] && p[0] in g[n].sources && Connects(g, p, p[0], m)
    ensures Connects(g, [n] + p, n, m) && Ancestor(g, n, m)
  {
    var q := [n] + p;
    assert forall i :: 0 <= i < |p| ==> q[i + 1] == p[i];
    forall i | 0 <= i < |q| - 1 ensures q[i] in g && q[i + 1] in g[q[i]].sources {
      if i > 0 {
        assert q[i] == p[i - 1] && q[i + 1] == p[i];
        assert p[i - 1 + 1] in g[p[i - 1]].sources;
      }
    }
    assert forall i :: 0 <= i < |q| ==> q[i] in g;
    assert q[0] == n && q[|q| - 1] == m;
    assert Connects(g, q, n, m);
  }

  lemma SelfAncestor(g: Graph, n: NodeId)
    requires n in g
    ensures Ancestor(g, n, n)
  {
    assert Connects(g, [n], n, n);
  }

  /** Whenever the resolver answers, the answer is the worst local class among n and its ancestors. */
  lemma {:induction false} ResolvesToWorst(g: Graph, n: NodeId, stack: seq<NodeId>)
    requires Resolve(g, n, stack).Ok?
    ensures IsWorst(g, n, Resolve(g, n, stack).level)
    decreases |Free(g, stack)|
  {
    var node, level := g[n], Resolve(g, n, stack).level;
    SelfAncestor(g, n);
    if !node.escalated && node.sources != [] {
      FreeShrinks(g, stack, n);
      var below := stack + [n];
      WorstOfSources(g, node.sources, below);
      forall i | 0 <= i < |node.sources| ensures IsWorst(g, node.sources[i], Resolve(g, node.sources[i], below).level) {
        ResolvesToWorst(g, node.sources[i], below);
      }
      NodeOverSources(g, n, below);
    } else {
      forall m | Ancestor(g, n, m) ensures Rank(Local(g[m])) <= Rank(level) {
        var p :| Connects(g, p, n, m);
        if |p| > 1 {
          assert p[1] in g[p[0]].sources;
        }
      }
      if !node.escalated {
        assert MaxSources(g, [], stack + [n]) == Ok(Standard);
      }
    }
  }

  lemma NodeOverSources(g: Graph, n: NodeId, below: seq<NodeId>)
    requires n in g && !g[n].escalated && g[n].sources != []
    requires MaxSources(g, g[n].sources, below).Ok?
    requires forall i :: 0 <= i < |g[n].sources| ==>
               Resolve(g, g[n].sources[i], below).Ok?
               && IsWorst(g, g[n].sources[i], Resolve(g, g[n].sources[i], below).level)
    ensures IsWorst(g, n, Combine(g[n], MaxSources(g, g[n].sources, below).level))
  {
    var sources := g[n].sources;
    var worst := MaxSources(g, sources, below).level;
    var level := Combine(g[n], worst);
    WorstOfSources(g, sources, below);
    SelfAncestor(g, n);
    forall m | Ancestor(g, n, m) ensures Rank(Local(g[m])) <= Rank(level) {
      var p :| Connects(g, p, n, m);
      if |p| > 1 {
        PathTail(g, p, n, m);
        var i :| 0 <= i < |sources| && sources[i] == p[1];
        assert Ancestor(g, sources[i], m);
      }
    }
    if level != Local(g[n]) {
      var i :| 0 <= i < |sources| && Resolve(g, sources[i], below) == Ok(worst);
      var m :| Ancestor(g, sources[i], m) && Local(g[m]) == worst;
      var p :| Connects(g, p, sources[i], m);
      PathPrepend(g, n, p, m);
    }
  }

  // ---- When the resolver answers --------------------------------------------------------------

  /** A way the resolver can follow: sources of nodes that are not escalated. */
  predicate IsWalk(g: Graph, p: seq<NodeId>) {
    && p != []
    && forall i :: 0 <= i < |p| - 1 ==> p[i] in g && !g[p[i]].escalated && p[i + 1] in g[p[i]].sources
  }

  /** A walk that runs into a missing node, a generated node without sources, or itself. */
  predicate Defect(g: Graph, stack: seq<NodeId>, p: seq<NodeId>) {
    && IsWalk(g, p)
    && var last := p[|p| - 1];
       last !in g || Ambiguous(g[last]) || last in p[..|p| - 1] || last in stack
  }

  lemma {:induction false} FailingSource(g: Graph, sources: seq<NodeId>, stack: seq<NodeId>) returns (i: nat)
    requires MaxSources(g, sources, stack).Err?
    ensures i < |sources| && Resolve(g, sources[i], stack).Err?
    decreases |sources|
  {
    if MaxSources(g, sources[..|sources| - 1], stack).Err? {
      i := FailingSource(g, sources[..|sources| - 1], stack);
    } else {
      i := |sources| - 1;
    }
  }

  lemma {:induction false} ErrorHasDefect(g: Graph, n: NodeId, stack: seq<NodeId>) returns (p: seq<NodeId>)
    requires Resolve(g, n, stack).Err?
    ensures p != [] && p[0] == n && Defect(g, stack, p)
    decreases |Free(g, stack)|
  {
    if n in stack || n !in g || Ambiguous(g[n]) {
      p := [n];
    } else {
      FreeShrinks(g, stack, n);
      var i := FailingSource(g, g[n].sources, stack + [n]);
      var rest := ErrorHasDefect(g, g[n].sources[i], stack + [n]);
      p := [n] + rest;
      assert forall k :: 0 <= k < |rest| ==> p[k + 1] == rest[k];
      assert p[0] == n && p[..|p| - 1] == [n] + rest[..|rest| - 1];
    }
  }

  lemma {:induction false} AnswerHasNoDefect(g: Graph, n: NodeId, stack: seq<NodeId>, p: seq<NodeId>)
    requires Resolve(g, n, stack).Ok? && p != [] && p[0] == n
    ensures !Defect(g, stack, p)
    decreases |p|
  {
    if Defect(g, stack, p) && |p| > 1 {
      var rest := p[1..];
      assert p[0] in g && !g[p[0]].escalated && p[1] in g[p[0]].sources;
      assert forall k :: 0 <= k < |rest| ==> rest[k] == p[k + 1];
      assert p[..|p| - 1] == [n] + rest[..|rest| - 1];
      WorstOfSources(g, g[n].sources, stack + [n]);
      AnswerHasNoDefect(g, p[1], stack + [n], rest);
    }
  }

  /**
   * The resolver fails closed exactly when some walk from n, through sources of nodes that are not
   * escalated, meets a missing node, a generated node without sources, or a node twice.
   */
  lemma ResolvesIffSound(g: Graph, n: NodeId, stack: seq<NodeId>)
    ensures Resolve(g, n, stack).Ok? <==> forall p :: p != [] && p[0] == n ==> !Defect(g, stack, p)
  {
    if Resolve(g, n, stack).Ok? {
      forall p | p != [] && p[0] == n ensures !Defect(g, stack, p) {
        AnswerHasNoDefect(g, n, stack, p);
      }
    } else {
      var p := ErrorHasDefect(g, n, stack);
    }
  }

  /** An answer does not depend on the stack; a larger stack can only turn it into a failure. */
  lemma StackIsIrrelevant(g: Graph, n: NodeId, small: seq<NodeId>, large: seq<NodeId>)
    requires Resolve(g, n, large).Ok? && forall x :: x in small ==> x in large
    ensures Resolve(g, n, small) == Resolve(g, n, large)
  {
    ResolvesIffSound(g, n, large);
    ResolvesIffSound(g, n, small);
    forall p | p != [] && p[0] == n ensures !Defect(g, small, p) {
      assert !Defect(g, large, p);
    }
    ResolvesToWorst(g, n, large);
    ResolvesToWorst(g, n, small);
  }

  // ---- Monotonicity ---------------------------------------------------------------------------

  /** Nodes and source edges were added, and nodes became locally more sensitive, or neither. */
  ghost predicate Tightened(g: Graph, g': Graph) {
    forall n :: n in g ==>
      n in g' && Rank(Local(g[n])) <= Rank(Local(g'[n])) && forall sid :: sid in g[n].sources ==> sid in g'[n].sources
  }

  lemma TightenedPath(g: Graph, g': Graph, n: NodeId, m: NodeId)
    requires Tightened(g, g') && Ancestor(g, n, m)
    ensures Ancestor(g', n, m)
  {
    var p :| Connects(g, p, n, m);
    assert Connects(g', p, n, m) by {
      forall i | 0 <= i < |p| ensures p[i] in g' {
        assert p[i] in g;
      }
      forall i | 0 <= i < |p| - 1 ensures p[i + 1] in g'[p[i]].sources {
        assert p[i + 1] in g[p[i]].sources;
      }
    }
  }

  /** Adding nodes or edges, or escalating, never lowers an answer. */
  lemma NeverLowered(g: Graph, g': Graph, n: NodeId)
    requires Tightened(g, g') && Resolve(g, n, []).Ok? && Resolve(g', n, []).Ok?
    ensures Rank(Resolve(g, n, []).level) <= Rank(Resolve(g', n, []).level)
  {
    ResolvesToWorst(g, n, []);
    ResolvesToWorst(g', n, []);
    var m :| Ancestor(g, n, m) && Local(g[m]) == Resolve(g, n, []).level;
    TightenedPath(g, g', n, m);
  }

  // ---- decide_outcome and EgressContext.resolve -------------------------------------------------

  datatype Tier = StandardTier | InternalTechnical | SensitiveTier

  datatype Decision = Dispatch(tier: Tier, sanitized: bool) | LocalOnly | Blocked

  /** A source-bearing node that claims to be standard over a sensitive source. */
  predicate Launders(g: Graph, n: NodeId)
    requires n in g
  {
    var node := g[n];
    && !node.classification.SanitizedOk? && node.sources != []
    && MaxSources(g, node.sources, [n, n]) == Ok(Sensitive)
    && (StandardProvenance(node.provenance) || node.assertsStandard)
  }

  function Decide(g: Graph, n: NodeId): Decision {
    if n !in g then Blocked
    else
      var node := g[n];
      if !node.classification.SanitizedOk? && node.sources != [] && MaxSources(g, node.sources, [n, n]).Err?
          then Blocked
      else if Launders(g, n) then Blocked
      else if node.classification.SanitizedOk? then
        if !(node.sanitizer.approvedId && node.sanitizer.currentPolicy && node.sanitizer.hasProof
             && node.domain.Clinical?)
           || MaxSources(g, node.sources, [n, n]).Err?
        then Blocked else Dispatch(SensitiveTier, true)
      else
        var r := Resolve(g, n, []);
        if r.Err? then Blocked
        else
          match r.level
          case Standard => Dispatch(StandardTier, false)
          case Its => Dispatch(InternalTechnical, false)
          case Sensitive => if node.domain.NonClinical? then LocalOnly else Blocked
  }

  /** `EgressContext.resolve` with a graph and a candidate: the declared tier can only escalate. */
  function Enforce(g: Graph, n: NodeId, declared: Tier, technicalLane: bool): Decision {
    var decision := Decide(g, n);
    if !decision.Dispatch? then
      if decision.LocalOnly? && !declared.SensitiveTier? then Blocked else decision
    else if declared.SensitiveTier? && !decision.tier.SensitiveTier? then Dispatch(SensitiveTier, true)
    else if decision.tier.SensitiveTier? && !declared.SensitiveTier? then Blocked
    else if decision.tier.InternalTechnical? && !technicalLane then Blocked
    else decision
  }

  lemma {:induction false} SourcesUnderTwo(g: Graph, n: NodeId, sources: seq<NodeId>)
    ensures MaxSources(g, sources, [n]).Ok? ==> MaxSources(g, sources, [n, n]) == MaxSources(g, sources, [n])
    decreases |sources|
  {
    if sources != [] {
      SourcesUnderTwo(g, n, sources[..|sources| - 1]);
      var last := sources[|sources| - 1];
      if Resolve(g, last, [n]).Ok? {
        ResolvesIffSound(g, last, [n]);
        ResolvesIffSound(g, last, [n, n]);
        forall p | p != [] && p[0] == last ensures !Defect(g, [n, n], p) {
          assert !Defect(g, [n], p);
        }
        StackIsIrrelevant(g, last, [n], [n, n]);
      }
    }
  }

  ghost predicate AllAtMost(g: Graph, n: NodeId, level: Sensitivity) {
    forall m :: Ancestor(g, n, m) ==> Rank(Local(g[m])) <= Rank(level)
  }

  /**
   * Content goes out at the standard tier exactly when its lineage is sound, it is not a sanitizer
   * product, and it and all its ancestors are standard; at the internal technical tier exactly when
   * the worst of them is internal technical.
   */
  lemma DecidesByWorst(g: Graph, n: NodeId)
    requires n in g && !g[n].classification.SanitizedOk?
    ensures Decide(g, n) == Dispatch(StandardTier, false) <==> Resolve(g, n, []).Ok? && AllAtMost(g, n, Standard)
    ensures Decide(g, n) == Dispatch(InternalTechnical, false) <==> Resolve(g, n, []).Ok? && IsWorst(g, n, Its)
  {
    var r := Resolve(g, n, []);
    if r.Ok? {
      ResolvesToWorst(g, n, []);
      SelfAncestor(g, n);
      if !g[n].escalated && g[n].sources != [] {
        assert [] + [n] == [n];
        SourcesUnderTwo(g, n, g[n].sources);
      } else if g[n].escalated {
        assert r.level == Sensitive;
      }
      var m :| Ancestor(g, n, m) && Local(g[m]) == r.level;
    }
  }

  /** No declaration relabels: what leaves below the sensitive tier has no sensitive ancestor. */
  lemma NoDowngrade(g: Graph, n: NodeId, declared: Tier, technicalLane: bool)
    ensures var out := Enforce(g, n, declared, technicalLane);
            out.Dispatch? && !out.tier.SensitiveTier? ==>
              && n in g
              && AllAtMost(g, n, Its)
              && !declared.SensitiveTier?
              && (out.tier.InternalTechnical? <==> IsWorst(g, n, Its))
              && (out.tier.InternalTechnical? ==> technicalLane)
              && (out.tier.StandardTier? ==> AllAtMost(g, n, Standard))
  {
    var out := Enforce(g, n, declared, technicalLane);
    if out.Dispatch? && !out.tier.SensitiveTier? {
      DecidesByWorst(g, n);
      if out.tier.StandardTier? {
        assert forall m :: Ancestor(g, n, m) ==> Rank(Local(g[m])) <= Rank(Standard);
      }
    }
  }
}
