/** The mutable graph of tools/clearwright_egress_guard.py, against the functions of Lineage. */
module LineageGraphs {
  import opened Lineage

  /** m can be reached from n by following at least one source; n itself only on a cycle. */
  ghost predicate ReachedFrom(g: Graph, n: NodeId, m: NodeId) {
    exists p :: |p| > 1 && Connects(g, p, n, m)
  }

  lemma ReachedExtends(g: Graph, n: NodeId, x: NodeId, sid: NodeId)
    requires Ancestor(g, n, x) && sid in g[x].sources && sid in g
    ensures ReachedFrom(g, n, sid) && Ancestor(g, n, sid)
  {
    var p :| Connects(g, p, n, x);
    var q := p + [sid];
    forall i | 0 <= i < |q| - 1 ensures q[i + 1] in g[q[i]].sources {
      assert q[i] == p[i];
    }
    assert |q| > 1 && Connects(g, q, n, sid);
  }

  /** A set closed under existing sources, of n too, holds everything reachable from n. */
  ghost predicate Closed(g: Graph, n: NodeId, reached: set<NodeId>) {
    forall x, sid :: (x == n || x in reached) && x in g && sid in g[x].sources && sid in g ==> sid in reached
  }

  /** The worklist invariant: whatever is not on the worklist has been expanded. */
  ghost predicate ClosedExcept(g: Graph, n: NodeId, reached: set<NodeId>, stack: seq<NodeId>) {
    forall x, sid {:trigger sid in g[x].sources} ::
      ((x == n || x in reached) && x !in stack && x in g && sid in g[x].sources && sid in g) ==> sid in reached
  }

  /** Sources of x seen so far have been reached, and each newly reached id was pushed once. */
  ghost predicate Pushed(reached: set<NodeId>, reached': set<NodeId>, stack: seq<NodeId>, stack': seq<NodeId>) {
    && (forall y :: y in stack' <==> y in stack || (y in reached' && y !in reached))
    && (reached' == reached ==> stack' == stack)
  }

  lemma FewerLeft(keys: set<NodeId>, reached: set<NodeId>, reached': set<NodeId>)
    requires reached <= reached' <= keys
    ensures reached' != reached ==> |keys - reached'| < |keys - reached|
  {
    if reached' != reached {
      var more := reached' - reached;
      assert keys - reached == (keys - reached') + more;
      assert more != {};
    }
  }

  lemma {:induction false} ClosedHoldsAll(g: Graph, n: NodeId, reached: set<NodeId>, p: seq<NodeId>)
    requires Closed(g, n, reached) && IsPath(g, p) && p[0] == n && |p| > 1
    ensures p[|p| - 1] in reached
    decreases |p|
  {
    var q := p[..|p| - 1];
    assert p[|p| - 1] in g[p[|p| - 2]].sources;
    if |q| > 1 {
      assert forall i :: 0 <= i < |q| ==> q[i] == p[i];
      ClosedHoldsAll(g, n, reached, q);
    }
  }

  class LineageGraph {
    var nodes: Graph

    constructor ()
      ensures nodes == map[]
    {
      nodes := map[];
    }

    /** Adding an id again replaces its node. */
    method Add(n: NodeId, node: Node)
      modifies this
      ensures nodes == old(nodes)[n := node]
    {
      nodes := nodes[n := node];
    }

    /** The worklist loop: exactly the ids reachable over at least one source. */
    method ReachableFrom(n: NodeId) returns (reached: set<NodeId>)
      ensures forall m :: m in reached <==> ReachedFrom(nodes, n, m)
    {
      reached := {};
      var stack := [n];
      while stack != []
        invariant reached <= nodes.Keys
        invariant forall x :: x in stack ==> x == n || x in reached
        invariant forall x :: x in reached ==> ReachedFrom(nodes, n, x) && n in nodes
        invariant ClosedExcept(nodes, n, reached, stack)
        decreases |nodes.Keys - reached|, |stack|
      {
        var x := stack[|stack| - 1];
        stack := stack[..|stack| - 1];
        if x in nodes {
          if x == n {
            SelfAncestor(nodes, n);
          } else {
            ReachedOrSelf(nodes, n, x);
          }
          ghost var before := reached;
          reached, stack := Visit(n, x, reached, stack);
          FewerLeft(nodes.Keys, before, reached);
        }
      }
      assert Closed(nodes, n, reached);
      forall m | ReachedFrom(nodes, n, m) ensures m in reached {
        var p :| |p| > 1 && Connects(nodes, p, n, m);
        ClosedHoldsAll(nodes, n, reached, p);
      }
    }

    /** The inner loop: push the sources of x that exist and were not reached before. */
    method Visit(n: NodeId, x: NodeId, reached: set<NodeId>, stack: seq<NodeId>)
      returns (reached': set<NodeId>, stack': seq<NodeId>)
      requires x in nodes && Ancestor(nodes, n, x) && reached <= nodes.Keys
      requires forall y :: y in reached ==> ReachedFrom(nodes, n, y)
      ensures reached <= reached' <= nodes.Keys
      ensures forall y :: y in reached' ==> ReachedFrom(nodes, n, y)
      ensures forall sid :: sid in nodes[x].sources && sid in nodes ==> sid in reached'
      ensures Pushed(reached, reached', stack, stack')
    {
      reached', stack' := reached, stack;
      var sources := nodes[x].sources;
      for i := 0 to |sources|
        invariant reached <= reached' <= nodes.Keys
        invariant forall y :: y in reached' ==> ReachedFrom(nodes, n, y)
        invariant forall k :: 0 <= k < i && sources[k] in nodes ==> sources[k] in reached'
        invariant Pushed(reached, reached', stack, stack')
      {
        var sid := sources[i];
        if sid !in reached' && sid in nodes {
          ReachedExtends(nodes, n, x, sid);
          reached', stack' := reached' + {sid}, stack' + [sid];
        }
      }
    }

    method ResolveSensitivity(n: NodeId, stack: seq<NodeId>) returns (r: Resolved)
      ensures r == Resolve(nodes, n, stack)
      decreases |Free(nodes, stack)|, 0
    {
      if n in stack {
        return Err(Cycle);
      }
      if n !in nodes {
        return Err(SourceMissing);
      }
      var node := nodes[n];
      if node.escalated {
        return Ok(Sensitive);
      }
      if node.classification.Machine? && node.sources == [] {
        return Err(NoSources);
      }
      if node.classification.Raw? && node.sources == [] {
        return Ok(Base(node));
      }
      FreeShrinks(nodes, stack, n);
      var worst := WorstSource(n, stack + [n]);
      if worst.Err? {
        return worst;
      }
      return Ok(Combine(node, worst.level));
    }

    /** The loop of `_max_sources`. */
    method WorstSource(n: NodeId, stack: seq<NodeId>) returns (r: Resolved)
      requires n in nodes
      ensures r == MaxSources(nodes, nodes[n].sources, stack)
      decreases |Free(nodes, stack)|, 1
    {
      var sources := nodes[n].sources;
      var worst := Standard;
      for i := 0 to |sources|
        invariant MaxSources(nodes, sources[..i], stack) == Ok(worst)
      {
        assert sources[..i + 1][..i] == sources[..i];
        var s := ResolveSensitivity(sources[i], stack);
        if s.Err? {
          FailureStays(nodes, sources, i + 1, stack);
          return s;
        }
        worst := MaxOf(worst, s.level);
      }
      assert sources[..|sources|] == sources;
      return Ok(worst);
    }

    /**
     * The resolver refines the worklist: an answer is the worst local class over the node and the
     * set that `reachable_from` returns.
     */
    method ResolveOverReachable(n: NodeId) returns (r: Resolved, reached: set<NodeId>)
      ensures r == Resolve(nodes, n, [])
      ensures r.Ok? ==> n in nodes && reached <= nodes.Keys
      ensures r.Ok? ==> forall m :: m in reached + {n} ==> Rank(Local(nodes[m])) <= Rank(r.level)
      ensures r.Ok? ==> exists m :: m in reached + {n} && Local(nodes[m]) == r.level
    {
      r := ResolveSensitivity(n, []);
      reached := ReachableFrom(n);
      if r.Ok? {
        ResolvesToWorst(nodes, n, []);
        forall m ensures Ancestor(nodes, n, m) <==> m in reached + {n} {
          ReachedOrSelf(nodes, n, m);
        }
      }
    }
  }

  lemma ReachedOrSelf(g: Graph, n: NodeId, m: NodeId)
    requires n in g
    ensures Ancestor(g, n, m) <==> m == n || ReachedFrom(g, n, m)
  {
    SelfAncestor(g, n);
    if Ancestor(g, n, m) {
      var p :| Connects(g, p, n, m);
      assert |p| > 1 || m == n;
    }
  }

  lemma {:induction false} FailureStays(g: Graph, sources: seq<NodeId>, k: nat, stack: seq<NodeId>)
    requires k <= |sources| && MaxSources(g, sources[..k], stack).Err?
    ensures MaxSources(g, sources, stack) == MaxSources(g, sources[..k], stack)
    decreases |sources| - k
  {
    if k < |sources| {
      assert sources[..k + 1][..k] == sources[..k];
      FailureStays(g, sources, k + 1, stack);
    } else {
      assert sources[..k] == sources;
    }
  }
}
