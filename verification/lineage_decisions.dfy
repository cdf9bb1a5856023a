/**
 * What may leave: the outcomes of `decide_outcome` and of `EgressContext.resolve`
 * (tools/clearwright_egress_guard.py), each said of the node and of everything it descends from.
 */
module LineageDecisions {
  import opened Wrappers
  import opened Lineage

  // ---- Sound sources ------------------------------------------------------------------------------

  /** No walk that starts at a source meets a missing node, an ambiguous one, itself, or n. */
  ghost predicate SourcesSound(g: Graph, n: NodeId)
    requires n in g
  {
    forall p :: p != [] && p[0] in g[n].sources ==> !Defect(g, [n], p)
  }

  /** Neither n nor its sources have a defect; the sources of an escalated node are looked at, too. */
  ghost predicate Sound(g: Graph, n: NodeId)
    requires n in g
  {
    (forall p :: p != [] && p[0] == n ==> !Defect(g, [], p)) && SourcesSound(g, n)
  }

  /** Something that a source descends from, or a source itself, is sensitive. */
  ghost predicate SensitiveBelow(g: Graph, n: NodeId)
    requires n in g
  {
    exists s, m :: s in g[n].sources && Ancestor(g, s, m) && Local(g[m]).Sensitive?
  }

  /** The node says of itself that it is standard, by its provenance or outright. */
  predicate ClaimsStandard(node: Node) {
    node.provenance.ApprovedRepoFile? || node.provenance.SyntheticFixture? || node.assertsStandard
  }

  /** A product of the approved sanitizer: current, proved, clinical, and made from sources that resolve. */
  ghost predicate Derivative(g: Graph, n: NodeId) {
    && n in g
    && g[n].classification.SanitizedOk?
    && g[n].sanitizer == Sanitizer(true, true, true)
    && g[n].domain.Clinical?
    && SourcesSound(g, n)
  }

  lemma SourcesResolveIff(g: Graph, n: NodeId)
    requires n in g
    ensures MaxSources(g, g[n].sources, [n, n]).Ok? <==> SourcesSound(g, n)
  {
    var sources, stack := g[n].sources, [n, n];
    if MaxSources(g, sources, stack).Ok? {
      WorstOfSources(g, sources, stack);
      forall p | p != [] && p[0] in sources ensures !Defect(g, [n], p) {
        var i :| 0 <= i < |sources| && sources[i] == p[0];
        AnswerHasNoDefect(g, sources[i], stack, p);
      }
    } else {
      var i := FailingSource(g, sources, stack);
      var p := ErrorHasDefect(g, sources[i], stack);
      assert Defect(g, [n], p);
    }
  }

  lemma WorstBelowIff(g: Graph, n: NodeId)
    requires n in g && MaxSources(g, g[n].sources, [n, n]).Ok?
    ensures MaxSources(g, g[n].sources, [n, n]).level.Sensitive? <==> SensitiveBelow(g, n)
  {
    var sources, stack := g[n].sources, [n, n];
    WorstOfSources(g, sources, stack);
    forall i | 0 <= i < |sources| ensures IsWorst(g, sources[i], Resolve(g, sources[i], stack).level) {
      ResolvesToWorst(g, sources[i], stack);
    }
    if SensitiveBelow(g, n) {
      var s, m :| s in sources && Ancestor(g, s, m) && Local(g[m]).Sensitive?;
      var i :| 0 <= i < |sources| && sources[i] == s;
      assert Rank(Local(g[m])) <= Rank(Resolve(g, sources[i], stack).level);
    }
    if MaxSources(g, sources, stack).level.Sensitive? {
      var i :| 0 <= i < |sources| && Resolve(g, sources[i], stack) == Ok(Sensitive);
      var m :| Ancestor(g, sources[i], m) && Local(g[m]) == Sensitive;
      assert sources[i] in sources;
    }
  }

  lemma LaundersIff(g: Graph, n: NodeId)
    requires n in g && !g[n].classification.SanitizedOk? && SourcesSound(g, n)
    ensures Launders(g, n) <==> ClaimsStandard(g[n]) && SensitiveBelow(g, n)
  {
    SourcesResolveIff(g, n);
    WorstBelowIff(g, n);
  }

  lemma SourceIsAncestor(g: Graph, n: NodeId)
    requires n in g && SensitiveBelow(g, n)
    ensures exists m :: Ancestor(g, n, m) && Local(g[m]).Sensitive?
  {
    var s, m :| s in g[n].sources && Ancestor(g, s, m) && Local(g[m]).Sensitive?;
    var p :| Connects(g, p, s, m);
    PathPrepend(g, n, p, m);
  }

  // ---- decide_outcome -------------------------------------------------------------------------------

  /** Every one of the outcomes, for a node that is no sanitizer product. */
  lemma DecidesPlain(g: Graph, n: NodeId)
    requires n in g && !g[n].classification.SanitizedOk?
    ensures Decide(g, n) == Dispatch(StandardTier, false) <==> Sound(g, n) && AllAtMost(g, n, Standard)
    ensures Decide(g, n) == Dispatch(InternalTechnical, false) <==> Sound(g, n) && IsWorst(g, n, Its)
    ensures Decide(g, n) == LocalOnly
            <==> Sound(g, n) && IsWorst(g, n, Sensitive) && g[n].domain.NonClinical?
                 && !(ClaimsStandard(g[n]) && SensitiveBelow(g, n))
    ensures Decide(g, n) in {Dispatch(StandardTier, false), Dispatch(InternalTechnical, false), LocalOnly, Blocked}
  {
    ResolvesIffSound(g, n, []);
    SourcesResolveIff(g, n);
    DecidesByWorst(g, n);
    SelfAncestor(g, n);
    if Sound(g, n) {
      ResolvesToWorst(g, n, []);
      LaundersIff(g, n);
      if SensitiveBelow(g, n) {
        SourceIsAncestor(g, n);
      }
    }
  }

  /**
   * The outcomes of `decide_outcome`, exactly.  A sanitizer product goes out at the sensitive tier iff
   * it comes from the approved sanitizer under the current policy, with a proof, for the clinical
   * domain, over sources that resolve.  Other content goes out at the standard or internal technical
   * tier as the worst it descends from allows, and never at the sensitive tier; sensitive content
   * outside the clinical domain stays local unless it claims to be standard over a sensitive source;
   * everything else is blocked.
   */
  lemma DecidesExactly(g: Graph, n: NodeId)
    ensures var out := Decide(g, n);
            var plain := n in g && !g[n].classification.SanitizedOk? && Sound(g, n);
            && (out == Dispatch(SensitiveTier, true) <==> Derivative(g, n))
            && (out == Dispatch(StandardTier, false) <==> plain && AllAtMost(g, n, Standard))
            && (out == Dispatch(InternalTechnical, false) <==> plain && IsWorst(g, n, Its))
            && (out == LocalOnly
                <==> plain && IsWorst(g, n, Sensitive) && g[n].domain.NonClinical?
                     && !(ClaimsStandard(g[n]) && SensitiveBelow(g, n)))
            && out in {Dispatch(SensitiveTier, true), Dispatch(StandardTier, false), Dispatch(InternalTechnical, false),
                       LocalOnly, Blocked}
  {
    if n in g && g[n].classification.SanitizedOk? {
      SourcesResolveIff(g, n);
    } else if n in g {
      DecidesPlain(g, n);
    }
  }

  // ---- EgressContext.resolve ------------------------------------------------------------------------

  lemma AtMostItsIff(g: Graph, n: NodeId)
    requires n in g
    ensures AllAtMost(g, n, Its) <==> AllAtMost(g, n, Standard) || IsWorst(g, n, Its)
    ensures AllAtMost(g, n, Standard) ==> !IsWorst(g, n, Its)
  {
    if AllAtMost(g, n, Its) && !AllAtMost(g, n, Standard) {
      var m :| Ancestor(g, n, m) && Rank(Local(g[m])) > Rank(Standard);
      assert Local(g[m]) == Its;
    }
  }

  /**
   * What leaves, by declared tier and lane.  At the sensitive tier, as sanitized content: with that
   * declaration only, a sanitizer product, or sound content with nothing sensitive in its lineage.
   * At the lower tiers: without it only, and the internal technical one in its lane only.  Sensitive
   * content stays local under the sensitive declaration only.  Everything else is blocked.
   */
  lemma EnforcesExactly(g: Graph, n: NodeId, declared: Tier, technicalLane: bool)
    ensures var out := Enforce(g, n, declared, technicalLane);
            var plain := n in g && !g[n].classification.SanitizedOk? && Sound(g, n);
            && (out == Dispatch(SensitiveTier, true)
                <==> declared.SensitiveTier? && (Derivative(g, n) || (plain && AllAtMost(g, n, Its))))
            && (out == Dispatch(StandardTier, false)
                <==> !declared.SensitiveTier? && plain && AllAtMost(g, n, Standard))
            && (out == Dispatch(InternalTechnical, false)
                <==> !declared.SensitiveTier? && plain && IsWorst(g, n, Its) && technicalLane)
            && (out == LocalOnly
                <==> declared.SensitiveTier? && plain && IsWorst(g, n, Sensitive) && g[n].domain.NonClinical?
                     && !(ClaimsStandard(g[n]) && SensitiveBelow(g, n)))
            && out in {Dispatch(SensitiveTier, true), Dispatch(StandardTier, false), Dispatch(InternalTechnical, false),
                       LocalOnly, Blocked}
  {
    DecidesExactly(g, n);
    if n in g {
      AtMostItsIff(g, n);
    }
  }

  // ---- What the classes come from -------------------------------------------------------------------

  /** A node that is standard of its own: nothing raises it above its sources. */
  predicate Plain(node: Node) {
    && !node.escalated
    && match node.classification
       case Raw => node.provenance.ApprovedRepoFile? || node.provenance.SyntheticFixture?
       case SanitizedOk => true
       case Machine => node.scanned.None?
  }

  /** A fixed scaffold, or generated content that passed its scan. */
  predicate Technical(node: Node) {
    && !node.escalated
    && match node.classification
       case Raw => node.provenance.FixedScaffold?
       case SanitizedOk => false
       case Machine => node.scanned == Some(true)
  }

  /**
   * In terms of what was recorded about each node: content leaves at the standard tier only if it and
   * everything it descends from is an approved file, a synthetic fixture, a pure assembly or a
   * sanitizer product, and nothing is escalated; at the internal technical tier, if there are also
   * fixed scaffolds or scanned generated texts among them.
   */
  lemma LeavesByRecord(g: Graph, n: NodeId, declared: Tier, technicalLane: bool)
    ensures var out := Enforce(g, n, declared, technicalLane);
            var plain := n in g && !g[n].classification.SanitizedOk? && Sound(g, n);
            && (out == Dispatch(StandardTier, false)
                <==> !declared.SensitiveTier? && plain && forall m :: Ancestor(g, n, m) ==> Plain(g[m]))
            && (out == Dispatch(InternalTechnical, false)
                <==> !declared.SensitiveTier? && plain && technicalLane
                     && (forall m :: Ancestor(g, n, m) ==> Plain(g[m]) || Technical(g[m]))
                     && (exists m :: Ancestor(g, n, m) && Technical(g[m])))
  {
    EnforcesExactly(g, n, declared, technicalLane);
    forall m | m in g
      ensures (Plain(g[m]) <==> Local(g[m]) == Standard) && (Technical(g[m]) <==> Local(g[m]) == Its)
    {
    }
    if n in g {
      assert AllAtMost(g, n, Standard) <==> forall m :: Ancestor(g, n, m) ==> Plain(g[m]) by {
        if forall m :: Ancestor(g, n, m) ==> Plain(g[m]) {
          forall m | Ancestor(g, n, m) ensures Rank(Local(g[m])) <= Rank(Standard) {
            assert Plain(g[m]);
          }
        }
      }
    }
  }
}
