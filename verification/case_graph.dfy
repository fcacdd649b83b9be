/**
 * The evidence graph of an investigation: nodes, directed relations and proofs,
 * and the promotion of a relation to VERIFIED.
 */
module CaseGraphs {
  import opened Text

  datatype NodeStatus = Known | Unknown | Conflicting

  datatype EdgeStatus = Unproven | Hypothesized | Verified | Refuted

  datatype Node = Node(id: string, kind: string, value: string, status: NodeStatus)

  datatype Edge = Edge(
    id: string,
    source: string,
    target: string,
    targetKind: string,
    factKinds: set<string>,
    requiredRoles: set<string>,
    acceptableOperations: set<string>,
    completenessRequired: bool,
    claimId: string,
    prerequisite: bool,
    status: EdgeStatus,
    citations: set<string>)

  datatype Proof = Proof(
    edgeId: string, source: string, sourceValue: string, target: string, targetValue: string, citations: set<string>)

  datatype Graph = Graph(nodes: map<string, Node>, edges: map<string, Edge>, proofs: map<string, Proof>)

  function ProofKey(edgeId: string): string { "proof-" + edgeId }

  predicate IsKnown(g: Graph, node: string) {
    node in g.nodes && g.nodes[node].status == Known
  }

  predicate IsUnproven(g: Graph, edge: string) {
    edge in g.edges && g.edges[edge].status in {Unproven, Hypothesized}
  }

  predicate IsVerified(g: Graph, edge: string) {
    edge in g.edges && g.edges[edge].status == Verified
  }

  /** An unproven edge whose source is KNOWN: what the planner may act on. */
  predicate IsActionable(g: Graph, edge: string) {
    IsUnproven(g, edge) && IsKnown(g, g.edges[edge].source)
  }

  ghost predicate KeyedById(g: Graph) {
    forall k :: k in g.edges ==> g.edges[k].id == k
  }

  // ------------------------------------------------------------ promotion

  /**
   * One promotion. `attempt` holds the observations that replace the edge's citations first
   * (the engine does that before it asks the verifier); `value` is the target value that was found.
   */
  datatype Promotion = Promotion(edge: string, attempt: Option<set<string>>, cited: set<string>, value: Option<string>)

  function NodeValue(g: Graph, node: string): string {
    if node in g.nodes then g.nodes[node].value else ""
  }

  function Promote(g: Graph, p: Promotion): (r: Graph)
    requires p.edge in g.edges
  {
    var edge := g.edges[p.edge];
    var before := if p.attempt.Some? then p.attempt.value else edge.citations;
    var target := edge.target;
    var nodes :=
      if target in g.nodes then
        var n := g.nodes[target];
        g.nodes[target := n.(status := Known, value := if p.value.Some? then p.value.value else n.value)]
      else g.nodes;
    var proof := Proof(edge.id, edge.source, NodeValue(g, edge.source), target,
                       if p.value.Some? then p.value.value else NodeValue(g, target), p.cited);
    Graph(nodes,
          g.edges[p.edge := edge.(status := Verified, citations := before + p.cited)],
          g.proofs[ProofKey(edge.id) := proof])
  }

  /** A promotion run that always picks an actionable edge. */
  predicate LegalRun(g: Graph, run: seq<Promotion>)
    decreases |run|
  {
    run == [] || (IsActionable(g, run[0].edge) && LegalRun(Promote(g, run[0]), run[1..]))
  }

  function After(g: Graph, run: seq<Promotion>): Graph
    requires LegalRun(g, run)
    decreases |run|
  {
    if run == [] then g else After(Promote(g, run[0]), run[1..])
  }

  // ------------------------------------------------------------ what a promotion keeps

  ghost predicate SameSkeleton(g: Graph, h: Graph) {
    && g.nodes.Keys == h.nodes.Keys
    && g.edges.Keys == h.edges.Keys
    && (forall k :: k in g.edges ==>
          h.edges[k] == g.edges[k].(status := h.edges[k].status, citations := h.edges[k].citations))
    && forall k :: k in g.nodes ==> h.nodes[k] == g.nodes[k].(status := h.nodes[k].status, value := h.nodes[k].value)
  }

  ghost predicate KeepsProofs(g: Graph, h: Graph) {
    && SameSkeleton(g, h)
    && (forall k :: IsVerified(g, k) ==> IsVerified(h, k))
    && forall n :: IsKnown(g, n) ==> IsKnown(h, n)
  }

  lemma PromoteKeeps(g: Graph, p: Promotion)
    requires IsActionable(g, p.edge)
    ensures KeepsProofs(g, Promote(g, p))
  {
  }

  lemma {:induction false} RunKeeps(g: Graph, run: seq<Promotion>)
    requires LegalRun(g, run)
    ensures KeepsProofs(g, After(g, run))
    decreases |run|
  {
    if run != [] {
      PromoteKeeps(g, run[0]);
      RunKeeps(Promote(g, run[0]), run[1..]);
    }
  }

  // ------------------------------------------------------------ provenance

  /** VERIFIED edges, end to end, that leave a node KNOWN from the start. */
  ghost predicate IsGroundedChain(start: Graph, g: Graph, chain: seq<string>) {
    && |chain| > 0
    && (forall i :: 0 <= i < |chain| ==> IsVerified(g, chain[i]))
    && IsKnown(start, g.edges[chain[0]].source)
    && forall i :: 0 < i < |chain| ==> g.edges[chain[i]].source == g.edges[chain[i - 1]].target
  }

  ghost predicate IsGrounded(start: Graph, g: Graph, edge: string) {
    exists chain :: IsGroundedChain(start, g, chain) && chain[|chain| - 1] == edge
  }

  ghost predicate HasProvenance(start: Graph, g: Graph) {
    && (forall n :: IsKnown(g, n) ==> IsKnown(start, n) || exists k :: IsVerified(g, k) && g.edges[k].target == n)
    && (forall k :: IsVerified(g, k) ==> IsGrounded(start, g, k))
  }

  ghost predicate HasProofs(g: Graph) {
    && (forall key :: key in g.proofs <==> exists k :: IsVerified(g, k) && key == ProofKey(k))
    && forall k :: IsVerified(g, k) ==>
         ProofKey(k) in g.proofs && g.proofs[ProofKey(k)].edgeId == k && g.proofs[ProofKey(k)].citations <= g.edges[k].citations
  }

  lemma ProofKeyInjective(a: string, b: string)
    requires ProofKey(a) == ProofKey(b)
    ensures a == b
  {
    assert a == ProofKey(a)[6..];
    assert b == ProofKey(b)[6..];
  }

  lemma GroundedStays(start: Graph, g: Graph, h: Graph, edge: string)
    requires KeepsProofs(g, h) && IsGrounded(start, g, edge)
    ensures IsGrounded(start, h, edge)
  {
    var chain :| IsGroundedChain(start, g, chain) && chain[|chain| - 1] == edge;
    assert IsGroundedChain(start, h, chain);
  }

  lemma GroundedExtends(start: Graph, g: Graph, via: string, edge: string)
    requires IsGrounded(start, g, via) && IsVerified(g, edge) && g.edges[edge].source == g.edges[via].target
    ensures IsGrounded(start, g, edge)
  {
    var chain :| IsGroundedChain(start, g, chain) && chain[|chain| - 1] == via;
    assert IsGroundedChain(start, g, chain + [edge]);
  }

  /** What a promotion of `edge` does to the statuses, leaving values and proofs aside. */
  ghost predicate IsPromotion(g: Graph, h: Graph, edge: string) {
    && KeepsProofs(g, h)
    && IsActionable(g, edge) && IsVerified(h, edge)
    && (forall k :: IsVerified(h, k) ==> IsVerified(g, k) || k == edge)
    && forall n :: IsKnown(h, n) ==> IsKnown(g, n) || n == g.edges[edge].target
  }

  lemma PromoteIsPromotion(g: Graph, p: Promotion)
    requires IsActionable(g, p.edge)
    ensures IsPromotion(g, Promote(g, p), p.edge)
  {
  }

  lemma PromotionGrounds(start: Graph, g: Graph, h: Graph, edge: string)
    requires HasProvenance(start, g) && IsPromotion(g, h, edge)
    ensures IsGrounded(start, h, edge)
  {
    var source := g.edges[edge].source;
    if IsKnown(start, source) {
      assert IsGroundedChain(start, h, [edge]);
    } else {
      var via :| IsVerified(g, via) && g.edges[via].target == source;
      GroundedStays(start, g, h, via);
      GroundedExtends(start, h, via, edge);
    }
  }

  lemma PromoteGrounds(start: Graph, g: Graph, h: Graph, edge: string)
    requires HasProvenance(start, g) && IsPromotion(g, h, edge)
    ensures HasProvenance(start, h)
  {
    forall k | IsVerified(h, k) ensures IsGrounded(start, h, k) {
      if k == edge {
        PromotionGrounds(start, g, h, edge);
      } else {
        GroundedStays(start, g, h, k);
      }
    }
    forall n | IsKnown(h, n) && !IsKnown(start, n) ensures exists k :: IsVerified(h, k) && h.edges[k].target == n {
      if IsKnown(g, n) {
        var k :| IsVerified(g, k) && g.edges[k].target == n;
        assert IsVerified(h, k) && h.edges[k].target == n;
      } else {
        assert IsVerified(h, edge) && h.edges[edge].target == n;
      }
    }
  }

  lemma PromoteProves(g: Graph, p: Promotion)
    requires KeyedById(g) && HasProofs(g) && IsActionable(g, p.edge)
    ensures KeyedById(Promote(g, p)) && HasProofs(Promote(g, p))
  {
    var h := Promote(g, p);
    forall k | IsVerified(h, k) && k != p.edge ensures IsVerified(g, k) && ProofKey(k) != ProofKey(p.edge) {
      if ProofKey(k) == ProofKey(p.edge) {
        ProofKeyInjective(k, p.edge);
      }
    }
    forall key ensures key in h.proofs <==> exists k :: IsVerified(h, k) && key == ProofKey(k) {
      if key in h.proofs {
        if key in g.proofs {
          var k :| IsVerified(g, k) && key == ProofKey(k);
          assert IsVerified(h, k);
        } else {
          assert IsVerified(h, p.edge) && key == ProofKey(p.edge);
        }
      }
    }
  }

  /**
   * Over every run of known-source promotions: a KNOWN node was KNOWN at the start or is the target
   * of a VERIFIED edge, a VERIFIED edge ends a chain of VERIFIED edges from the start,
   * and it has exactly one proof, whose citations the edge carries.
   */
  lemma {:induction false} RunHasProvenance(start: Graph, g: Graph, run: seq<Promotion>)
    requires KeyedById(g) && HasProvenance(start, g) && HasProofs(g) && LegalRun(g, run)
    ensures KeyedById(After(g, run)) && HasProvenance(start, After(g, run)) && HasProofs(After(g, run))
    decreases |run|
  {
    if run != [] {
      PromoteIsPromotion(g, run[0]);
      PromoteGrounds(start, g, Promote(g, run[0]), run[0].edge);
      PromoteProves(g, run[0]);
      RunHasProvenance(start, Promote(g, run[0]), run[1..]);
    }
  }

  // ------------------------------------------------------------ the mutable graph

  class InvestigationGraph {
    var nodes: map<string, Node>
    var edges: map<string, Edge>
    var proofs: map<string, Proof>

    constructor ()
      ensures View() == Graph(map[], map[], map[])
    {
      nodes, edges, proofs := map[], map[], map[];
    }

    function View(): Graph
      reads this
    {
      Graph(nodes, edges, proofs)
    }

    method AddNode(node: Node)
      modifies this`nodes
      ensures nodes == old(nodes)[node.id := node]
    {
      nodes := nodes[node.id := node];
    }

    method AddEdge(edge: Edge)
      modifies this`edges
      ensures edges == old(edges)[edge.id := edge]
    {
      edges := edges[edge.id := edge];
    }

    /** The edges that still await proof, each once, in some order. */
    method GetUnprovenEdges(onlyKnownSource: bool) returns (found: seq<Edge>)
      requires KeyedById(View())
      ensures forall e :: e in found <==>
        e.id in edges && edges[e.id] == e && (if onlyKnownSource then IsActionable(View(), e.id) else IsUnproven(View(), e.id))
      ensures forall i, j :: 0 <= i < j < |found| ==> found[i].id != found[j].id
    {
      found := [];
      var rest := edges.Keys;
      while rest != {}
        invariant rest <= edges.Keys
        invariant forall e :: e in found <==>
          e.id in edges.Keys - rest && edges[e.id] == e
          && (if onlyKnownSource then IsActionable(View(), e.id) else IsUnproven(View(), e.id))
        invariant forall i, j :: 0 <= i < j < |found| ==> found[i].id != found[j].id
      {
        var k :| k in rest;
        var e := edges[k];
        if e.status == Unproven || e.status == Hypothesized {
          if onlyKnownSource {
            if e.source in nodes && nodes[e.source].status == Known {
              found := found + [e];
            }
          } else {
            found := found + [e];
          }
        }
        rest := rest - {k};
      }
    }

    /** None is the lookup error for an edge that is not stored: nothing changes. */
    method PromoteEdgeToVerified(edgeId: string, cited: set<string>) returns (proof: Option<Proof>)
      modifies this
      ensures proof.None? <==> edgeId !in old(edges)
      ensures proof.None? ==> View() == old(View())
      ensures proof.Some? ==> View() == Promote(old(View()), Promotion(edgeId, None, cited, None))
      ensures proof.Some? ==>
        var e := old(edges)[edgeId];
        && edges == old(edges)[edgeId := e.(status := Verified, citations := e.citations + cited)]
        && nodes == (if e.target in old(nodes) then old(nodes)[e.target := old(nodes)[e.target].(status := Known)] else old(nodes))
        && proof.value == Proof(e.id, e.source, NodeValue(View(), e.source), e.target, NodeValue(View(), e.target), cited)
        && proofs == old(proofs)["proof-" + e.id := proof.value]
      ensures proof.Some? ==> proof.value == proofs[ProofKey(old(edges)[edgeId].id)]
    {
      if edgeId !in edges {
        return None;
      }
      var edge := edges[edgeId];
      edges := edges[edgeId := edge.(status := Verified, citations := edge.citations + cited)];
      if edge.target in nodes {
        var target := nodes[edge.target];
        if target.status != Known {
          nodes := nodes[edge.target := target.(status := Known)];
        } else {
          assert nodes == nodes[edge.target := target];
        }
      }
      var minted := Proof(edge.id, edge.source, NodeValue(View(), edge.source), edge.target, NodeValue(View(), edge.target), cited);
      proofs := proofs[ProofKey(edge.id) := minted];
      return Some(minted);
    }

    /** The observations of an attempt replace the edge's citations before the verifier is asked. */
    method CiteAttempt(edgeId: string, observations: set<string>)
      requires edgeId in edges
      modifies this`edges
      ensures edges == old(edges)[edgeId := old(edges)[edgeId].(citations := observations)]
    {
      edges := edges[edgeId := edges[edgeId].(citations := observations)];
    }

    /** What the verifier does to the graph once it has accepted an attempt. */
    method ApplyVerification(edgeId: string, proof: Proof, value: Option<string>)
      requires edgeId in edges && edges[edgeId].target in nodes
      modifies this
      ensures edges == old(edges)[edgeId :=
        old(edges)[edgeId].(status := Verified, citations := old(edges)[edgeId].citations + proof.citations)]
      ensures proofs == old(proofs)[ProofKey(proof.edgeId) := proof]
      ensures var n := old(nodes)[old(edges)[edgeId].target];
        nodes == old(nodes)[old(edges)[edgeId].target := n.(status := Known, value := if value.Some? then value.value else n.value)]
    {
      var edge := edges[edgeId];
      edges := edges[edgeId := edge.(status := Verified, citations := edge.citations + proof.citations)];
      proofs := proofs[ProofKey(proof.edgeId) := proof];
      var target := nodes[edge.target];
      if value.Some? {
        target := target.(value := value.value);
      }
      nodes := nodes[edge.target := target.(status := Known)];
    }

    /** The evidence projection for a claim: the claim id is carried along and never consulted. */
    method ExtractSubgraph(claimId: string) returns (r: Subgraph)
      ensures IsProjection(View(), claimId, r)
    {
      r := Subgraph(claimId, nodes, map k | k in edges && edges[k].status == Verified :: edges[k], proofs,
                    set p, o | p in proofs && o in proofs[p].citations :: o);
    }
  }

  // ------------------------------------------------------------ the evidence projection

  datatype Subgraph = Subgraph(
    claimId: string, nodes: map<string, Node>, edges: map<string, Edge>, proofs: map<string, Proof>, cited: set<string>)

  /** Every node, every VERIFIED edge, every proof, and every observation that some proof cites. */
  ghost predicate IsProjection(g: Graph, claimId: string, r: Subgraph) {
    && r.claimId == claimId && r.nodes == g.nodes && r.proofs == g.proofs
    && (forall k :: k in r.edges <==> IsVerified(g, k)) && (forall k :: k in r.edges ==> r.edges[k] == g.edges[k])
    && forall o :: o in r.cited <==> exists p :: p in g.proofs && o in g.proofs[p].citations
  }

  ghost predicate IsVerifiedFor(g: Graph, claimId: string, edge: string) {
    IsVerified(g, edge) && g.edges[edge].claimId == claimId
  }

  /** The edges, proofs and citations of one claim alone. */
  ghost predicate IsOwnEvidence(g: Graph, claimId: string, r: Subgraph) {
    && (forall k :: k in r.edges <==> IsVerifiedFor(g, claimId, k))
    && (forall p :: p in r.proofs <==> exists k :: IsVerifiedFor(g, claimId, k) && p == ProofKey(k))
    && forall o :: o in r.cited <==> exists k :: IsVerifiedFor(g, claimId, k) && ProofKey(k) in g.proofs && o in g.proofs[ProofKey(k)].citations
  }

  /** The projection is the claim's own evidence exactly when every VERIFIED edge carries that claim's id. */
  lemma ProjectionIsOwn(g: Graph, claimId: string, r: Subgraph)
    requires HasProofs(g) && IsProjection(g, claimId, r)
    ensures IsOwnEvidence(g, claimId, r) <==> forall k :: IsVerified(g, k) ==> g.edges[k].claimId == claimId
  {
    if IsOwnEvidence(g, claimId, r) {
      forall k | IsVerified(g, k) ensures g.edges[k].claimId == claimId {
        assert k in r.edges;
      }
    }
    if forall k :: IsVerified(g, k) ==> g.edges[k].claimId == claimId {
      assert forall k :: IsVerified(g, k) <==> IsVerifiedFor(g, claimId, k);
      forall o | o in r.cited
        ensures exists k :: IsVerifiedFor(g, claimId, k) && ProofKey(k) in g.proofs && o in g.proofs[ProofKey(k)].citations
      {
        var p :| p in g.proofs && o in g.proofs[p].citations;
        var k :| IsVerified(g, k) && p == ProofKey(k);
        assert IsVerifiedFor(g, claimId, k);
      }
    }
  }

  /** Whatever the claim, each citation is an observation that some VERIFIED edge carries. */
  lemma ProjectionIsCited(g: Graph, claimId: string, r: Subgraph, o: string) returns (k: string)
    requires HasProofs(g) && IsProjection(g, claimId, r) && o in r.cited
    ensures k in r.edges && o in r.edges[k].citations
  {
    var p :| p in g.proofs && o in g.proofs[p].citations;
    k :| IsVerified(g, k) && p == ProofKey(k);
  }
}
