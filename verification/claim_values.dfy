/**
 * What an accepted attempt leaves in the case: the value that the verifier reported, the proof and the citations,
 * all still there at the end of the hunt.
 */
module ClaimValues {
  import opened Text
  import opened CaseGraphs
  import opened CaseBuilder
  import opened CaseRuns
  import opened Planning
  import opened ClaimLoop
  import opened ClaimSoundness
  import CaseTheory
  import Claims

  /** The value that an accepting turn leaves in a target node that had another value before. */
  function Reported(t: Turn, before: string): string
    requires t.verdict.Accepted?
  {
    if |t.verdict.value| > 0 then t.verdict.value else before
  }

  /** The nodes at both ends of edge k are stored. */
  ghost predicate HasEnds(g: Graph, k: string) {
    k in g.edges && g.edges[k].source in g.nodes && g.edges[k].target in g.nodes
  }

  /**
   * What a turn that accepted edge k in state s leaves in graph h: the reported value in its target node, its proof
   * with the values that both ends then had and the observations the verifier cites, and the attempt's new
   * observations on the edge.
   */
  ghost predicate Shows(s: State, t: Turn, h: Graph, k: string)
    requires HasEnds(s.graph, k)
  {
    var e := s.graph.edges[k];
    && t.verdict.Accepted?
    && var value := Reported(t, s.graph.nodes[e.target].value);
    && e.target in h.nodes && h.nodes[e.target].value == value
    && k in h.edges && h.edges[k].citations == t.result.rows - s.observed
    && "proof-" + k in h.proofs
    && h.proofs["proof-" + k]
       == Proof(k, e.source, s.graph.nodes[e.source].value, e.target, value, t.verdict.matched * (t.result.rows - s.observed))
  }

  /** Neither the edge, nor its proof, nor the value of its target node differ. */
  ghost predicate KeepsShown(g: Graph, h: Graph, k: string)
    requires HasEnds(g, k)
  {
    && k in h.edges && h.edges[k] == g.edges[k]
    && g.edges[k].target in h.nodes && h.nodes[g.edges[k].target].value == g.nodes[g.edges[k].target].value
    && ("proof-" + k in g.proofs ==> "proof-" + k in h.proofs && h.proofs["proof-" + k] == g.proofs["proof-" + k])
  }

  // ------------------------------------------------------------ one turn

  lemma StepKeepsSkeleton(set_: Setting, s: State, m: Move)
    requires IsMove(set_, s, m)
    ensures SameSkeleton(s.graph, Step(set_, s, m).graph)
  {
    if MayPlan(s, m.turn) && m.plan.Act? {
      AttemptKeepsSkeleton(StartTurn(s), m.plan.edge, m.turn);
    }
  }

  lemma AttemptKeepsSkeleton(s: State, k: string, t: Turn)
    requires IsActionable(s.graph, k)
    ensures SameSkeleton(s.graph, NextGraph(s, k, t))
  {
    if IsVerifiedBy(s, t) {
      PromoteKeeps(s.graph, PromotionOf(s, k, t));
    }
  }

  lemma SkeletonKeeps(g: Graph, h: Graph)
    requires SameSkeleton(g, h)
    ensures KeyedById(g) ==> KeyedById(h)
    ensures TargetsApart(g) ==> TargetsApart(h)
    ensures forall k :: HasEnds(g, k) ==> HasEnds(h, k) && h.edges[k].source == g.edges[k].source && h.edges[k].target == g.edges[k].target
  {
    assert forall k :: k in h.edges ==> h.edges[k].target == g.edges[k].target;
  }

  /** The turn that verifies edge k shows what it found. */
  lemma PromotionShows(s: State, k: string, t: Turn)
    requires IsVerifiedBy(s, t) && IsActionable(s.graph, k) && KeyedById(s.graph) && HasEnds(s.graph, k)
    ensures Shows(s, t, NextGraph(s, k, t), k)
  {
    assert Fresh(s, t) + Cited(s, t) == t.result.rows - s.observed;
  }

  /** A promotion of another edge, whose target is another, keeps what is shown for this one. */
  lemma PromotionKeepsShown(g: Graph, p: Promotion, k: string)
    requires p.edge in g.edges && p.edge != k && KeyedById(g) && TargetsApart(g) && HasEnds(g, k)
    ensures KeepsShown(g, Promote(g, p), k)
  {
    if ProofKey(p.edge) == "proof-" + k {
      ProofKeyInjective(p.edge, k);
    }
    assert g.edges[p.edge].target != g.edges[k].target;
  }

  lemma ExecuteKeepsShown(s: State, l: string, t: Turn, k: string)
    requires IsActionable(s.graph, l) && s.graph.edges[l].target in s.graph.nodes && l != k
    requires KeyedById(s.graph) && TargetsApart(s.graph) && HasEnds(s.graph, k)
    ensures KeepsShown(s.graph, Execute(s, l, t).graph, k)
  {
    if IsVerifiedBy(s, t) {
      PromotionKeepsShown(s.graph, PromotionOf(s, l, t), k);
    }
  }

  /** A turn either verifies edge k, and shows it, or leaves its status and its target's value alone. */
  lemma StepShows(set_: Setting, s: State, m: Move, k: string)
    requires IsMove(set_, s, m) && KeyedById(s.graph) && TargetsApart(s.graph) && HasEnds(s.graph, k) && !IsVerified(s.graph, k)
    ensures var h := Step(set_, s, m).graph;
      if IsVerified(h, k) then m.plan.Act? && m.plan.edge == k && Shows(s, m.turn, h, k)
      else s.graph.edges[k].target in h.nodes && h.nodes[s.graph.edges[k].target].value == s.graph.nodes[s.graph.edges[k].target].value
  {
    if MayPlan(s, m.turn) && m.plan.Act? {
      if m.plan.edge == k {
        if IsVerifiedBy(s, m.turn) {
          PromotionShows(StartTurn(s), k, m.turn);
        }
      } else {
        ExecuteKeepsShown(StartTurn(s), m.plan.edge, m.turn, k);
      }
    }
  }

  lemma StepKeepsShown(set_: Setting, s: State, m: Move, k: string)
    requires IsMove(set_, s, m) && KeyedById(s.graph) && TargetsApart(s.graph) && HasEnds(s.graph, k) && IsVerified(s.graph, k)
    ensures KeepsShown(s.graph, Step(set_, s, m).graph, k)
  {
    if MayPlan(s, m.turn) && m.plan.Act? {
      ExecuteKeepsShown(StartTurn(s), m.plan.edge, m.turn, k);
    }
  }

  // ------------------------------------------------------------ whole runs

  lemma {:induction false} RunKeepsShown(set_: Setting, s: State, moves: seq<Move>, k: string)
    requires LegalMoves(set_, s, moves) && KeyedById(s.graph) && TargetsApart(s.graph)
    requires HasEnds(s.graph, k) && IsVerified(s.graph, k)
    ensures KeepsShown(s.graph, EndOf(set_, s, moves).graph, k)
    decreases |moves|
  {
    if moves != [] {
      var r := Step(set_, s, moves[0]);
      StepKeepsShown(set_, s, moves[0], k);
      StepKeepsSkeleton(set_, s, moves[0]);
      SkeletonKeeps(s.graph, r.graph);
      RunKeepsShown(set_, r, moves[1..], k);
    }
  }

  /** Turn n accepted edge k, what it found is in the last graph, and before it the target had its first value. */
  ghost predicate IsReportedAt(set_: Setting, s: State, moves: seq<Move>, k: string, n: nat)
    requires LegalMoves(set_, s, moves) && HasEnds(s.graph, k)
  {
    && n < |moves| && moves[n].plan.Act? && moves[n].plan.edge == k
    && LegalMoves(set_, s, moves[..n])
    && var before := EndOf(set_, s, moves[..n]);
    && HasEnds(before.graph, k) && Shows(before, moves[n].turn, EndOf(set_, s, moves).graph, k)
    && before.graph.edges[k].source == s.graph.edges[k].source && before.graph.edges[k].target == s.graph.edges[k].target
    && before.graph.nodes[s.graph.edges[k].target].value == s.graph.nodes[s.graph.edges[k].target].value
  }

  ghost predicate IsReported(set_: Setting, s: State, moves: seq<Move>, k: string)
    requires LegalMoves(set_, s, moves)
  {
    HasEnds(s.graph, k) && exists n: nat :: IsReportedAt(set_, s, moves, k, n)
  }

  lemma ShownStays(s: State, t: Turn, g: Graph, h: Graph, k: string)
    requires HasEnds(s.graph, k) && HasEnds(g, k) && g.edges[k].target == s.graph.edges[k].target
    requires Shows(s, t, g, k) && KeepsShown(g, h, k)
    ensures Shows(s, t, h, k)
  {
  }

  lemma ReportedLater(set_: Setting, s: State, moves: seq<Move>, k: string, n: nat)
    requires LegalMoves(set_, s, moves) && moves != [] && HasEnds(s.graph, k)
    requires var r := Step(set_, s, moves[0]);
      && HasEnds(r.graph, k) && r.graph.edges[k].source == s.graph.edges[k].source && r.graph.edges[k].target == s.graph.edges[k].target
      && r.graph.nodes[s.graph.edges[k].target].value == s.graph.nodes[s.graph.edges[k].target].value
      && IsReportedAt(set_, r, moves[1..], k, n)
    ensures IsReportedAt(set_, s, moves, k, n + 1)
  {
    LongerPrefix(set_, s, moves, n);
  }

  lemma LongerPrefix(set_: Setting, s: State, moves: seq<Move>, n: nat)
    requires LegalMoves(set_, s, moves) && n < |moves| && LegalMoves(set_, Step(set_, s, moves[0]), moves[1..][..n])
    ensures LegalMoves(set_, s, moves[..n + 1])
    ensures EndOf(set_, s, moves[..n + 1]) == EndOf(set_, Step(set_, s, moves[0]), moves[1..][..n])
    ensures n + 1 < |moves| ==> moves[n + 1] == moves[1..][n]
  {
    assert moves[..n + 1][0] == moves[0] && moves[..n + 1][1..] == moves[1..][..n];
  }

  lemma {:induction false} VerifiedIsReported(set_: Setting, s: State, moves: seq<Move>, k: string)
    requires LegalMoves(set_, s, moves) && KeyedById(s.graph) && TargetsApart(s.graph) && HasEnds(s.graph, k)
    requires !IsVerified(s.graph, k) && IsVerified(EndOf(set_, s, moves).graph, k)
    ensures IsReported(set_, s, moves, k)
    decreases |moves|
  {
    var r := Step(set_, s, moves[0]);
    StepShows(set_, s, moves[0], k);
    StepKeepsSkeleton(set_, s, moves[0]);
    SkeletonKeeps(s.graph, r.graph);
    if IsVerified(r.graph, k) {
      RunKeepsShown(set_, r, moves[1..], k);
      ShownStays(s, moves[0].turn, r.graph, EndOf(set_, s, moves).graph, k);
      assert moves[..0] == [] && IsReportedAt(set_, s, moves, k, 0);
    } else {
      VerifiedIsReported(set_, r, moves[1..], k);
      var n: nat :| IsReportedAt(set_, r, moves[1..], k, n);
      ReportedLater(set_, s, moves, k, n);
    }
  }

  lemma CompiledHasEnds(ds: seq<Draft>, g: Graph, k: string)
    requires WellNamed(ds) && Compiled(ds, g) && k in g.edges
    ensures HasEnds(g, k)
  {
    var i := CaseTheory.EdgeHasDecider(ds, g, k);
    CaseTheory.DeciderStands(ds, g, i);
    if Referent(ds, i).Some? {
      CaseTheory.DeciderStands(ds, g, Referent(ds, i).value);
    } else {
      CaseTheory.SubjectIsKnown(ds, g, i);
    }
  }

  lemma FreshIsReported(set_: Setting, claims: seq<Claims.Claim>, s: State, moves: seq<Move>, k: string)
    requires IsFreshStart(claims, s) && LegalMoves(set_, s, moves) && IsVerified(EndOf(set_, s, moves).graph, k)
    ensures IsReported(set_, s, moves, k)
  {
    var ds := Drafts(claims);
    DraftsAreWellNamed(claims);
    FreshStartHolds(claims, s);
    RunHolds(set_, claims, s.graph, s, moves);
    CompiledHasEnds(ds, s.graph, k);
    CompiledIsUnproven(ds, s.graph, k);
    CaseTheory.InDegrees(ds, s.graph);
    VerifiedIsReported(set_, s, moves, k);
  }

  /**
   * Along any run from a fresh case, however it ends: the object node of a SUPPORTED claim carries the value that the
   * accepting turn on its edge reported, or the value it had if none was reported; the proof of the edge names its own
   * ends with the values they had, that value, and the observations the verifier cites.
   */
  lemma SupportedIsReported(set_: Setting, claims: seq<Claims.Claim>, s: State, moves: seq<Move>, i: nat)
    requires IsFreshStart(claims, s) && LegalMoves(set_, s, moves) && i < |claims|
    ensures |EndOf(set_, s, moves).claims| == |claims|
    ensures EndOf(set_, s, moves).claims[i].status == Claims.Supported ==> IsReported(set_, s, moves, "edge-" + SafeId(claims[i].id))
  {
    SupportedMeansProved(set_, claims, s, moves, i);
    if EndOf(set_, s, moves).claims[i].status == Claims.Supported {
      FreshIsReported(set_, claims, s, moves, Drafts(claims)[i].edge.id);
    }
  }
}
