/**
 * The claim-graph loop: choose an actionable relation, query the provider, let the verifier judge,
 * and stop at the first failure, when nothing is left to choose, or when a budget is exhausted.
 * Provider results, verdicts and the clock are inputs of each turn.
 */
module ClaimLoop {
  import opened Text
  import opened CaseGraphs
  import opened Planning
  import Claims
  import S = Stopping

  type Claim = Claims.Claim

  // ------------------------------------------------------------ state and inputs

  /** What does not change during the loop. */
  datatype Setting = Setting(
    binder: Binder, expectations: seq<S.TestStatus>, cells: seq<S.Cell>, identityRequired: bool, discoveryDone: bool)

  datatype State = State(
    claims: seq<Claim>,
    hypotheses: seq<S.Hypothesis>,
    graph: Graph,
    ledger: S.Ledger,
    turn: int,
    queryCount: int,
    observed: set<string>,
    incomplete: bool,
    identityResolved: bool,
    decision: Option<S.Decision>)

  /** `rows`: the observation ids of the returned rows. */
  datatype QueryResult = QueryResult(complete: bool, rows: set<string>)

  /** The verifier accepts some of the attempt's observations and reports a target value, or rejects. */
  datatype Verdict = Rejected | Accepted(matched: set<string>, value: string)

  /** The three flags are the clock at the loop's, the planner's and the stopping evaluation's budget test. */
  datatype Turn = Turn(outside: bool, outsideAtPlan: bool, outsideAtStop: bool, result: QueryResult, verdict: Verdict)

  // ------------------------------------------------------------ one turn

  /** Writes a status into the first claim with this id, if any. */
  function SetStatus(claims: seq<Claim>, id: string, status: Claims.ClaimStatus): (r: seq<Claim>)
    ensures |r| == |claims|
  {
    if claims == [] then []
    else if claims[0].id == id then [claims[0].(status := status)] + claims[1..]
    else [claims[0]] + SetStatus(claims[1..], id, status)
  }

  function Situation(set_: Setting, s: State, outside: bool): S.Situation {
    S.Situation(s.hypotheses, Some(s.claims), S.IsExhausted(s.ledger, outside),
                set_.identityRequired && !s.identityResolved && !set_.discoveryDone,
                s.incomplete, set_.expectations, set_.cells, Some(s.graph))
  }

  function StartTurn(s: State): State {
    s.(turn := s.turn + 1, ledger := s.ledger.(turn := s.ledger.turn + 1))
  }

  function Stop(set_: Setting, s: State, outside: bool): State {
    var (decision, hypotheses) := S.Evaluate(Situation(set_, s, outside));
    s.(decision := Some(decision), hypotheses := hypotheses)
  }

  predicate ResolvesIdentity(kind: string) {
    kind in {"ip", "client_ip", "email_address", "email"}
  }

  function FailureDecision(kind: string, edgeId: string): S.Decision {
    if kind in {"account", "user", "endpoint", "host"} && !Contains(edgeId, "role") then S.StopIdentityUnresolved
    else S.StopRelationUnproven
  }

  /** The observations of an attempt that were not in the ledger before. */
  function Fresh(s: State, t: Turn): set<string> {
    t.result.rows - s.observed
  }

  function Cited(s: State, t: Turn): set<string> {
    if t.verdict.Accepted? then t.verdict.matched * Fresh(s, t) else {}
  }

  /** A relation is accepted only on observations that this attempt brought in. */
  predicate IsVerifiedBy(s: State, t: Turn) {
    t.verdict.Accepted? && Cited(s, t) != {}
  }

  function PromotionOf(s: State, k: string, t: Turn): Promotion
    requires t.verdict.Accepted?
  {
    Promotion(k, Some(Fresh(s, t)), Cited(s, t), if t.verdict.value == "" then None else Some(t.verdict.value))
  }

  /** The tested edge carries the new observations; if they convince the verifier it is promoted. */
  function NextGraph(s: State, k: string, t: Turn): Graph
    requires k in s.graph.edges
  {
    if IsVerifiedBy(s, t) then Promote(s.graph, PromotionOf(s, k, t))
    else s.graph.(edges := s.graph.edges[k := s.graph.edges[k].(citations := Fresh(s, t))])
  }

  function NextStatus(s: State, t: Turn): Claims.ClaimStatus {
    if IsVerifiedBy(s, t) then Claims.Supported
    else if t.result.complete then Claims.ClaimStatus.Unknown
    else Claims.Inconclusive
  }

  function NextClaims(s: State, claimId: string, t: Turn): seq<Claim> {
    if claimId == "" then s.claims else SetStatus(s.claims, claimId, NextStatus(s, t))
  }

  /** The query and its result are recorded. */
  function Asked(s: State, t: Turn): State {
    s.(queryCount := s.queryCount + 1,
       ledger := s.ledger.(queries := s.ledger.queries + 1),
       observed := s.observed + t.result.rows,
       incomplete := s.incomplete || !t.result.complete)
  }

  function Execute(s: State, k: string, t: Turn): State
    requires k in s.graph.edges && s.graph.edges[k].target in s.graph.nodes
  {
    var edge := s.graph.edges[k];
    var kind := s.graph.nodes[edge.target].kind;
    Asked(s, t).(
       claims := NextClaims(s, Strip(edge.claimId), t),
       graph := NextGraph(s, k, t),
       identityResolved := s.identityResolved || (IsVerifiedBy(s, t) && ResolvesIdentity(kind)),
       decision := if IsVerifiedBy(s, t) then s.decision else Some(FailureDecision(kind, edge.id)))
  }

  /** A turn with its plan. The plan matters only when the budget lets the turn go on. */
  datatype Move = Move(plan: Plan, turn: Turn)

  predicate IsStopped(s: State, t: Turn) {
    S.IsExhausted(StartTurn(s).ledger, t.outside)
  }

  predicate MayPlan(s: State, t: Turn) {
    !IsStopped(s, t) && !S.IsExhausted(StartTurn(s).ledger, t.outsideAtPlan)
  }

  ghost predicate IsMove(set_: Setting, s: State, m: Move) {
    && s.decision.None?
    && (MayPlan(s, m.turn) ==> IsPlan(set_.binder, s.graph, m.plan))
  }

  function Step(set_: Setting, s: State, m: Move): State
    requires MayPlan(s, m.turn) && m.plan.Act? ==>
      m.plan.edge in s.graph.edges && s.graph.edges[m.plan.edge].target in s.graph.nodes
  {
    var started := StartTurn(s);
    if IsStopped(s, m.turn) then started.(decision := Some(S.StopExhausted))
    else if MayPlan(s, m.turn) && m.plan.Act? then Execute(started, m.plan.edge, m.turn)
    else Stop(set_, started, m.turn.outsideAtStop)
  }

  ghost predicate LegalMoves(set_: Setting, s: State, moves: seq<Move>)
    decreases |moves|
  {
    moves == [] || (IsMove(set_, s, moves[0]) && LegalMoves(set_, Step(set_, s, moves[0]), moves[1..]))
  }

  ghost function EndOf(set_: Setting, s: State, moves: seq<Move>): State
    requires LegalMoves(set_, s, moves)
    decreases |moves|
  {
    if moves == [] then s else EndOf(set_, Step(set_, s, moves[0]), moves[1..])
  }

  // ------------------------------------------------------------ what every turn keeps

  /** Some VERIFIED edge was compiled from the claim that carries this id once it is stripped. */
  ghost predicate IsProved(g: Graph, id: string) {
    exists k :: IsVerified(g, k) && Strip(g.edges[k].claimId) == id
  }

  /** A claim is SUPPORTED exactly when a VERIFIED edge reports back to it. */
  ghost predicate SupportAgrees(claims: seq<Claim>, g: Graph) {
    forall i :: 0 <= i < |claims| ==> (claims[i].status == Claims.Supported <==> IsProved(g, claims[i].id))
  }

  /** And every other claim is still UNPROVEN. */
  ghost predicate ClaimsAgree(claims: seq<Claim>, g: Graph) {
    forall i :: 0 <= i < |claims| ==>
      claims[i].status == if IsProved(g, claims[i].id) then Claims.Supported else Claims.Unproven
  }

  ghost predicate OnlyStatusesDiffer(claims: seq<Claim>, later: seq<Claim>) {
    |later| == |claims| && forall i :: 0 <= i < |claims| ==> later[i] == claims[i].(status := later[i].status)
  }

  /** Each VERIFIED edge rests on observations of its own, all of them in the ledger. */
  ghost predicate EvidenceIsFresh(g: Graph, observed: set<string>) {
    && (forall k :: IsVerified(g, k) ==> g.edges[k].citations != {} && g.edges[k].citations <= observed)
    && forall k, l :: IsVerified(g, k) && IsVerified(g, l) && k != l ==> g.edges[k].citations !! g.edges[l].citations
  }

  ghost predicate NothingElse(g: Graph) {
    forall k :: k in g.edges ==> g.edges[k].status in {Unproven, Verified}
  }

  ghost predicate GraphInvariant(start: Graph, g: Graph, observed: set<string>) {
    && SameSkeleton(start, g) && NothingElse(g) && KeyedById(g)
    && HasProvenance(start, g) && HasProofs(g) && EvidenceIsFresh(g, observed)
  }

  /** No two edges report back to the same claim. */
  ghost predicate ReportsApart(g: Graph) {
    forall k, l :: k in g.edges && l in g.edges && Strip(g.edges[k].claimId) == Strip(g.edges[l].claimId) ==> k == l
  }

  /** How a hunt ends that stops at a rejected attempt. */
  predicate HasFailed(s: State) {
    s.decision in {Some(S.StopIdentityUnresolved), Some(S.StopRelationUnproven)}
  }

  /** What is SUPPORTED is proved, whatever the decision; a rejected attempt marks no other claim than its own. */
  ghost predicate ClaimInvariant(claims: seq<Claim>, s: State) {
    && OnlyStatusesDiffer(claims, s.claims)
    && SupportAgrees(s.claims, s.graph)
    && (!HasFailed(s) ==> ClaimsAgree(s.claims, s.graph))
    && (s.decision.None? ==> forall h :: h in s.hypotheses ==> h.status == S.Live)
  }

  /** What the plan's own validation guarantees about ids. */
  ghost predicate ValidIds(claims: seq<Claim>) {
    Claims.DistinctIds(claims) && forall i :: 0 <= i < |claims| ==> claims[i].id != ""
  }

  // ------------------------------------------------------------ a tested edge

  /** A promotion that cites exactly the new observations, and touches no other edge. */
  ghost predicate IsFreshPromotion(g: Graph, h: Graph, k: string, news: set<string>) {
    && IsPromotion(g, h, k) && !IsVerified(g, k)
    && h.edges[k].citations == news
    && forall l :: l in g.edges && l != k ==> h.edges[l] == g.edges[l]
  }

  lemma FreshPromotionKeepsEvidence(g: Graph, h: Graph, k: string, news: set<string>, observed: set<string>)
    requires EvidenceIsFresh(g, observed) && IsFreshPromotion(g, h, k, news) && news != {} && news !! observed
    ensures EvidenceIsFresh(h, observed + news)
  {
    forall l | IsVerified(h, l) && l != k ensures IsVerified(g, l) && h.edges[l] == g.edges[l] {}
  }

  lemma EvidenceStays(g: Graph, observed: set<string>, more: set<string>)
    requires EvidenceIsFresh(g, observed) && observed <= more
    ensures EvidenceIsFresh(g, more)
  {
  }

  lemma SkeletonTransitive(f: Graph, g: Graph, h: Graph)
    requires SameSkeleton(f, g) && SameSkeleton(g, h)
    ensures SameSkeleton(f, h)
  {
  }

  lemma VerifiedIsFreshPromotion(s: State, k: string, t: Turn)
    requires IsActionable(s.graph, k) && IsVerifiedBy(s, t)
    ensures IsFreshPromotion(s.graph, NextGraph(s, k, t), k, Fresh(s, t))
    ensures NothingElse(s.graph) ==> NothingElse(NextGraph(s, k, t))
  {
    PromoteIsPromotion(s.graph, PromotionOf(s, k, t));
  }

  lemma VerifiedKeepsGraph(start: Graph, s: State, k: string, t: Turn)
    requires GraphInvariant(start, s.graph, s.observed) && IsActionable(s.graph, k) && IsVerifiedBy(s, t)
    ensures GraphInvariant(start, NextGraph(s, k, t), s.observed + t.result.rows)
  {
    var h := NextGraph(s, k, t);
    VerifiedIsFreshPromotion(s, k, t);
    FreshPromotionKeepsEvidence(s.graph, h, k, Fresh(s, t), s.observed);
    EvidenceStays(h, s.observed + Fresh(s, t), s.observed + t.result.rows);
    PromoteGrounds(start, s.graph, h, k);
    PromoteProves(s.graph, PromotionOf(s, k, t));
    SkeletonTransitive(start, s.graph, h);
  }

  /** A rejected attempt leaves every status alone. */
  ghost predicate OnlyCites(g: Graph, h: Graph) {
    && KeepsProofs(g, h) && h.proofs == g.proofs
    && (forall k :: k in g.edges ==> h.edges[k].status == g.edges[k].status)
    && (forall n :: IsKnown(h, n) ==> IsKnown(g, n))
    && forall k :: IsVerified(h, k) ==> IsVerified(g, k) && h.edges[k] == g.edges[k]
  }

  lemma CitingKeepsProvenance(start: Graph, g: Graph, h: Graph)
    requires HasProvenance(start, g) && OnlyCites(g, h)
    ensures HasProvenance(start, h)
  {
    forall k | IsVerified(h, k) ensures IsGrounded(start, h, k) {
      GroundedStays(start, g, h, k);
    }
    forall n | IsKnown(h, n) && !IsKnown(start, n) ensures exists k :: IsVerified(h, k) && h.edges[k].target == n {
      var k :| IsVerified(g, k) && g.edges[k].target == n;
      assert IsVerified(h, k);
    }
  }

  lemma CitingKeepsProofs(g: Graph, h: Graph)
    requires HasProofs(g) && OnlyCites(g, h)
    ensures HasProofs(h)
  {
    assert forall k :: IsVerified(h, k) <==> IsVerified(g, k);
  }

  lemma CitingKeepsEvidence(g: Graph, h: Graph, observed: set<string>, more: set<string>)
    requires EvidenceIsFresh(g, observed) && OnlyCites(g, h) && observed <= more
    ensures EvidenceIsFresh(h, more)
  {
  }

  /** Only edge k differs, and only in its citations. */
  ghost predicate IsRecited(g: Graph, h: Graph, k: string)
    requires k in g.edges
  {
    && h.nodes == g.nodes && h.proofs == g.proofs && h.edges.Keys == g.edges.Keys
    && h.edges[k] == g.edges[k].(citations := h.edges[k].citations)
    && forall l :: l in g.edges && l != k ==> h.edges[l] == g.edges[l]
  }

  lemma RecitedKeepsStatuses(g: Graph, h: Graph, k: string)
    requires k in g.edges && IsRecited(g, h, k)
    ensures forall l :: l in g.edges ==> h.edges[l] == g.edges[l].(citations := h.edges[l].citations)
    ensures NothingElse(g) ==> NothingElse(h)
    ensures KeyedById(g) ==> KeyedById(h)
  {
  }

  lemma RecitedOnlyCites(g: Graph, h: Graph, k: string)
    requires k in g.edges && IsRecited(g, h, k) && g.edges[k].status == Unproven
    ensures OnlyCites(g, h)
  {
    RecitedKeepsStatuses(g, h, k);
  }

  lemma RejectedOnlyCites(s: State, k: string, t: Turn)
    requires k in s.graph.edges && s.graph.edges[k].status == Unproven && !IsVerifiedBy(s, t)
    ensures OnlyCites(s.graph, NextGraph(s, k, t))
    ensures NothingElse(s.graph) ==> NothingElse(NextGraph(s, k, t))
    ensures KeyedById(s.graph) ==> KeyedById(NextGraph(s, k, t))
  {
    RecitedKeepsStatuses(s.graph, NextGraph(s, k, t), k);
    RecitedOnlyCites(s.graph, NextGraph(s, k, t), k);
  }

  lemma RejectedKeepsGraph(start: Graph, s: State, k: string, t: Turn)
    requires GraphInvariant(start, s.graph, s.observed) && IsActionable(s.graph, k) && !IsVerifiedBy(s, t)
    ensures GraphInvariant(start, NextGraph(s, k, t), s.observed + t.result.rows)
  {
    var h := NextGraph(s, k, t);
    RejectedOnlyCites(s, k, t);
    CitingKeepsProvenance(start, s.graph, h);
    CitingKeepsProofs(s.graph, h);
    CitingKeepsEvidence(s.graph, h, s.observed, s.observed + t.result.rows);
    SkeletonTransitive(start, s.graph, h);
  }

  // ------------------------------------------------------------ the tested claim

  lemma {:induction false} SetStatusSets(claims: seq<Claim>, id: string, status: Claims.ClaimStatus)
    requires Claims.DistinctIds(claims)
    ensures forall i :: 0 <= i < |claims| ==>
      SetStatus(claims, id, status)[i] == if claims[i].id == id then claims[i].(status := status) else claims[i]
  {
    if claims != [] && claims[0].id != id {
      SetStatusSets(claims[1..], id, status);
      var rest := SetStatus(claims[1..], id, status);
      forall i | 0 < i < |claims|
        ensures SetStatus(claims, id, status)[i] == if claims[i].id == id then claims[i].(status := status) else claims[i]
      {
        assert SetStatus(claims, id, status)[i] == rest[i - 1] && claims[i] == claims[1..][i - 1];
      }
    }
  }

  /** The status went to the claim with this id, and to no other. */
  ghost predicate IsMarked(claims: seq<Claim>, later: seq<Claim>, id: string, status: Claims.ClaimStatus) {
    && |later| == |claims|
    && forall i :: 0 <= i < |claims| ==> later[i] == if claims[i].id == id then claims[i].(status := status) else claims[i]
  }

  lemma NextClaimsAre(claims: seq<Claim>, s: State, id: string, t: Turn)
    requires ValidIds(claims) && OnlyStatusesDiffer(claims, s.claims)
    ensures OnlyStatusesDiffer(claims, NextClaims(s, id, t)) && IsMarked(s.claims, NextClaims(s, id, t), id, NextStatus(s, t))
  {
    assert Claims.DistinctIds(s.claims);
    SetStatusSets(s.claims, id, NextStatus(s, t));
  }

  lemma PromotionProves(g: Graph, h: Graph, k: string, id: string)
    requires IsPromotion(g, h, k)
    ensures IsProved(h, id) <==> IsProved(g, id) || Strip(g.edges[k].claimId) == id
  {
    if IsProved(g, id) {
      var l :| IsVerified(g, l) && Strip(g.edges[l].claimId) == id;
      assert IsVerified(h, l) && Strip(h.edges[l].claimId) == id;
    }
    if Strip(g.edges[k].claimId) == id {
      assert IsVerified(h, k) && Strip(h.edges[k].claimId) == id;
    }
  }

  lemma AgreementGrows(claims: seq<Claim>, later: seq<Claim>, g: Graph, h: Graph, k: string)
    requires ClaimsAgree(claims, g) && IsPromotion(g, h, k)
    requires IsMarked(claims, later, Strip(g.edges[k].claimId), Claims.Supported)
    ensures ClaimsAgree(later, h)
  {
    forall i | 0 <= i < |claims|
      ensures later[i].status == if IsProved(h, later[i].id) then Claims.Supported else Claims.Unproven
    {
      PromotionProves(g, h, k, claims[i].id);
    }
  }

  lemma VerifiedKeepsClaims(claims: seq<Claim>, s: State, k: string, t: Turn)
    requires ValidIds(claims) && OnlyStatusesDiffer(claims, s.claims) && ClaimsAgree(s.claims, s.graph)
    requires IsActionable(s.graph, k) && IsVerifiedBy(s, t)
    ensures OnlyStatusesDiffer(claims, NextClaims(s, Strip(s.graph.edges[k].claimId), t))
    ensures ClaimsAgree(NextClaims(s, Strip(s.graph.edges[k].claimId), t), NextGraph(s, k, t))
  {
    var id := Strip(s.graph.edges[k].claimId);
    VerifiedIsFreshPromotion(s, k, t);
    NextClaimsAre(claims, s, id, t);
    AgreementGrows(s.claims, NextClaims(s, id, t), s.graph, NextGraph(s, k, t), k);
  }

  /** A rejected edge was the only one that could have proved its claim. */
  lemma RejectedProvesNothing(start: Graph, g: Graph, h: Graph, k: string, id: string)
    requires ReportsApart(start) && SameSkeleton(start, g) && OnlyCites(g, h)
    requires k in g.edges && g.edges[k].status == Unproven
    ensures IsProved(h, id) <==> IsProved(g, id)
    ensures !IsProved(h, Strip(g.edges[k].claimId))
  {
    if IsProved(g, id) {
      var l :| IsVerified(g, l) && Strip(g.edges[l].claimId) == id;
      assert IsVerified(h, l) && Strip(h.edges[l].claimId) == id;
    }
  }

  lemma SupportStays(claims: seq<Claim>, later: seq<Claim>, g: Graph, h: Graph, id: string, status: Claims.ClaimStatus)
    requires SupportAgrees(claims, g) && IsMarked(claims, later, id, status) && status != Claims.Supported
    requires !IsProved(h, id) && forall other :: IsProved(h, other) <==> IsProved(g, other)
    ensures SupportAgrees(later, h)
  {
  }

  lemma RejectedKeepsSupport(claims: seq<Claim>, later: seq<Claim>, start: Graph, g: Graph, h: Graph, k: string, status: Claims.ClaimStatus)
    requires SupportAgrees(claims, g) && status != Claims.Supported
    requires ReportsApart(start) && SameSkeleton(start, g) && OnlyCites(g, h) && k in g.edges && g.edges[k].status == Unproven
    requires IsMarked(claims, later, Strip(g.edges[k].claimId), status)
    ensures SupportAgrees(later, h)
  {
    forall other ensures IsProved(h, other) <==> IsProved(g, other) {
      RejectedProvesNothing(start, g, h, k, other);
    }
    RejectedProvesNothing(start, g, h, k, Strip(g.edges[k].claimId));
    SupportStays(claims, later, g, h, Strip(g.edges[k].claimId), status);
  }

  /** After a rejected attempt what is SUPPORTED is still exactly what is proved. */
  lemma RejectedKeepsClaims(claims: seq<Claim>, start: Graph, s: State, k: string, t: Turn)
    requires ValidIds(claims) && OnlyStatusesDiffer(claims, s.claims) && SupportAgrees(s.claims, s.graph)
    requires ReportsApart(start) && SameSkeleton(start, s.graph)
    requires k in s.graph.edges && s.graph.edges[k].status == Unproven && !IsVerifiedBy(s, t)
    ensures OnlyStatusesDiffer(claims, NextClaims(s, Strip(s.graph.edges[k].claimId), t))
    ensures SupportAgrees(NextClaims(s, Strip(s.graph.edges[k].claimId), t), NextGraph(s, k, t))
  {
    var id := Strip(s.graph.edges[k].claimId);
    NextClaimsAre(claims, s, id, t);
    assert OnlyCites(s.graph, NextGraph(s, k, t)) by { RejectedOnlyCites(s, k, t); }
    RejectedKeepsSupport(s.claims, NextClaims(s, id, t), start, s.graph, NextGraph(s, k, t), k, NextStatus(s, t));
  }
}
