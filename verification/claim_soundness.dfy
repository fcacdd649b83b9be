/**
 * The claim-graph loop from a freshly built case: what a resolved hunt has proved,
 * how long the loop can run, and what it spends.
 */
module ClaimSoundness {
  import opened Text
  import opened CaseGraphs
  import opened CaseBuilder
  import opened Planning
  import opened ClaimLoop
  import CaseRuns
  import CaseTheory
  import Claims
  import S = Stopping

  // ------------------------------------------------------------ every turn keeps the invariants

  lemma AcceptedKeeps(claims: seq<Claims.Claim>, s: State, k: string, t: Turn)
    requires ValidIds(claims) && ClaimInvariant(claims, s) && s.decision.None?
    requires IsActionable(s.graph, k) && s.graph.edges[k].target in s.graph.nodes && IsVerifiedBy(s, t)
    ensures ClaimInvariant(claims, Execute(s, k, t)) && Execute(s, k, t).decision.None?
  {
    var r := Execute(s, k, t);
    assert OnlyStatusesDiffer(claims, r.claims) && ClaimsAgree(r.claims, r.graph) by { VerifiedKeepsClaims(claims, s, k, t); }
    AgreedIsSupported(r.claims, r.graph);
  }

  lemma AgreedIsSupported(claims: seq<Claims.Claim>, g: Graph)
    requires ClaimsAgree(claims, g)
    ensures SupportAgrees(claims, g)
  {
  }

  lemma RejectedKeeps(claims: seq<Claims.Claim>, start: Graph, s: State, k: string, t: Turn)
    requires ValidIds(claims) && ClaimInvariant(claims, s) && s.decision.None?
    requires ReportsApart(start) && SameSkeleton(start, s.graph) && NothingElse(s.graph)
    requires IsActionable(s.graph, k) && s.graph.edges[k].target in s.graph.nodes && !IsVerifiedBy(s, t)
    ensures ClaimInvariant(claims, Execute(s, k, t)) && HasFailed(Execute(s, k, t))
  {
    RejectedKeepsClaims(claims, start, s, k, t);
  }

  lemma ExecuteKeeps(claims: seq<Claims.Claim>, start: Graph, s: State, k: string, t: Turn)
    requires ValidIds(claims) && ClaimInvariant(claims, s) && s.decision.None?
    requires ReportsApart(start) && GraphInvariant(start, s.graph, s.observed)
    requires IsActionable(s.graph, k) && s.graph.edges[k].target in s.graph.nodes
    ensures ClaimInvariant(claims, Execute(s, k, t))
    ensures GraphInvariant(start, Execute(s, k, t).graph, Execute(s, k, t).observed)
    ensures Execute(s, k, t).decision != Some(S.StopResolved)
  {
    if IsVerifiedBy(s, t) {
      VerifiedKeepsGraph(start, s, k, t);
      AcceptedKeeps(claims, s, k, t);
    } else {
      RejectedKeepsGraph(start, s, k, t);
      RejectedKeeps(claims, start, s, k, t);
    }
  }

  lemma StepKeeps(set_: Setting, claims: seq<Claims.Claim>, start: Graph, s: State, m: Move)
    requires ValidIds(claims) && ClaimInvariant(claims, s)
    requires ReportsApart(start) && GraphInvariant(start, s.graph, s.observed)
    requires IsMove(set_, s, m)
    ensures ClaimInvariant(claims, Step(set_, s, m))
    ensures GraphInvariant(start, Step(set_, s, m).graph, Step(set_, s, m).observed)
  {
    if MayPlan(s, m.turn) && m.plan.Act? {
      ExecuteKeeps(claims, start, StartTurn(s), m.plan.edge, m.turn);
    }
  }

  // ------------------------------------------------------------ what a resolution means

  /** In a hunt whose hypotheses are live and whose claims are unproven or supported. */
  lemma ResolutionHasTwoReasons(set_: Setting, s: State, outside: bool)
    requires forall h :: h in s.hypotheses ==> h.status == S.Live
    requires ClaimsAgree(s.claims, s.graph)
    requires S.Evaluate(Situation(set_, s, outside)).0 == S.StopResolved
    ensures
      || (S.HasMandatory(s.claims) && forall c :: c in s.claims && !c.optional ==> c.status == Claims.Supported)
      || forall k :: k in s.graph.edges ==> IsVerified(s.graph, k)
  {
    var sit := Situation(set_, s, outside);
    if S.MandatoryResolved(s.claims) {
      forall c | c in s.claims && !c.optional ensures c.status == Claims.Supported {
        assert Claims.IsResolved(c);
      }
    } else {
      var hs := S.WeakenAll(sit.hypotheses);
      forall h | h in hs ensures h.status == S.Live {}
      assert S.NothingUnproven(sit.graph) && !S.SomethingRefuted(sit.graph);
      forall k | k in s.graph.edges ensures IsVerified(s.graph, k) {
        assert !IsUnproven(s.graph, k);
      }
    }
  }

  /** Draft i's claim is the one that a VERIFIED edge reports: the last draft with some key strips to its id. */
  ghost predicate IsOwned(ds: seq<Draft>, i: nat)
    requires i < |ds|
  {
    exists j: nat :: OwnsEdge(ds, |ds|, j) && Strip(ds[j].id) == ds[i].id
  }

  /** Every edge of a compiled graph carries the id of the draft that owns it. */
  lemma EdgeHasOwner(ds: seq<Draft>, start: Graph, g: Graph, k: string) returns (j: nat)
    requires WellNamed(ds) && Compiled(ds, start) && SameSkeleton(start, g) && k in g.edges
    ensures OwnsEdge(ds, |ds|, j) && ds[j].edge.id == k && g.edges[k].claimId == ds[j].id
  {
    j := CaseTheory.EdgeHasDecider(ds, start, k);
  }

  lemma OwnerEdge(ds: seq<Draft>, start: Graph, g: Graph, j: nat)
    requires WellNamed(ds) && Compiled(ds, start) && SameSkeleton(start, g) && OwnsEdge(ds, |ds|, j)
    ensures ds[j].edge.id in g.edges && g.edges[ds[j].edge.id].claimId == ds[j].id
  {
    assert start.edges[ds[j].edge.id] == ds[j].edge.(source := SourceOf(ds, Referents(ds), j));
  }

  lemma ProvedIsOwned(ds: seq<Draft>, start: Graph, g: Graph, i: nat)
    requires WellNamed(ds) && Compiled(ds, start) && SameSkeleton(start, g) && i < |ds|
    ensures IsProved(g, ds[i].id) ==> IsOwned(ds, i)
    ensures IsOwned(ds, i) && (forall k :: k in g.edges ==> IsVerified(g, k)) ==> IsProved(g, ds[i].id)
  {
    if IsProved(g, ds[i].id) {
      var k :| IsVerified(g, k) && Strip(g.edges[k].claimId) == ds[i].id;
      var j := EdgeHasOwner(ds, start, g, k);
      assert OwnsEdge(ds, |ds|, j) && Strip(ds[j].id) == ds[i].id;
    }
    if IsOwned(ds, i) && forall k :: k in g.edges ==> IsVerified(g, k) {
      var j: nat :| OwnsEdge(ds, |ds|, j) && Strip(ds[j].id) == ds[i].id;
      OwnerEdge(ds, start, g, j);
      assert IsVerified(g, ds[j].edge.id);
    }
  }

  /** The edge that proves a claim is the claim's own edge, padding or not. */
  lemma ProofIsOfOwnEdge(claims: seq<Claims.Claim>, start: Graph, g: Graph, i: nat)
    requires Compiled(Drafts(claims), start) && SameSkeleton(start, g) && i < |claims|
    requires IsProved(g, claims[i].id)
    ensures IsVerified(g, Drafts(claims)[i].edge.id)
  {
    var ds := Drafts(claims);
    DraftsAreWellNamed(claims);
    var k :| IsVerified(g, k) && Strip(g.edges[k].claimId) == claims[i].id;
    var j := EdgeHasOwner(ds, start, g, k);
    SafeIdIgnoresPadding(claims[j].id);
    assert ds[j].key == SafeId(claims[j].id) == SafeId(claims[i].id) == ds[i].key;
  }

  // ------------------------------------------------------------ whole runs

  /** A freshly built case: unproven claims, live hypotheses, the compiled graph. */
  ghost predicate IsFreshStart(claims: seq<Claims.Claim>, s: State) {
    && ValidIds(claims) && s.claims == claims && Compiled(Drafts(claims), s.graph)
    && (forall c :: c in claims ==> c.status == Claims.Unproven)
    && (forall h :: h in s.hypotheses ==> h.status == S.Live)
    && s.decision.None?
  }

  /** The reason a resolved state keeps. */
  ghost predicate ResolvedForReason(s: State) {
    s.decision == Some(S.StopResolved) ==>
      || (S.HasMandatory(s.claims) && forall c :: c in s.claims && !c.optional ==> c.status == Claims.Supported)
      || forall k :: k in s.graph.edges ==> IsVerified(s.graph, k)
  }

  ghost predicate RunInvariant(claims: seq<Claims.Claim>, start: Graph, s: State) {
    && ReportsApart(start) && ClaimInvariant(claims, s) && GraphInvariant(start, s.graph, s.observed)
    && ResolvedForReason(s)
  }

  lemma CompiledIsUnproven(ds: seq<Draft>, g: Graph, k: string)
    requires WellNamed(ds) && Compiled(ds, g) && k in g.edges
    ensures g.edges[k].status == Unproven && g.edges[k].id == k
  {
    var j := EdgeHasOwner(ds, g, g, k);
    assert g.edges[ds[j].edge.id] == ds[j].edge.(source := SourceOf(ds, Referents(ds), j));
  }

  lemma UnprovenGraphHolds(g: Graph, observed: set<string>)
    requires forall k :: k in g.edges ==> g.edges[k].status == Unproven && g.edges[k].id == k
    requires g.proofs == map[]
    ensures GraphInvariant(g, g, observed)
    ensures forall id :: !IsProved(g, id)
  {
    assert forall k :: !IsVerified(g, k);
  }

  lemma FreshGraphHolds(ds: seq<Draft>, g: Graph, observed: set<string>)
    requires WellNamed(ds) && Compiled(ds, g)
    ensures GraphInvariant(g, g, observed)
    ensures forall id :: !IsProved(g, id)
  {
    forall k | k in g.edges ensures g.edges[k].status == Unproven && g.edges[k].id == k {
      CompiledIsUnproven(ds, g, k);
    }
    UnprovenGraphHolds(g, observed);
  }

  lemma SameIdSameKey(claims: seq<Claims.Claim>, i: nat, j: nat)
    requires i < |claims| && j < |claims| && Strip(claims[i].id) == Strip(claims[j].id)
    ensures Drafts(claims)[i].key == Drafts(claims)[j].key
  {
    SafeIdIgnoresPadding(claims[i].id);
    SafeIdIgnoresPadding(claims[j].id);
  }

  lemma OwnersApart(ds: seq<Draft>, g: Graph, k: string, l: string)
    requires WellNamed(ds) && Compiled(ds, g) && k in g.edges && l in g.edges
    requires forall i, j :: 0 <= i < |ds| && 0 <= j < |ds| && Strip(ds[i].id) == Strip(ds[j].id) ==> ds[i].key == ds[j].key
    ensures Strip(g.edges[k].claimId) == Strip(g.edges[l].claimId) ==> k == l
  {
    var i := EdgeHasOwner(ds, g, g, k);
    var j := EdgeHasOwner(ds, g, g, l);
  }

  /** No two edges of a compiled graph report back to the same claim, padding or not. */
  lemma CompiledReportsApart(claims: seq<Claims.Claim>, g: Graph)
    requires Compiled(Drafts(claims), g)
    ensures ReportsApart(g)
  {
    var ds := Drafts(claims);
    DraftsAreWellNamed(claims);
    forall i, j | 0 <= i < |ds| && 0 <= j < |ds| && Strip(ds[i].id) == Strip(ds[j].id) ensures ds[i].key == ds[j].key {
      SameIdSameKey(claims, i, j);
    }
    forall k, l | k in g.edges && l in g.edges ensures Strip(g.edges[k].claimId) == Strip(g.edges[l].claimId) ==> k == l {
      OwnersApart(ds, g, k, l);
    }
  }

  lemma FreshClaimsHold(claims: seq<Claims.Claim>, s: State)
    requires s.claims == claims && s.decision.None? && forall h :: h in s.hypotheses ==> h.status == S.Live
    requires forall c :: c in claims ==> c.status == Claims.Unproven
    requires forall id :: !IsProved(s.graph, id)
    ensures ClaimInvariant(claims, s)
  {
    forall i | 0 <= i < |claims| ensures claims[i].status == Claims.Unproven {
      assert claims[i] in claims;
    }
  }

  lemma FreshStartHolds(claims: seq<Claims.Claim>, s: State)
    requires IsFreshStart(claims, s)
    ensures RunInvariant(claims, s.graph, s)
  {
    DraftsAreWellNamed(claims);
    CompiledReportsApart(claims, s.graph);
    FreshGraphHolds(Drafts(claims), s.graph, s.observed);
    FreshClaimsHold(claims, s);
  }

  lemma StepHolds(set_: Setting, claims: seq<Claims.Claim>, start: Graph, s: State, m: Move)
    requires ValidIds(claims) && RunInvariant(claims, start, s) && IsMove(set_, s, m)
    ensures RunInvariant(claims, start, Step(set_, s, m))
  {
    StepKeeps(set_, claims, start, s, m);
    if Step(set_, s, m).decision == Some(S.StopResolved) {
      if MayPlan(s, m.turn) && m.plan.Act? {
        ExecuteKeeps(claims, start, StartTurn(s), m.plan.edge, m.turn);
      } else {
        ResolutionHasTwoReasons(set_, StartTurn(s), m.turn.outsideAtStop);
      }
    }
  }

  lemma {:induction false} RunHolds(set_: Setting, claims: seq<Claims.Claim>, start: Graph, s: State, moves: seq<Move>)
    requires ValidIds(claims) && RunInvariant(claims, start, s) && LegalMoves(set_, s, moves)
    ensures RunInvariant(claims, start, EndOf(set_, s, moves))
    decreases |moves|
  {
    if moves != [] {
      StepHolds(set_, claims, start, s, moves[0]);
      RunHolds(set_, claims, start, Step(set_, s, moves[0]), moves[1..]);
    }
  }

  /** What is proved of claim i when its own edge is VERIFIED and reports back to it. */
  lemma ProvedIs(claims: seq<Claims.Claim>, start: Graph, g: Graph, i: nat)
    requires Compiled(Drafts(claims), start) && SameSkeleton(start, g) && i < |claims|
    ensures IsProved(g, claims[i].id) <==> IsOwned(Drafts(claims), i) && IsVerified(g, Drafts(claims)[i].edge.id)
  {
    var ds := Drafts(claims);
    DraftsAreWellNamed(claims);
    ProvedIsOwned(ds, start, g, i);
    if IsProved(g, claims[i].id) {
      ProofIsOfOwnEdge(claims, start, g, i);
    }
    if IsOwned(ds, i) && IsVerified(g, ds[i].edge.id) {
      var j: nat :| OwnsEdge(ds, |ds|, j) && Strip(ds[j].id) == ds[i].id;
      OwnerEdge(ds, start, g, j);
      SafeIdIgnoresPadding(claims[j].id);
      assert ds[j].key == ds[i].key;
    }
  }

  /** The claim's own edge is VERIFIED, on a chain of VERIFIED edges from what the request made KNOWN. */
  ghost predicate IsClaimProved(claims: seq<Claims.Claim>, start: Graph, end: Graph, i: nat)
    requires i < |claims|
  {
    var own := Drafts(claims)[i].edge.id;
    IsOwned(Drafts(claims), i) && IsVerified(end, own) && IsGrounded(start, end, own)
  }

  lemma InvariantMeansProved(claims: seq<Claims.Claim>, start: Graph, end: State, i: nat)
    requires Compiled(Drafts(claims), start) && RunInvariant(claims, start, end) && i < |claims|
    ensures |end.claims| == |claims| && EvidenceIsFresh(end.graph, end.observed)
    ensures end.claims[i].status == Claims.Supported <==> IsClaimProved(claims, start, end.graph, i)
    ensures !HasFailed(end) ==> end.claims[i].status in {Claims.Supported, Claims.Unproven}
  {
    ProvedIs(claims, start, end.graph, i);
    assert end.claims[i].id == claims[i].id;
    assert IsVerified(end.graph, Drafts(claims)[i].edge.id) ==> IsGrounded(start, end.graph, Drafts(claims)[i].edge.id);
  }

  /**
   * Along any run from a fresh case, whatever the provider and the verifier return and however the run ends: a claim
   * is SUPPORTED if and only if its own edge is VERIFIED and reports back to it, and then on a chain of VERIFIED edges
   * from what the request made KNOWN. VERIFIED edges rest on disjoint, non-empty sets of observations, and a hunt that
   * did not stop at a rejected attempt leaves every other claim UNPROVEN.
   */
  lemma SupportedMeansProved(set_: Setting, claims: seq<Claims.Claim>, s: State, moves: seq<Move>, i: nat)
    requires IsFreshStart(claims, s) && LegalMoves(set_, s, moves) && i < |claims|
    ensures var end := EndOf(set_, s, moves);
      && |end.claims| == |claims|
      && EvidenceIsFresh(end.graph, end.observed)
      && (end.claims[i].status == Claims.Supported <==> IsClaimProved(claims, s.graph, end.graph, i))
      && (!HasFailed(end) ==> end.claims[i].status in {Claims.Supported, Claims.Unproven})
  {
    FreshStartHolds(claims, s);
    RunHolds(set_, claims, s.graph, s, moves);
    InvariantMeansProved(claims, s.graph, EndOf(set_, s, moves), i);
  }

  /** A proved hunt that has resolved, for whichever reason, has proved exactly the owned mandatory claims. */
  lemma ResolvedIsProved(claims: seq<Claims.Claim>, start: Graph, end: State, i: nat)
    requires Compiled(Drafts(claims), start) && RunInvariant(claims, start, end)
    requires end.decision == Some(S.StopResolved) && i < |claims| && !claims[i].optional
    ensures |end.claims| == |claims| && (IsProved(end.graph, claims[i].id) <==> IsOwned(Drafts(claims), i))
  {
    DraftsAreWellNamed(claims);
    ProvedIsOwned(Drafts(claims), start, end.graph, i);
    assert end.claims[i] in end.claims && end.claims[i].optional == claims[i].optional;
  }

  lemma ResolvedStatus(claims: seq<Claims.Claim>, start: Graph, end: State, i: nat)
    requires ClaimInvariant(claims, end) && end.decision == Some(S.StopResolved) && i < |claims|
    ensures |end.claims| == |claims|
    ensures end.claims[i].status == if IsProved(end.graph, claims[i].id) then Claims.Supported else Claims.Unproven
  {
    assert end.claims[i].id == claims[i].id;
  }

  /** The final status of a mandatory claim in a hunt that ends STOP_RESOLVED. */
  lemma ResolvedStatusIs(set_: Setting, claims: seq<Claims.Claim>, s: State, moves: seq<Move>, i: nat)
    requires IsFreshStart(claims, s) && LegalMoves(set_, s, moves)
    requires EndOf(set_, s, moves).decision == Some(S.StopResolved)
    requires i < |claims| && !claims[i].optional
    ensures |EndOf(set_, s, moves).claims| == |claims|
    ensures EndOf(set_, s, moves).claims[i].status == if IsOwned(Drafts(claims), i) then Claims.Supported else Claims.Unproven
  {
    var end := EndOf(set_, s, moves);
    FreshStartHolds(claims, s);
    RunHolds(set_, claims, s.graph, s, moves);
    ResolvedIsProved(claims, s.graph, end, i);
    ResolvedStatus(claims, s.graph, end, i);
  }

  /**
   * The main result. When a run from a fresh case ends STOP_RESOLVED, a mandatory claim is SUPPORTED
   * if and only if the builder gave it an edge that reports back to it; otherwise it is still UNPROVEN.
   */
  lemma ResolvedRuns(set_: Setting, claims: seq<Claims.Claim>, s: State, moves: seq<Move>, i: nat)
    requires IsFreshStart(claims, s) && LegalMoves(set_, s, moves)
    requires EndOf(set_, s, moves).decision == Some(S.StopResolved)
    requires i < |claims| && !claims[i].optional
    ensures var end := EndOf(set_, s, moves);
      && |end.claims| == |claims|
      && (end.claims[i].status == Claims.Supported <==> IsOwned(Drafts(claims), i))
      && (end.claims[i].status == Claims.Unproven <==> !IsOwned(Drafts(claims), i))
      && (IsOwned(Drafts(claims), i) ==> IsGrounded(s.graph, end.graph, Drafts(claims)[i].edge.id))
  {
    ResolvedStatusIs(set_, claims, s, moves, i);
    SupportedMeansProved(set_, claims, s, moves, i);
  }

  lemma StrippedOwnership(ds: seq<Draft>, i: nat)
    requires i < |ds| && forall j :: 0 <= j < |ds| ==> Strip(ds[j].id) == ds[j].id
    requires forall j, k :: 0 <= j < k < |ds| ==> ds[j].id != ds[k].id
    ensures IsOwned(ds, i) <==> OwnsEdge(ds, |ds|, i)
  {
  }

  lemma DraftsStripped(claims: seq<Claims.Claim>)
    requires forall c :: c in claims ==> Trimmed(c.id)
    ensures forall j :: 0 <= j < |claims| ==> Strip(Drafts(claims)[j].id) == Drafts(claims)[j].id
  {
    forall j | 0 <= j < |claims| ensures Strip(claims[j].id) == claims[j].id {
      assert claims[j] in claims;
      StripIsTrimmed(claims[j].id);
    }
  }

  /** Among trimmed ids, a claim owns its edge exactly when no later claim derives the same key. */
  lemma TrimmedOwnership(claims: seq<Claims.Claim>, i: nat)
    requires Claims.DistinctIds(claims) && (forall c :: c in claims ==> Trimmed(c.id)) && i < |claims|
    ensures IsOwned(Drafts(claims), i) <==> forall j :: i < j < |claims| ==> Drafts(claims)[j].key != Drafts(claims)[i].key
  {
    DraftsStripped(claims);
    StrippedOwnership(Drafts(claims), i);
  }

  /** Ids without surrounding white space whose derived keys differ: every claim owns its edge. */
  lemma TrimmedDistinctIdsOwn(claims: seq<Claims.Claim>, i: nat)
    requires CaseTheory.DistinctKeys(Drafts(claims)) && i < |claims| && Trimmed(claims[i].id)
    ensures IsOwned(Drafts(claims), i)
  {
    StripIsTrimmed(claims[i].id);
    assert OwnsEdge(Drafts(claims), |claims|, i);
  }

  /** With such ids a resolved run has proved every mandatory claim. */
  lemma EndToEndSoundness(set_: Setting, claims: seq<Claims.Claim>, s: State, moves: seq<Move>, i: nat)
    requires IsFreshStart(claims, s) && LegalMoves(set_, s, moves)
    requires EndOf(set_, s, moves).decision == Some(S.StopResolved)
    requires CaseTheory.DistinctKeys(Drafts(claims)) && forall c :: c in claims ==> Trimmed(c.id)
    requires i < |claims| && !claims[i].optional
    ensures var end := EndOf(set_, s, moves);
      && |end.claims| == |claims| && end.claims[i].status == Claims.Supported
      && IsGrounded(s.graph, end.graph, Drafts(claims)[i].edge.id)
  {
    TrimmedDistinctIdsOwn(claims, i);
    ResolvedRuns(set_, claims, s, moves, i);
  }

  // ------------------------------------------------------------ how long, and at what cost

  /** What one turn costs. */
  ghost predicate IsPaid(s: State, r: State) {
    && r.ledger.turn == s.ledger.turn + 1 && r.turn == s.turn + 1
    && r.ledger.maxTurns == s.ledger.maxTurns && r.ledger.maxQueries == s.ledger.maxQueries
    && r.ledger.queries - s.ledger.queries == r.queryCount - s.queryCount
    && s.queryCount <= r.queryCount <= s.queryCount + 1
    && (s.ledger.queries <= s.ledger.maxQueries ==> r.ledger.queries <= r.ledger.maxQueries)
    && (r.decision.None? ==> r.ledger.turn < r.ledger.maxTurns)
  }

  lemma StepIsPaid(set_: Setting, s: State, m: Move)
    requires IsMove(set_, s, m)
    ensures IsPaid(s, Step(set_, s, m))
  {
  }

  /** The unproven edges after an accepted attempt. */
  lemma PromoteUsesUp(g: Graph, p: Promotion)
    requires IsActionable(g, p.edge)
    ensures p.edge in CaseRuns.UnprovenSet(g)
    ensures CaseRuns.UnprovenSet(Promote(g, p)) == CaseRuns.UnprovenSet(g) - {p.edge}
  {
    CaseRuns.PromoteChangesOnly(g, p);
    CaseRuns.ChangeUsesUp(g, Promote(g, p), p.edge);
  }

  /** A turn that lets the hunt go on has verified the edge it tested. */
  lemma GoingOnVerifies(set_: Setting, s: State, m: Move)
    requires IsMove(set_, s, m) && Step(set_, s, m).decision.None?
    ensures MayPlan(s, m.turn) && m.plan.Act? && IsVerifiedBy(StartTurn(s), m.turn) && IsActionable(s.graph, m.plan.edge)
    ensures Step(set_, s, m).graph == Promote(s.graph, PromotionOf(StartTurn(s), m.plan.edge, m.turn))
  {
  }

  /** One turn: its cost, and the edge it uses up if the hunt goes on. */
  lemma StepCosts(set_: Setting, s: State, m: Move) returns (used: string)
    requires IsMove(set_, s, m)
    ensures IsPaid(s, Step(set_, s, m))
    ensures var r := Step(set_, s, m);
      r.decision.None? ==>
        used in CaseRuns.UnprovenSet(s.graph) && CaseRuns.UnprovenSet(r.graph) == CaseRuns.UnprovenSet(s.graph) - {used}
  {
    used := "";
    StepIsPaid(set_, s, m);
    if Step(set_, s, m).decision.None? {
      GoingOnVerifies(set_, s, m);
      used := m.plan.edge;
      PromoteUsesUp(s.graph, PromotionOf(StartTurn(s), used, m.turn));
    }
  }

  /** The claim loop makes at most one turn per unproven edge plus one, and never overspends. */
  lemma {:induction false} RunIsBounded(set_: Setting, s: State, moves: seq<Move>)
    requires LegalMoves(set_, s, moves)
    ensures |moves| <= |CaseRuns.UnprovenSet(s.graph)| + 1
    ensures |moves| > 1 ==> s.ledger.turn + |moves| <= s.ledger.maxTurns
    ensures var end := EndOf(set_, s, moves);
      && end.turn == s.turn + |moves| && end.ledger.turn == s.ledger.turn + |moves|
      && end.ledger.queries - s.ledger.queries == end.queryCount - s.queryCount
      && s.queryCount <= end.queryCount <= s.queryCount + |moves|
      && (s.ledger.queries <= s.ledger.maxQueries ==> end.ledger.queries <= s.ledger.maxQueries)
    decreases |moves|
  {
    if moves != [] {
      var used := StepCosts(set_, s, moves[0]);
      var r := Step(set_, s, moves[0]);
      RunIsBounded(set_, r, moves[1..]);
      if r.decision.None? {
        assert |CaseRuns.UnprovenSet(r.graph)| == |CaseRuns.UnprovenSet(s.graph)| - 1;
      } else {
        assert moves[1..] == [];
      }
    }
  }

  /** What makes the loop terminate: a turn that lets the hunt go on uses up an unproven edge. */
  lemma StepProgresses(set_: Setting, s: State, m: Move)
    requires IsMove(set_, s, m) && KeyedById(s.graph)
    ensures KeyedById(Step(set_, s, m).graph)
    ensures Step(set_, s, m).decision.None? ==>
      |CaseRuns.UnprovenSet(Step(set_, s, m).graph)| < |CaseRuns.UnprovenSet(s.graph)|
  {
    var used := StepCosts(set_, s, m);
    if Step(set_, s, m).decision.None? {
      assert |CaseRuns.UnprovenSet(s.graph) - {used}| == |CaseRuns.UnprovenSet(s.graph)| - 1;
    }
  }
}
