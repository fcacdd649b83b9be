/**
 * The converse of soundness for the claim-graph loop: with operations for every relation, room in the
 * budgets and every attempt accepted, the hunt resolves in one turn per edge and one more.
 */
module ClaimCompleteness {
  import opened Text
  import opened CaseGraphs
  import opened CaseBuilder
  import opened CaseRuns
  import opened CaseTheory
  import opened Planning
  import opened ClaimLoop
  import opened ClaimSoundness
  import Claims
  import S = Stopping

  // ------------------------------------------------------------ what completeness needs

  /** Some operation can test every actionable relation, whatever has been verified before. */
  ghost predicate BindsEverything(b: Binder, start: Graph) {
    forall h, k :: SameSkeleton(start, h) && IsActionable(h, k) && h.edges[k].target in h.nodes ==>
      exists name :: IsCandidate(b, h, k, name)
  }

  /** Budget for n tested edges and the turn that stops the hunt. */
  ghost predicate HasRoom(l: S.Ledger, n: nat) {
    l.turn + n + 1 < l.maxTurns && l.queries + n < l.maxQueries && l.scanCells < l.maxScanCells && (l.tracked || l.llmCalls < l.maxLlmCalls)
  }

  /** The clock leaves the turn alone, the result is complete, and the verifier accepts new observations of it. */
  ghost predicate IsAccepting(s: State, t: Turn) {
    !t.outside && !t.outsideAtPlan && !t.outsideAtStop && t.result.complete && IsVerifiedBy(s, t)
  }

  ghost predicate AllAccepted(set_: Setting, s: State, moves: seq<Move>)
    requires LegalMoves(set_, s, moves)
    decreases |moves|
  {
    moves == [] || (IsAccepting(s, moves[0].turn) && AllAccepted(set_, Step(set_, s, moves[0]), moves[1..]))
  }

  /** Nothing but the claims and the graph can keep the hunt from resolving. */
  predicate IsUnblocked(set_: Setting, s: State) {
    !s.incomplete && (set_.identityRequired ==> s.identityResolved || set_.discoveryDone)
  }

  ghost predicate IsOnTrack(set_: Setting, start: Graph, s: State) {
    s.decision.None? && IsUnblocked(set_, s) && IsGoing(start, s.graph) && HasRoom(s.ledger, |UnprovenSet(s.graph)|)
  }

  /** A later state of the start in which nothing was refuted. */
  ghost predicate IsGoing(start: Graph, h: Graph) {
    h.edges != map[] && IsProgress(start, h) && TargetsStored(h)
  }

  /** The statuses are what the run has proved so far, and the claims decide before any hypothesis. */
  ghost predicate IsHonest(s: State) {
    ClaimsAgree(s.claims, s.graph) && NothingElse(s.graph) && forall h :: h in s.hypotheses ==> h.status == S.Live
  }

  lemma InvariantIsHonest(claims: seq<Claims.Claim>, start: Graph, s: State)
    requires RunInvariant(claims, start, s) && s.decision.None?
    ensures IsHonest(s)
  {
  }

  // ------------------------------------------------------------ when a graph is never stuck

  /** Without references every source is KNOWN from the start, whether or not the keys collide. */
  lemma UnreferencedNeverStuck(ds: seq<Draft>, g: Graph)
    requires WellNamed(ds) && Compiled(ds, g) && forall i :: 0 <= i < |ds| ==> ds[i].reference == None
    ensures NeverStuck(g)
  {
    DeadlockFreedom(ds, g);
    forall i: nat | i < |ds| ensures IsGiven(ds, i) {}
  }

  // ------------------------------------------------------------ an accepted turn

  /** With something unproven the plan is to act. */
  lemma PlanActs(b: Binder, start: Graph, h: Graph, plan: Plan)
    requires BindsEverything(b, start) && NeverStuck(start) && IsGoing(start, h)
    requires UnprovenSet(h) != {} && IsPlan(b, h, plan)
    ensures plan.Act? && IsActionable(h, plan.edge)
  {
    var k :| IsActionable(h, k);
    var name :| IsCandidate(b, h, k, name);
  }

  lemma RoomIsLeft(l: S.Ledger, n: nat)
    requires HasRoom(l, n)
    ensures !S.IsExhausted(l.(turn := l.turn + 1), false)
  {
  }

  /** What an accepted turn does: the edge is promoted, the budgets shrink by one attempt, and the hunt goes on. */
  lemma AcceptedStep(set_: Setting, s: State, m: Move, n: nat)
    requires s.decision.None? && IsAccepting(s, m.turn) && HasRoom(s.ledger, n + 1)
    requires m.plan.Act? && IsActionable(s.graph, m.plan.edge) && s.graph.edges[m.plan.edge].target in s.graph.nodes
    ensures var r := Step(set_, s, m);
      && r.graph == Promote(s.graph, PromotionOf(StartTurn(s), m.plan.edge, m.turn))
      && r.decision.None? && r.incomplete == s.incomplete && (s.identityResolved ==> r.identityResolved)
      && HasRoom(r.ledger, n)
  {
    RoomIsLeft(s.ledger, n + 1);
    assert IsVerifiedBy(StartTurn(s), m.turn);
  }

  lemma PromotedGoesOn(start: Graph, h: Graph, p: Promotion)
    requires IsGoing(start, h) && IsActionable(h, p.edge)
    ensures IsGoing(start, Promote(h, p)) && |UnprovenSet(Promote(h, p))| == |UnprovenSet(h)| - 1
  {
    PromoteProgresses(start, h, p);
    PromoteUsesUp(h, p);
    assert |UnprovenSet(h) - {p.edge}| == |UnprovenSet(h)| - 1;
  }

  lemma StaysOnTrack(set_: Setting, start: Graph, s: State, r: State, p: Promotion)
    requires IsOnTrack(set_, start, s) && IsActionable(s.graph, p.edge) && r.graph == Promote(s.graph, p)
    requires r.decision.None? && r.incomplete == s.incomplete && (s.identityResolved ==> r.identityResolved)
    requires UnprovenSet(s.graph) != {} && HasRoom(r.ledger, |UnprovenSet(s.graph)| - 1)
    ensures IsOnTrack(set_, start, r) && |UnprovenSet(r.graph)| == |UnprovenSet(s.graph)| - 1
  {
    PromotedGoesOn(start, s.graph, p);
  }

  /** An accepted turn verifies one more edge and stays on track. */
  lemma AcceptedTurn(set_: Setting, start: Graph, s: State, m: Move)
    requires IsOnTrack(set_, start, s) && IsAccepting(s, m.turn)
    requires m.plan.Act? && IsActionable(s.graph, m.plan.edge) && s.graph.edges[m.plan.edge].target in s.graph.nodes
    ensures IsOnTrack(set_, start, Step(set_, s, m))
    ensures |UnprovenSet(Step(set_, s, m).graph)| == |UnprovenSet(s.graph)| - 1
  {
    assert m.plan.edge in UnprovenSet(s.graph);
    AcceptedStep(set_, s, m, |UnprovenSet(s.graph)| - 1);
    StaysOnTrack(set_, start, s, Step(set_, s, m), PromotionOf(StartTurn(s), m.plan.edge, m.turn));
  }

  lemma PlanIsMade(set_: Setting, s: State, m: Move, n: nat)
    requires IsMove(set_, s, m) && IsAccepting(s, m.turn) && HasRoom(s.ledger, n)
    ensures IsPlan(set_.binder, s.graph, m.plan)
  {
    RoomIsLeft(s.ledger, n);
    assert MayPlan(s, m.turn);
  }

  /** While something is unproven, an accepted turn tests an edge that is actionable. */
  lemma TurnActs(set_: Setting, start: Graph, s: State, m: Move)
    requires IsOnTrack(set_, start, s) && IsMove(set_, s, m) && IsAccepting(s, m.turn) && UnprovenSet(s.graph) != {}
    requires BindsEverything(set_.binder, start) && NeverStuck(start)
    ensures m.plan.Act? && IsActionable(s.graph, m.plan.edge) && s.graph.edges[m.plan.edge].target in s.graph.nodes
  {
    PlanIsMade(set_, s, m, |UnprovenSet(s.graph)|);
    PlanActs(set_.binder, start, s.graph, m.plan);
  }

  /** With no edge unproven and none refuted, every edge is VERIFIED. */
  lemma NothingUnprovenIsVerified(g: Graph)
    requires NothingElse(g) && UnprovenSet(g) == {}
    ensures forall k :: k in g.edges ==> IsVerified(g, k)
  {
    forall k | k in g.edges ensures IsVerified(g, k) {
      assert k !in UnprovenSet(g);
    }
  }

  /** The claims decide, once the mandatory ones are all resolved. */
  lemma AgreedClaimsResolve(set_: Setting, s: State)
    requires ClaimsAgree(s.claims, s.graph) && S.MandatoryResolved(s.claims)
    requires forall h :: h in s.hypotheses ==> h.status == S.Live
    ensures Stop(set_, s, false).decision == Some(S.StopResolved)
  {
    forall c | c in s.claims && !c.optional ensures c.status == Claims.Supported {
      assert Claims.IsResolved(c);
    }
    SupportedDecides(s.claims);
  }

  /** What the stopping evaluation decides once nothing is unproven. */
  lemma FinishedResolves(set_: Setting, start: Graph, s: State)
    requires IsOnTrack(set_, start, s) && IsHonest(s) && UnprovenSet(s.graph) == {}
    ensures Stop(set_, StartTurn(s), false).decision == Some(S.StopResolved)
  {
    RoomIsLeft(s.ledger, 0);
    NothingUnprovenIsVerified(s.graph);
    if S.MandatoryResolved(s.claims) {
      AgreedClaimsResolve(set_, StartTurn(s));
    } else {
      VerifiedGraphResolves(set_, StartTurn(s));
    }
  }

  lemma SupportedDecides(claims: seq<Claims.Claim>)
    requires S.HasMandatory(claims) && forall c :: c in claims && !c.optional ==> c.status == Claims.Supported
    ensures S.ClaimDecision(claims) == S.StopResolved
  {
    var c :| c in claims && !c.optional;
  }

  /** Nothing is settled by the claims, and every relation is VERIFIED: the graph decides. */
  lemma VerifiedGraphResolves(set_: Setting, s: State)
    requires IsUnblocked(set_, s) && !S.IsExhausted(s.ledger, false)
    requires forall h :: h in s.hypotheses ==> h.status == S.Live
    requires !S.MandatoryResolved(s.claims)
    requires s.graph.edges != map[] && forall k :: k in s.graph.edges ==> IsVerified(s.graph, k)
    ensures Stop(set_, s, false).decision == Some(S.StopResolved)
  {
    var sit := Situation(set_, s, false);
    forall h | h in S.WeakenAll(sit.hypotheses) ensures h.status == S.Live {}
    assert S.NothingUnproven(sit.graph) && S.HasEdges(sit.graph) && !S.SomethingRefuted(sit.graph);
  }

  lemma NothingToPlan(b: Binder, g: Graph, plan: Plan)
    requires UnprovenSet(g) == {} && IsPlan(b, g, plan)
    ensures plan == Halt
  {
    forall k ensures !IsActionable(g, k) {
      assert k !in UnprovenSet(g);
    }
  }

  lemma HaltStops(set_: Setting, s: State, m: Move)
    requires s.decision.None? && IsMove(set_, s, m) && IsAccepting(s, m.turn) && HasRoom(s.ledger, 0)
    requires MayPlan(s, m.turn) ==> m.plan == Halt
    ensures Step(set_, s, m) == Stop(set_, StartTurn(s), false)
  {
    RoomIsLeft(s.ledger, 0);
  }

  /** The turn after the last edge stops the hunt, resolved. */
  lemma LastTurn(set_: Setting, start: Graph, s: State, m: Move)
    requires IsOnTrack(set_, start, s) && IsHonest(s) && IsMove(set_, s, m) && IsAccepting(s, m.turn)
    requires UnprovenSet(s.graph) == {}
    ensures Step(set_, s, m).decision == Some(S.StopResolved) && Step(set_, s, m).graph == s.graph
  {
    if MayPlan(s, m.turn) {
      NothingToPlan(set_.binder, s.graph, m.plan);
    }
    FinishedResolves(set_, start, s);
    HaltStops(set_, s, m);
  }

  // ------------------------------------------------------------ whole runs

  /** A run whose attempts are all accepted ends resolved, after one turn per unproven edge and one more. */
  lemma {:induction false} AcceptedRun(set_: Setting, claims: seq<Claims.Claim>, start: Graph, s: State, moves: seq<Move>)
    requires IsOnTrack(set_, start, s) && ValidIds(claims) && RunInvariant(claims, start, s)
    requires BindsEverything(set_.binder, start) && NeverStuck(start)
    requires LegalMoves(set_, s, moves) && AllAccepted(set_, s, moves)
    ensures EndOf(set_, s, moves).decision.Some? <==> |moves| == |UnprovenSet(s.graph)| + 1
    ensures EndOf(set_, s, moves).decision in {None, Some(S.StopResolved)}
    ensures EndOf(set_, s, moves).decision.Some? ==> NothingElse(EndOf(set_, s, moves).graph) && UnprovenSet(EndOf(set_, s, moves).graph) == {}
    decreases |moves|
  {
    if moves != [] {
      var r := Step(set_, s, moves[0]);
      if UnprovenSet(s.graph) != {} {
        TurnActs(set_, start, s, moves[0]);
        AcceptedTurn(set_, start, s, moves[0]);
        StepHolds(set_, claims, start, s, moves[0]);
        AcceptedRun(set_, claims, start, r, moves[1..]);
      } else {
        InvariantIsHonest(claims, start, s);
        LastTurn(set_, start, s, moves[0]);
        assert moves[1..] == [];
      }
    }
  }

  /** An observation that has not been made before. */
  lemma {:induction false} NewId(ids: set<string>) returns (id: string)
    ensures forall x :: x in ids ==> |x| < |id|
  {
    if ids == {} {
      id := "";
    } else {
      var x :| x in ids;
      var longer := NewId(ids - {x});
      id := longer + x + "+";
      forall y | y in ids ensures |y| < |id| {
        assert y == x || y in ids - {x};
      }
    }
  }

  /** There is always a turn that the verifier accepts. */
  lemma AcceptingTurn(s: State) returns (t: Turn)
    ensures IsAccepting(s, t)
  {
    var id := NewId(s.observed);
    t := Turn(false, false, false, QueryResult(true, {id}), Accepted({id}, ""));
    assert id in Cited(s, t);
  }

  /** So is a plan to go with it. */
  lemma AcceptingMove(set_: Setting, s: State) returns (m: Move)
    requires s.decision.None?
    ensures IsMove(set_, s, m) && IsAccepting(s, m.turn)
  {
    var plan := PlanExists(set_.binder, s.graph);
    var t := AcceptingTurn(s);
    m := Move(plan, t);
  }

  /** Such a run exists. */
  lemma {:induction false} AcceptedRunExists(set_: Setting, claims: seq<Claims.Claim>, start: Graph, s: State) returns (moves: seq<Move>)
    requires IsOnTrack(set_, start, s) && ValidIds(claims) && RunInvariant(claims, start, s)
    requires BindsEverything(set_.binder, start) && NeverStuck(start)
    ensures LegalMoves(set_, s, moves) && AllAccepted(set_, s, moves)
    ensures EndOf(set_, s, moves).decision == Some(S.StopResolved)
    decreases |UnprovenSet(s.graph)|
  {
    var m := AcceptingMove(set_, s);
    var r := Step(set_, s, m);
    if UnprovenSet(s.graph) != {} {
      TurnActs(set_, start, s, m);
      AcceptedTurn(set_, start, s, m);
      StepHolds(set_, claims, start, s, m);
      var rest := AcceptedRunExists(set_, claims, start, r);
      moves := [m] + rest;
      assert moves[1..] == rest;
    } else {
      InvariantIsHonest(claims, start, s);
      LastTurn(set_, start, s, m);
      moves := [m];
      assert moves[1..] == [];
    }
  }

  /** What a fresh case needs besides operations: an edge, room in the budgets, and nothing else in the way. */
  ghost predicate IsReady(set_: Setting, claims: seq<Claims.Claim>, s: State) {
    && IsFreshStart(claims, s) && claims != [] && IsUnblocked(set_, s) && HasRoom(s.ledger, |s.graph.edges|)
    && BindsEverything(set_.binder, s.graph) && NeverStuck(s.graph)
  }

  lemma ReadyIsOnTrack(set_: Setting, claims: seq<Claims.Claim>, s: State)
    requires IsReady(set_, claims, s)
    ensures IsOnTrack(set_, s.graph, s) && RunInvariant(claims, s.graph, s)
    ensures |UnprovenSet(s.graph)| == |s.graph.edges|
  {
    var ds := Drafts(claims);
    DraftsAreWellNamed(claims);
    FreshStartHolds(claims, s);
    CompiledStart(ds, s.graph);
    assert |s.graph.edges.Keys| == |s.graph.edges|;
    EdgeNamed(ds, |ds|, 0);
  }

  /**
   * Completeness. From a ready case, whatever is observed: if every attempt is accepted the hunt ends exactly
   * after one turn per edge and one more, STOP_RESOLVED; and some run is like that.
   */
  lemma AcceptedHuntResolves(set_: Setting, claims: seq<Claims.Claim>, s: State, moves: seq<Move>)
    requires IsReady(set_, claims, s) && LegalMoves(set_, s, moves) && AllAccepted(set_, s, moves)
    ensures EndOf(set_, s, moves).decision.Some? <==> |moves| == |s.graph.edges| + 1
    ensures EndOf(set_, s, moves).decision in {None, Some(S.StopResolved)}
  {
    ReadyIsOnTrack(set_, claims, s);
    AcceptedRun(set_, claims, s.graph, s, moves);
  }

  /** The hunt has resolved with claim i SUPPORTED. */
  ghost predicate EndsSupported(set_: Setting, claims: seq<Claims.Claim>, s: State, moves: seq<Move>, i: nat)
    requires LegalMoves(set_, s, moves)
  {
    var end := EndOf(set_, s, moves);
    end.decision == Some(S.StopResolved) && i < |end.claims| == |claims| && end.claims[i].status == Claims.Supported
  }

  /** After an accepted run of full length every claim that an edge reports back to is SUPPORTED, optional ones too. */
  lemma OwnedClaimSupported(set_: Setting, claims: seq<Claims.Claim>, s: State, moves: seq<Move>, i: nat)
    requires IsReady(set_, claims, s) && LegalMoves(set_, s, moves) && AllAccepted(set_, s, moves)
    requires |moves| == |s.graph.edges| + 1 && i < |claims| && IsOwned(Drafts(claims), i)
    ensures EndsSupported(set_, claims, s, moves, i)
  {
    ReadyIsOnTrack(set_, claims, s);
    AcceptedRun(set_, claims, s.graph, s, moves);
    RunHolds(set_, claims, s.graph, s, moves);
    VerifiedIsSupported(claims, s.graph, EndOf(set_, s, moves), i);
  }

  lemma VerifiedIsSupported(claims: seq<Claims.Claim>, start: Graph, end: State, i: nat)
    requires Compiled(Drafts(claims), start) && RunInvariant(claims, start, end)
    requires UnprovenSet(end.graph) == {} && i < |claims| && IsOwned(Drafts(claims), i)
    ensures |end.claims| == |claims| && end.claims[i].status == Claims.Supported
  {
    NothingUnprovenIsVerified(end.graph);
    DraftsAreWellNamed(claims);
    ProvedIsOwned(Drafts(claims), start, end.graph, i);
    assert end.claims[i].id == claims[i].id;
  }

  lemma DistinctIsReady(set_: Setting, claims: seq<Claims.Claim>, s: State, i: nat)
    requires IsFreshStart(claims, s) && DistinctKeys(Drafts(claims)) && i < |claims| && Trimmed(claims[i].id)
    requires IsUnblocked(set_, s) && HasRoom(s.ledger, |claims|) && BindsEverything(set_.binder, s.graph)
    ensures IsReady(set_, claims, s) && |s.graph.edges| == |claims| && IsOwned(Drafts(claims), i)
  {
    DraftsAreWellNamed(claims);
    OneEdgePerClaim(Drafts(claims), s.graph);
    DeadlockFreedom(Drafts(claims), s.graph);
    TrimmedDistinctIdsOwn(claims, i);
  }

  /** With distinct keys and trimmed ids: after |claims| + 1 accepted turns every claim is SUPPORTED, optional ones too. */
  lemma EveryClaimSupported(set_: Setting, claims: seq<Claims.Claim>, s: State, moves: seq<Move>, i: nat)
    requires IsFreshStart(claims, s) && DistinctKeys(Drafts(claims)) && i < |claims| && Trimmed(claims[i].id)
    requires IsUnblocked(set_, s) && HasRoom(s.ledger, |claims|) && BindsEverything(set_.binder, s.graph)
    requires LegalMoves(set_, s, moves) && AllAccepted(set_, s, moves) && |moves| == |claims| + 1
    ensures EndsSupported(set_, claims, s, moves, i)
  {
    DistinctIsReady(set_, claims, s, i);
    OwnedClaimSupported(set_, claims, s, moves, i);
  }

  // ------------------------------------------------------------ when everything can be tested

  /** A mapping that names an operation for every edge is enough, whatever operations are published. */
  lemma FallbackBinds(b: Binder, start: Graph)
    requires forall e, source, target :: b.fallback(e, source, target) !in {None, Some("")}
    ensures BindsEverything(b, start)
  {
    forall h, k | SameSkeleton(start, h) && IsActionable(h, k) && h.edges[k].target in h.nodes
      ensures exists name :: IsCandidate(b, h, k, name)
    {
      var e := h.edges[k];
      var source, target := h.nodes[e.source].kind, h.nodes[e.target].kind;
      var selected := SelectionExists(b, e, source);
      assert b.fallback(e, source, target) !in {None, Some("")};
      assert IsCandidate(b, h, k, OperationName(b, e, source, target, selected).value);
    }
  }
}
