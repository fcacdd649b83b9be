/** The claim-graph loop over mutable state, proved to perform exactly the legal turns. */
module ClaimHunting {
  import opened Text
  import opened CaseGraphs
  import opened Planning
  import opened ClaimCompleteness
  import opened ClaimLoop
  import B = CaseBuilder
  import CaseRuns
  import CaseTheory
  import ClaimRecords
  import ClaimSoundness
  import ClaimValues
  import Claims
  import S = Stopping

  lemma TailAppends<T>(s: seq<T>, x: T)
    requires s != []
    ensures (s + [x])[0] == s[0] && (s + [x])[1..] == s[1..] + [x]
  {
  }

  lemma {:induction false} AppendMove(set_: Setting, s: State, moves: seq<Move>, m: Move)
    requires LegalMoves(set_, s, moves) && IsMove(set_, EndOf(set_, s, moves), m)
    ensures LegalMoves(set_, s, moves + [m])
    ensures EndOf(set_, s, moves + [m]) == Step(set_, EndOf(set_, s, moves), m)
    decreases |moves|
  {
    if moves == [] {
      assert [m][1..] == [];
      assert moves + [m] == [m];
      assert LegalMoves(set_, Step(set_, s, m), []);
    } else {
      AppendMove(set_, Step(set_, s, moves[0]), moves[1..], m);
      TailAppends(moves, m);
    }
  }

  /** The turns' inputs are the world's from turn `base` on, one after the other. */
  ghost predicate FollowsWorld(moves: seq<Move>, world: nat -> Turn, base: nat) {
    forall k :: 0 <= k < |moves| ==> moves[k].turn == world(base + k)
  }

  lemma FollowsOneMore(moves: seq<Move>, world: nat -> Turn, m: Move)
    requires FollowsWorld(moves, world, 0) && m.turn == world(|moves|)
    ensures FollowsWorld(moves + [m], world, 0)
  {
  }

  lemma FollowsRest(moves: seq<Move>, world: nat -> Turn, base: nat)
    requires FollowsWorld(moves, world, base) && moves != []
    ensures moves[0].turn == world(base) && FollowsWorld(moves[1..], world, base + 1)
  {
    forall k | 0 <= k < |moves| - 1 ensures moves[1..][k].turn == world(base + 1 + k) {
      assert moves[1..][k] == moves[k + 1];
    }
  }

  class ClaimHunt {
    const setting: Setting
    const graph: InvestigationGraph
    const ledger: S.HuntBudgetLedger
    var claims: seq<Claim>
    var hypotheses: seq<S.Hypothesis>
    var turn: int
    var queryCount: int
    var observed: set<string>
    var incomplete: bool
    var identityResolved: bool
    var decision: Option<S.Decision>

    constructor (setting: Setting, graph: InvestigationGraph, ledger: S.HuntBudgetLedger,
                 claims: seq<Claim>, hypotheses: seq<S.Hypothesis>, observed: set<string>)
      ensures this.setting == setting && this.graph == graph && this.ledger == ledger
      ensures View() == State(claims, hypotheses, graph.View(), ledger.counters, 0, 0, observed, false, false, None)
    {
      this.setting, this.graph, this.ledger := setting, graph, ledger;
      this.claims, this.hypotheses, this.observed := claims, hypotheses, observed;
      turn, queryCount, incomplete, identityResolved, decision := 0, 0, false, false, None;
    }

    function View(): State
      reads this, graph, ledger
    {
      State(claims, hypotheses, graph.View(), ledger.counters, turn, queryCount, observed, incomplete, identityResolved, decision)
    }

    method MarkClaim(id: string, status: Claims.ClaimStatus)
      modifies this`claims
      ensures claims == if id == "" then old(claims) else SetStatus(old(claims), id, status)
    {
      if id != "" {
        claims := SetStatus(claims, id, status);
      }
    }

    method EvaluateStopping(outside: bool)
      modifies this`decision, this`hypotheses
      ensures View() == Stop(setting, old(View()), outside)
    {
      var d;
      d, hypotheses := S.EvaluateStopping(S.Situation(
        hypotheses, Some(claims), S.IsExhausted(ledger.counters, outside),
        setting.identityRequired && !identityResolved && !setting.discoveryDone,
        incomplete, setting.expectations, setting.cells, Some(graph.View())));
      decision := Some(d);
    }

    /** Replaces the citations of edge k and, if some are convincing, verifies it on them. */
    method JudgeEdge(k: string, news: set<string>, cited: set<string>, value: Option<string>)
      requires k in graph.edges && graph.edges[k].target in graph.nodes
      modifies graph
      ensures cited == {} ==>
        graph.View() == old(graph.View()).(edges := old(graph.edges)[k := old(graph.edges)[k].(citations := news)])
      ensures cited != {} ==> graph.View() == Promote(old(graph.View()), Promotion(k, Some(news), cited, value))
    {
      var edge := graph.edges[k];
      graph.CiteAttempt(k, news);
      if cited != {} {
        var proof := Proof(edge.id, edge.source, NodeValue(graph.View(), edge.source), edge.target,
                           if value.Some? then value.value else NodeValue(graph.View(), edge.target), cited);
        graph.ApplyVerification(k, proof, value);
        assert graph.edges == old(graph.edges)[k := edge.(status := Verified, citations := news + cited)];
      }
    }

    /** Records the query and its result; returns the observations that are new. */
    method Ask(t: Turn) returns (news: set<string>)
      modifies this, ledger
      ensures View() == Asked(old(View()), t) && news == Fresh(old(View()), t)
    {
      ledger.RecordQuery();
      queryCount := queryCount + 1;
      incomplete := incomplete || !t.result.complete;
      news := t.result.rows - observed;
      observed := observed + t.result.rows;
    }

    /** Writes the verdict on an edge into the hunt. */
    method Settle(edge: Edge, kind: string, accepted: bool, complete: bool)
      modifies this
      ensures View() == old(View()).(
        claims := claims,
        identityResolved := old(identityResolved) || (accepted && ResolvesIdentity(kind)),
        decision := if accepted then old(decision) else Some(FailureDecision(kind, edge.id)))
      ensures var status :=
          if accepted then Claims.Supported else if complete then Claims.ClaimStatus.Unknown else Claims.Inconclusive;
        claims == if Strip(edge.claimId) == "" then old(claims) else SetStatus(old(claims), Strip(edge.claimId), status)
    {
      var id := Strip(edge.claimId);
      if accepted {
        MarkClaim(id, Claims.Supported);
        if ResolvesIdentity(kind) {
          identityResolved := true;
        }
      } else {
        MarkClaim(id, if complete then Claims.ClaimStatus.Unknown else Claims.Inconclusive);
        decision := Some(FailureDecision(kind, edge.id));
      }
    }

    /** Queries the provider for edge k and lets the verifier judge the new observations. */
    method TestEdge(k: string, t: Turn)
      requires k in graph.edges && graph.edges[k].target in graph.nodes
      modifies this, graph, ledger
      ensures View() == Execute(old(View()), k, t)
    {
      ghost var before := View();
      var edge := graph.edges[k];
      var kind := graph.nodes[edge.target].kind;
      var news := Ask(t);
      var cited := if t.verdict.Accepted? then t.verdict.matched * news else {};
      JudgeEdge(k, news, cited, if t.verdict.Accepted? && t.verdict.value != "" then Some(t.verdict.value) else None);
      assert graph.View() == NextGraph(before, k, t) && (cited != {} <==> IsVerifiedBy(before, t));
      Settle(edge, kind, cited != {}, t.result.complete);
    }

    /** One turn of the loop. */
    method TakeTurn(t: Turn) returns (ghost m: Move)
      requires decision.None? && KeyedById(graph.View())
      modifies this, graph, ledger
      ensures IsMove(setting, old(View()), m) && m.turn == t && View() == Step(setting, old(View()), m)
    {
      ghost var before := View();
      ledger.RecordTurn();
      turn := turn + 1;
      assert View() == StartTurn(before);
      m := Move(Halt, t);
      if S.IsExhausted(ledger.counters, t.outside) {
        decision := Some(S.StopExhausted);
        return;
      }
      var plan := Halt;
      if !S.IsExhausted(ledger.counters, t.outsideAtPlan) {
        plan := SelectAction(setting.binder, graph);
      }
      m := Move(plan, t);
      match plan
      case Halt => EvaluateStopping(t.outsideAtStop);
      case Act(k, _) => TestEdge(k, t);
    }

    /** Runs to a decision. The world supplies one turn's inputs at a time. */
    method Run(world: nat -> Turn) returns (ghost moves: seq<Move>)
      requires decision.None? && KeyedById(graph.View())
      modifies this, graph, ledger
      ensures LegalMoves(setting, old(View()), moves) && View() == EndOf(setting, old(View()), moves)
      ensures FollowsWorld(moves, world, 0)
      ensures decision.Some?
    {
      moves := [];
      var i: nat := 0;
      while decision.None?
        invariant LegalMoves(setting, old(View()), moves) && View() == EndOf(setting, old(View()), moves)
        invariant KeyedById(graph.View())
        invariant |moves| == i && FollowsWorld(moves, world, 0)
        decreases if decision.None? then 1 + |CaseRuns.UnprovenSet(graph.View())| else 0
      {
        ghost var before := View();
        ghost var m := TakeTurn(world(i));
        ClaimSoundness.StepProgresses(setting, before, m);
        AppendMove(setting, old(View()), moves, m);
        FollowsOneMore(moves, world, m);
        moves := moves + [m];
        i := i + 1;
      }
    }
  }

  /** The mandatory claims of a hunt are SUPPORTED exactly where the builder gave them an edge that reports back. */
  ghost predicate IsSettled(claims: seq<Claim>, end: seq<Claim>) {
    && |end| == |claims|
    && forall i :: 0 <= i < |claims| && !claims[i].optional ==>
      end[i].status == if ClaimSoundness.IsOwned(B.Drafts(claims), i) then Claims.Supported else Claims.Unproven
  }

  lemma ResolvedIsSettled(set_: Setting, claims: seq<Claim>, s: State, moves: seq<Move>)
    requires ClaimSoundness.IsFreshStart(claims, s) && LegalMoves(set_, s, moves)
    ensures EndOf(set_, s, moves).decision == Some(S.StopResolved) ==> IsSettled(claims, EndOf(set_, s, moves).claims)
  {
    if EndOf(set_, s, moves).decision == Some(S.StopResolved) {
      var end := EndOf(set_, s, moves);
      ClaimSoundness.FreshStartHolds(claims, s);
      ClaimSoundness.RunHolds(set_, claims, s.graph, s, moves);
      assert |end.claims| == |claims|;
      forall i | 0 <= i < |claims| && !claims[i].optional
        ensures end.claims[i].status == if ClaimSoundness.IsOwned(B.Drafts(claims), i) then Claims.Supported else Claims.Unproven
      {
        ClaimSoundness.ResolvedStatusIs(set_, claims, s, moves, i);
      }
    }
  }

  // ------------------------------------------------------------ a world that accepts everything

  /** At every turn the clock waits and the verifier accepts an observation that was never made before. */
  ghost predicate IsAcceptingWorld(world: nat -> Turn, observed: set<string>) {
    forall k: nat :: AcceptsAt(world, observed, k)
  }

  ghost predicate AcceptsAt(world: nat -> Turn, observed: set<string>, k: nat) {
    var t := world(k);
    && !t.outside && !t.outsideAtPlan && !t.outsideAtStop && t.result.complete && t.verdict.Accepted?
    && exists x :: x in t.verdict.matched && x in t.result.rows && IsNewAt(world, observed, k, x)
  }

  ghost predicate IsNewAt(world: nat -> Turn, observed: set<string>, k: nat, x: string) {
    x !in observed && forall j: nat :: j < k ==> x !in world(j).result.rows
  }

  /** What has been observed before turn k. */
  ghost predicate IsObservedBy(world: nat -> Turn, observed: set<string>, k: nat, seen: set<string>) {
    forall x :: x in seen ==> !IsNewAt(world, observed, k, x)
  }

  lemma StepObserves(set_: Setting, s: State, m: Move)
    requires IsMove(set_, s, m)
    ensures Step(set_, s, m).observed <= s.observed + m.turn.result.rows
  {
  }

  lemma {:induction false} WorldAccepts(set_: Setting, s: State, moves: seq<Move>, world: nat -> Turn, observed: set<string>, base: nat)
    requires LegalMoves(set_, s, moves) && IsAcceptingWorld(world, observed) && IsObservedBy(world, observed, base, s.observed)
    requires FollowsWorld(moves, world, base)
    ensures AllAccepted(set_, s, moves)
    decreases |moves|
  {
    if moves != [] {
      var t := moves[0].turn;
      FollowsRest(moves, world, base);
      assert t == world(base) && AcceptsAt(world, observed, base);
      var x :| x in t.verdict.matched && x in t.result.rows && IsNewAt(world, observed, base, x);
      assert x in Cited(s, t);
      var r := Step(set_, s, moves[0]);
      StepObserves(set_, s, moves[0]);
      forall y | y in r.observed ensures !IsNewAt(world, observed, base + 1, y) {
        if y in s.observed {
          assert !IsNewAt(world, observed, base, y);
        } else {
          assert y in world(base).result.rows;
        }
      }
      WorldAccepts(set_, r, moves[1..], world, observed, base + 1);
    }
  }

  // ------------------------------------------------------------ from a plan to a decision

  /** A claim is SUPPORTED exactly when it is proved, and what is proved rests on evidence of its own. */
  ghost predicate IsSupportedBy(claims: seq<Claim>, start: Graph, end: State) {
    && |end.claims| == |claims| && EvidenceIsFresh(end.graph, end.observed)
    && forall i :: 0 <= i < |claims| ==>
         (end.claims[i].status == Claims.Supported <==> ClaimSoundness.IsClaimProved(claims, start, end.graph, i))
  }

  lemma RunIsSupported(set_: Setting, claims: seq<Claim>, s: State, moves: seq<Move>)
    requires ClaimSoundness.IsFreshStart(claims, s) && LegalMoves(set_, s, moves)
    ensures IsSupportedBy(claims, s.graph, EndOf(set_, s, moves))
  {
    var end := EndOf(set_, s, moves);
    ClaimSoundness.FreshStartHolds(claims, s);
    ClaimSoundness.RunHolds(set_, claims, s.graph, s, moves);
    forall i | 0 <= i < |claims|
      ensures end.claims[i].status == Claims.Supported <==> ClaimSoundness.IsClaimProved(claims, s.graph, end.graph, i)
    {
      ClaimSoundness.SupportedMeansProved(set_, claims, s, moves, i);
    }
  }

  /** The case shows what the accepting attempt on each SUPPORTED claim's edge found. */
  ghost predicate IsReportedBy(set_: Setting, claims: seq<Claim>, s: State, moves: seq<Move>)
    requires LegalMoves(set_, s, moves)
  {
    var end := EndOf(set_, s, moves);
    |end.claims| == |claims|
    && forall i :: 0 <= i < |claims| && end.claims[i].status == Claims.Supported ==>
         ClaimValues.IsReported(set_, s, moves, "edge-" + SafeId(claims[i].id))
  }

  lemma RunIsReported(set_: Setting, claims: seq<Claim>, s: State, moves: seq<Move>)
    requires ClaimSoundness.IsFreshStart(claims, s) && LegalMoves(set_, s, moves)
    ensures IsReportedBy(set_, claims, s, moves)
  {
    ClaimSoundness.FreshStartHolds(claims, s);
    ClaimSoundness.RunHolds(set_, claims, s.graph, s, moves);
    forall i | 0 <= i < |claims| && EndOf(set_, s, moves).claims[i].status == Claims.Supported
      ensures ClaimValues.IsReported(set_, s, moves, "edge-" + SafeId(claims[i].id))
    {
      ClaimValues.SupportedIsReported(set_, claims, s, moves, i);
    }
  }

  lemma HuntIsBounded(set_: Setting, claims: seq<Claim>, s: State, moves: seq<Move>)
    requires ClaimSoundness.IsFreshStart(claims, s) && LegalMoves(set_, s, moves)
    ensures EndOf(set_, s, moves).turn == s.turn + |moves| <= s.turn + |s.graph.edges| + 1
    ensures s.ledger.queries <= s.ledger.maxQueries ==> EndOf(set_, s, moves).ledger.queries <= s.ledger.maxQueries
  {
    ClaimSoundness.RunIsBounded(set_, s, moves);
    B.DraftsAreWellNamed(claims);
    CaseTheory.CompiledStart(B.Drafts(claims), s.graph);
    assert |s.graph.edges.Keys| == |s.graph.edges|;
  }

  lemma AcceptedHunt(set_: Setting, claims: seq<Claim>, s: State, moves: seq<Move>, world: nat -> Turn)
    requires IsReady(set_, claims, s) && LegalMoves(set_, s, moves) && EndOf(set_, s, moves).decision.Some?
    requires IsAcceptingWorld(world, s.observed) && FollowsWorld(moves, world, 0)
    ensures EndOf(set_, s, moves).decision == Some(S.StopResolved) && |moves| == |s.graph.edges| + 1
  {
    WorldAccepts(set_, s, moves, world, s.observed, 0);
    AcceptedHuntResolves(set_, claims, s, moves);
  }

  lemma CompiledIsKeyed(claims: seq<Claim>, g: Graph)
    requires B.Compiled(B.Drafts(claims), g)
    ensures KeyedById(g) && (g.edges == map[] <==> claims == [])
  {
    var ds := B.Drafts(claims);
    B.DraftsAreWellNamed(claims);
    forall k | k in g.edges ensures g.edges[k].id == k {
      ClaimSoundness.CompiledIsUnproven(ds, g, k);
    }
    if claims != [] {
      CaseTheory.EdgeNamed(ds, |ds|, 0);
    }
  }

  /**
   * From a validated plan to a decision: compile the case and run the loop on it, unless it has no relation to
   * test. Whatever the world answers, what is SUPPORTED is proved and shows what was found, every turn ends as its
   * attempt does, a resolved hunt is settled, and the turns are bounded; a world that accepts everything leads to
   * STOP_RESOLVED.
   */
  method HuntPlan(setting: Setting, claims: seq<Claim>, hypotheses: seq<S.Hypothesis>, counters: S.Ledger,
                  observed: set<string>, world: nat -> Turn)
    returns (hunt: ClaimHunt, ghost start: State, ghost moves: seq<Move>)
    requires ValidIds(claims) && forall c :: c in claims ==> c.status == Claims.Unproven
    requires forall h :: h in hypotheses ==> h.status == S.Live
    ensures ClaimSoundness.IsFreshStart(claims, start)
    ensures start == State(claims, hypotheses, start.graph, counters, 0, 0, observed, false, false, None)
    ensures LegalMoves(setting, start, moves) && FollowsWorld(moves, world, 0) && hunt.View() == EndOf(setting, start, moves)
    ensures hunt.decision.Some? <==> claims != []
    ensures IsSupportedBy(claims, start.graph, hunt.View()) && IsReportedBy(setting, claims, start, moves)
    ensures forall n :: 0 <= n < |moves| ==>
      ClaimRecords.EndsAs(setting, ClaimRecords.Before(setting, start, moves, n), moves[n], ClaimRecords.Before(setting, start, moves, n + 1))
    ensures hunt.decision == Some(S.StopResolved) ==> IsSettled(claims, hunt.claims)
    ensures hunt.turn <= |start.graph.edges| + 1
    ensures counters.queries <= counters.maxQueries ==> hunt.ledger.counters.queries <= counters.maxQueries
    ensures IsReady(setting, claims, start) && IsAcceptingWorld(world, observed) ==>
      hunt.decision == Some(S.StopResolved) && hunt.turn == |start.graph.edges| + 1
  {
    var graph, _, _ := B.BuildCase(claims);
    var ledger := new S.HuntBudgetLedger(counters);
    hunt := new ClaimHunt(setting, graph, ledger, claims, hypotheses, observed);
    start := hunt.View();
    CompiledIsKeyed(claims, graph.View());
    moves := [];
    if graph.edges != map[] {
      moves := hunt.Run(world);
    }
    ResolvedIsSettled(setting, claims, start, moves);
    RunIsSupported(setting, claims, start, moves);
    RunIsReported(setting, claims, start, moves);
    forall n | 0 <= n < |moves|
      ensures ClaimRecords.EndsAs(
        setting, ClaimRecords.Before(setting, start, moves, n), moves[n], ClaimRecords.Before(setting, start, moves, n + 1))
    {
      ClaimRecords.RunEnds(setting, claims, start, moves, n);
    }
    HuntIsBounded(setting, claims, start, moves);
    if IsReady(setting, claims, start) && IsAcceptingWorld(world, observed) {
      AcceptedHunt(setting, claims, start, moves, world);
    }
  }
}
