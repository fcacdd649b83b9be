/** What a run of the claim-graph loop records, and how it ends, in terms of the attempts it made. */
module ClaimRecords {
  import opened Text
  import opened CaseGraphs
  import opened Planning
  import opened ClaimLoop
  import Claims
  import S = Stopping

  // ------------------------------------------------------------ attempts

  /** Some budget is used up once one more turn has begun. */
  predicate IsSpent(l: S.Ledger) {
    l.turn + 1 >= l.maxTurns || l.queries >= l.maxQueries || (!l.tracked && l.llmCalls >= l.maxLlmCalls) || l.scanCells >= l.maxScanCells
  }

  /** The turn tests an edge: the budgets last and the planner found one. */
  predicate IsAttempt(s: State, m: Move) {
    !IsSpent(s.ledger) && !m.turn.outside && !m.turn.outsideAtPlan && m.plan.Act?
  }

  /** The verifier accepts an observation that the attempt brought in. */
  ghost predicate Succeeds(s: State, t: Turn) {
    t.verdict.Accepted? && exists x :: x in t.verdict.matched && x in t.result.rows && x !in s.observed
  }

  lemma AttemptIs(s: State, m: Move)
    ensures MayPlan(s, m.turn) && m.plan.Act? <==> IsAttempt(s, m)
    ensures IsStopped(s, m.turn) <==> IsSpent(s.ledger) || m.turn.outside
    ensures IsVerifiedBy(StartTurn(s), m.turn) <==> Succeeds(s, m.turn)
  {
    if Succeeds(s, m.turn) {
      var x :| x in m.turn.verdict.matched && x in m.turn.result.rows && x !in s.observed;
      assert x in Cited(StartTurn(s), m.turn);
    }
    if IsVerifiedBy(StartTurn(s), m.turn) {
      var x :| x in Cited(StartTurn(s), m.turn);
      assert x in m.turn.verdict.matched && x in m.turn.result.rows && x !in s.observed;
    }
  }

  // ------------------------------------------------------------ one turn

  const IDENTITY_KINDS := {"ip", "client_ip", "email_address", "email"}

  const HOLDER_KINDS := {"account", "user", "endpoint", "host"}

  ghost predicate TestsKindOf(s: State, k: string, kinds: set<string>) {
    k in s.graph.edges && s.graph.edges[k].target in s.graph.nodes && s.graph.nodes[s.graph.edges[k].target].kind in kinds
  }

  /** The attempt resolves the identity: it succeeds on an address. */
  ghost predicate Identifies(s: State, m: Move) {
    IsAttempt(s, m) && Succeeds(s, m.turn) && TestsKindOf(s, m.plan.edge, IDENTITY_KINDS)
  }

  /** What one turn adds to the record. */
  ghost predicate Records(s: State, m: Move, r: State) {
    && r.observed == s.observed + (if IsAttempt(s, m) then m.turn.result.rows else {})
    && (r.incomplete <==> s.incomplete || (IsAttempt(s, m) && !m.turn.result.complete))
    && (r.identityResolved <==> s.identityResolved || Identifies(s, m))
    && r.queryCount == s.queryCount + (if IsAttempt(s, m) then 1 else 0)
  }

  lemma StepRecords(set_: Setting, s: State, m: Move)
    requires IsMove(set_, s, m)
    ensures Records(s, m, Step(set_, s, m))
  {
    AttemptIs(s, m);
  }

  /** Only the claim with this id differs, and it has the status. */
  ghost predicate OnlyMarks(claims: seq<Claim>, later: seq<Claim>, id: string, status: Claims.ClaimStatus) {
    && |later| == |claims|
    && forall i :: 0 <= i < |claims| ==> later[i] == if claims[i].id == id then claims[i].(status := status) else claims[i]
  }

  /** A failed attempt ends the hunt: its claim is UNKNOWN after a complete result and INCONCLUSIVE otherwise. */
  ghost predicate EndsRejected(s: State, m: Move, r: State)
    requires m.plan.Act? && m.plan.edge in s.graph.edges
  {
    var e := s.graph.edges[m.plan.edge];
    && r.hypotheses == s.hypotheses
    && OnlyMarks(s.claims, r.claims, Strip(e.claimId), if m.turn.result.complete then Claims.ClaimStatus.Unknown else Claims.Inconclusive)
    && r.graph == s.graph.(edges := s.graph.edges[m.plan.edge := e.(citations := m.turn.result.rows - s.observed)])
    && r.decision == Some(
         if TestsKindOf(s, m.plan.edge, HOLDER_KINDS) && !Contains(e.id, "role") then S.StopIdentityUnresolved
         else S.StopRelationUnproven)
  }

  /** What the stopping evaluation of a turn looks at. */
  function SeenAt(set_: Setting, s: State, outside: bool): S.Situation {
    S.Situation(s.hypotheses, Some(s.claims), IsSpent(s.ledger) || outside,
                set_.identityRequired && !s.identityResolved && !set_.discoveryDone, s.incomplete,
                set_.expectations, set_.cells, Some(s.graph))
  }

  /** A turn that tests nothing ends the hunt by the stopping evaluation. */
  ghost predicate EndsEvaluated(set_: Setting, s: State, m: Move, r: State) {
    var seen := SeenAt(set_, s, m.turn.outsideAtStop);
    && r.claims == s.claims && r.graph == s.graph
    && (exists d :: r.decision == Some(d) && S.IsDecision(seen, d))
    && |r.hypotheses| == |s.hypotheses|
    && forall i :: 0 <= i < |s.hypotheses| ==> S.IsOutcome(seen, s.hypotheses[i], r.hypotheses[i])
  }

  /** How a turn ends the hunt, if it does. */
  ghost predicate EndsAs(set_: Setting, s: State, m: Move, r: State) {
    if IsSpent(s.ledger) || m.turn.outside then
      r.decision == Some(S.StopExhausted) && r.claims == s.claims && r.graph == s.graph && r.hypotheses == s.hypotheses
    else if !IsAttempt(s, m) then EndsEvaluated(set_, s, m, r)
    else if Succeeds(s, m.turn) then r.decision == None && r.hypotheses == s.hypotheses
    else m.plan.edge in s.graph.edges && EndsRejected(s, m, r)
  }

  lemma EvaluationEnds(set_: Setting, s: State, m: Move)
    ensures EndsEvaluated(set_, s, m, Stop(set_, StartTurn(s), m.turn.outsideAtStop))
  {
    var seen := SeenAt(set_, s, m.turn.outsideAtStop);
    assert Situation(set_, StartTurn(s), m.turn.outsideAtStop) == seen;
    S.EvaluationDecides(seen);
    forall i | 0 <= i < |s.hypotheses|
      ensures |S.Evaluate(seen).1| == |s.hypotheses| && S.IsOutcome(seen, s.hypotheses[i], S.Evaluate(seen).1[i])
    {
      S.OutcomesAre(seen, i);
    }
    S.EndingIs(seen);
  }

  lemma RejectionEnds(claims: seq<Claim>, s: State, m: Move)
    requires ValidIds(claims) && OnlyStatusesDiffer(claims, s.claims) && s.decision == None && m.plan.Act?
    requires IsActionable(s.graph, m.plan.edge) && s.graph.edges[m.plan.edge].target in s.graph.nodes && !Succeeds(s, m.turn)
    ensures EndsRejected(s, m, Execute(StartTurn(s), m.plan.edge, m.turn))
  {
    AttemptIs(s, m);
    NextClaimsAre(claims, StartTurn(s), Strip(s.graph.edges[m.plan.edge].claimId), m.turn);
  }

  lemma StepEnds(set_: Setting, claims: seq<Claim>, s: State, m: Move)
    requires ValidIds(claims) && OnlyStatusesDiffer(claims, s.claims) && IsMove(set_, s, m)
    ensures EndsAs(set_, s, m, Step(set_, s, m))
  {
    AttemptIs(s, m);
    if !(IsSpent(s.ledger) || m.turn.outside) {
      if !IsAttempt(s, m) {
        EvaluationEnds(set_, s, m);
      } else if !Succeeds(s, m.turn) {
        RejectionEnds(claims, s, m);
      }
    }
  }

  lemma StepKeepsPlan(set_: Setting, claims: seq<Claim>, s: State, m: Move)
    requires ValidIds(claims) && OnlyStatusesDiffer(claims, s.claims) && IsMove(set_, s, m)
    ensures OnlyStatusesDiffer(claims, Step(set_, s, m).claims)
  {
    if MayPlan(s, m.turn) && m.plan.Act? {
      NextClaimsAre(claims, StartTurn(s), Strip(s.graph.edges[m.plan.edge].claimId), m.turn);
    }
  }

  // ------------------------------------------------------------ whole runs

  /** The state before turn n. */
  ghost function Before(set_: Setting, s: State, moves: seq<Move>, n: nat): State
    requires n <= |moves| && LegalMoves(set_, s, moves)
  {
    PrefixIsLegal(set_, s, moves, n);
    EndOf(set_, s, moves[..n])
  }

  lemma {:induction false} PrefixIsLegal(set_: Setting, s: State, moves: seq<Move>, n: nat)
    requires n <= |moves| && LegalMoves(set_, s, moves)
    ensures LegalMoves(set_, s, moves[..n])
    decreases n
  {
    if n > 0 {
      PrefixIsLegal(set_, Step(set_, s, moves[0]), moves[1..], n - 1);
      assert moves[..n][0] == moves[0] && moves[..n][1..] == moves[1..][..n - 1];
    }
  }

  lemma BeforeLater(set_: Setting, s: State, moves: seq<Move>, n: nat)
    requires n < |moves| && LegalMoves(set_, s, moves)
    ensures Before(set_, s, moves, n + 1) == Before(set_, Step(set_, s, moves[0]), moves[1..], n)
  {
    PrefixIsLegal(set_, s, moves, n + 1);
    assert moves[..n + 1][0] == moves[0] && moves[..n + 1][1..] == moves[1..][..n];
  }

  /** Each turn leads from the state before it to the state before the next. */
  lemma {:induction false} TurnIs(set_: Setting, s: State, moves: seq<Move>, n: nat)
    requires n < |moves| && LegalMoves(set_, s, moves)
    ensures IsMove(set_, Before(set_, s, moves, n), moves[n])
    ensures Before(set_, s, moves, n + 1) == Step(set_, Before(set_, s, moves, n), moves[n])
    decreases n
  {
    BeforeLater(set_, s, moves, n);
    if n > 0 {
      TurnIs(set_, Step(set_, s, moves[0]), moves[1..], n - 1);
      BeforeLater(set_, s, moves, n - 1);
      assert moves[1..][n - 1] == moves[n];
    } else {
      assert moves[..0] == [] && moves[1..][..0] == [];
    }
  }

  ghost predicate IsAttemptAt(set_: Setting, s: State, moves: seq<Move>, n: nat)
    requires LegalMoves(set_, s, moves)
  {
    n < |moves| && IsAttempt(Before(set_, s, moves, n), moves[n])
  }

  ghost predicate BringsIn(set_: Setting, s: State, moves: seq<Move>, j: nat, x: string)
    requires LegalMoves(set_, s, moves)
  {
    IsAttemptAt(set_, s, moves, j) && x in moves[j].turn.result.rows
  }

  ghost predicate FallsShort(set_: Setting, s: State, moves: seq<Move>, j: nat)
    requires LegalMoves(set_, s, moves)
  {
    IsAttemptAt(set_, s, moves, j) && !moves[j].turn.result.complete
  }

  ghost predicate IdentifiesAt(set_: Setting, s: State, moves: seq<Move>, j: nat)
    requires LegalMoves(set_, s, moves)
  {
    j < |moves| && Identifies(Before(set_, s, moves, j), moves[j])
  }

  /** After n turns the ledger holds the rows of every attempt so far. */
  ghost predicate HasObserved(set_: Setting, s: State, moves: seq<Move>, n: nat, x: string)
    requires LegalMoves(set_, s, moves) && n <= |moves|
  {
    x in Before(set_, s, moves, n).observed <==> x in s.observed || exists j: nat :: j < n && BringsIn(set_, s, moves, j, x)
  }

  /** It knows of every incomplete result. */
  ghost predicate HasNoted(set_: Setting, s: State, moves: seq<Move>, n: nat)
    requires LegalMoves(set_, s, moves) && n <= |moves|
  {
    Before(set_, s, moves, n).incomplete <==> s.incomplete || exists j: nat :: j < n && FallsShort(set_, s, moves, j)
  }

  /** And the identity is resolved if some attempt resolved it. */
  ghost predicate HasIdentified(set_: Setting, s: State, moves: seq<Move>, n: nat)
    requires LegalMoves(set_, s, moves) && n <= |moves|
  {
    Before(set_, s, moves, n).identityResolved <==> s.identityResolved || exists j: nat :: j < n && IdentifiesAt(set_, s, moves, j)
  }

  lemma NothingRecorded(set_: Setting, s: State, moves: seq<Move>)
    requires LegalMoves(set_, s, moves)
    ensures Before(set_, s, moves, 0) == s
  {
    assert moves[..0] == [];
  }

  lemma TurnRecords(set_: Setting, s: State, moves: seq<Move>, n: nat)
    requires LegalMoves(set_, s, moves) && n < |moves|
    ensures Records(Before(set_, s, moves, n), moves[n], Before(set_, s, moves, n + 1))
  {
    TurnIs(set_, s, moves, n);
    StepRecords(set_, Before(set_, s, moves, n), moves[n]);
  }

  lemma {:induction false} RunObserves(set_: Setting, s: State, moves: seq<Move>, n: nat, x: string)
    requires LegalMoves(set_, s, moves) && n <= |moves|
    ensures HasObserved(set_, s, moves, n, x)
  {
    if n == 0 {
      NothingRecorded(set_, s, moves);
    } else {
      var m := n - 1;
      RunObserves(set_, s, moves, m, x);
      TurnRecords(set_, s, moves, m);
      assert BringsIn(set_, s, moves, m, x) <==> IsAttempt(Before(set_, s, moves, m), moves[m]) && x in moves[m].turn.result.rows;
    }
  }

  lemma {:induction false} RunNotes(set_: Setting, s: State, moves: seq<Move>, n: nat)
    requires LegalMoves(set_, s, moves) && n <= |moves|
    ensures HasNoted(set_, s, moves, n)
  {
    if n == 0 {
      NothingRecorded(set_, s, moves);
    } else {
      var m := n - 1;
      RunNotes(set_, s, moves, m);
      TurnRecords(set_, s, moves, m);
      assert FallsShort(set_, s, moves, m) <==> IsAttempt(Before(set_, s, moves, m), moves[m]) && !moves[m].turn.result.complete;
    }
  }

  lemma {:induction false} RunIdentifies(set_: Setting, s: State, moves: seq<Move>, n: nat)
    requires LegalMoves(set_, s, moves) && n <= |moves|
    ensures HasIdentified(set_, s, moves, n)
  {
    if n == 0 {
      NothingRecorded(set_, s, moves);
    } else {
      var m := n - 1;
      RunIdentifies(set_, s, moves, m);
      TurnRecords(set_, s, moves, m);
      assert IdentifiesAt(set_, s, moves, m) <==> Identifies(Before(set_, s, moves, m), moves[m]);
    }
  }

  /** The record of a run is exactly what its attempts brought in. */
  lemma RunRecords(set_: Setting, s: State, moves: seq<Move>, n: nat)
    requires LegalMoves(set_, s, moves) && n <= |moves|
    ensures HasNoted(set_, s, moves, n) && HasIdentified(set_, s, moves, n) && forall x :: HasObserved(set_, s, moves, n, x)
  {
    forall x ensures HasObserved(set_, s, moves, n, x) {
      RunObserves(set_, s, moves, n, x);
    }
    RunNotes(set_, s, moves, n);
    RunIdentifies(set_, s, moves, n);
  }

  lemma {:induction false} RunKeepsPlan(set_: Setting, claims: seq<Claim>, s: State, moves: seq<Move>, n: nat)
    requires ValidIds(claims) && OnlyStatusesDiffer(claims, s.claims) && LegalMoves(set_, s, moves) && n <= |moves|
    ensures OnlyStatusesDiffer(claims, Before(set_, s, moves, n).claims)
  {
    if n == 0 {
      NothingRecorded(set_, s, moves);
    } else {
      var m := n - 1;
      RunKeepsPlan(set_, claims, s, moves, m);
      TurnIs(set_, s, moves, m);
      StepKeepsPlan(set_, claims, Before(set_, s, moves, m), moves[m]);
    }
  }

  /**
   * How a run ends: with a budget used up, by the stopping evaluation on what has been proved so far, or at an
   * attempt that fails; every turn before the last is an attempt that succeeds.
   */
  lemma RunEnds(set_: Setting, claims: seq<Claim>, s: State, moves: seq<Move>, n: nat)
    requires ValidIds(claims) && OnlyStatusesDiffer(claims, s.claims) && LegalMoves(set_, s, moves) && n < |moves|
    ensures EndsAs(set_, Before(set_, s, moves, n), moves[n], Before(set_, s, moves, n + 1))
    ensures n + 1 < |moves| ==> Before(set_, s, moves, n + 1).decision == None
  {
    TurnIs(set_, s, moves, n);
    RunKeepsPlan(set_, claims, s, moves, n);
    StepEnds(set_, claims, Before(set_, s, moves, n), moves[n]);
    if n + 1 < |moves| {
      TurnIs(set_, s, moves, n + 1);
    }
  }
}
