/** The budget ledger and the terminal stopping decision. */
module Stopping {
  import opened Text
  import Claims
  import CaseGraphs

  // ------------------------------------------------------------ budgets

  /** The counters of a budget ledger. `tracked`: an external tracker counts the language-model calls. */
  datatype Ledger = Ledger(
    maxTurns: int, maxQueries: int, maxLlmCalls: int, maxScanCells: int,
    turn: int, queries: int, llmCalls: int, scanCells: int, tracked: bool)

  /** `outside`: the run time or the external tracker is exhausted. */
  predicate IsExhausted(l: Ledger, outside: bool) {
    || l.turn >= l.maxTurns
    || l.queries >= l.maxQueries
    || (!l.tracked && l.llmCalls >= l.maxLlmCalls)
    || l.scanCells >= l.maxScanCells
    || outside
  }

  class HuntBudgetLedger {
    var counters: Ledger

    constructor (counters: Ledger)
      ensures this.counters == counters
    {
      this.counters := counters;
    }

    method RecordTurn()
      modifies this
      ensures counters == old(counters).(turn := old(counters).turn + 1)
    {
      counters := counters.(turn := counters.turn + 1);
    }

    method RecordQuery()
      modifies this
      ensures counters == old(counters).(queries := old(counters).queries + 1)
    {
      counters := counters.(queries := counters.queries + 1);
    }

    method RecordLlmCall()
      modifies this
      ensures counters == old(counters).(llmCalls := old(counters).llmCalls + 1)
    {
      counters := counters.(llmCalls := counters.llmCalls + 1);
    }

    method RecordScanCell()
      modifies this
      ensures counters == old(counters).(scanCells := old(counters).scanCells + 1)
    {
      counters := counters.(scanCells := counters.scanCells + 1);
    }
  }

  // ------------------------------------------------------------ what the decision looks at

  datatype HypothesisStatus =
    | Live | Supported | PartiallySupported | Weakened | Refuted
    | Untestable | InsufficientlySpecified | Unsupported | Unknown | Unreachable

  /** Does the statement name an attack mechanism, and does some evidence card corroborate it? */
  datatype Mechanism = NotNamed | Corroborated | Uncorroborated

  /** `chainBroken`: it needs a web request and the evidence chain is incomplete or uncorrelated. */
  datatype Hypothesis = Hypothesis(
    status: HypothesisStatus, benign: bool, requiredEdges: seq<string>, chainBroken: bool, mechanism: Mechanism)

  datatype TestStatus = Untested | Confirmed | Refuted | Untestable | Inconclusive

  datatype CellState = Unexplored | Explored | Partial | Unqueryable | Unreachable

  /** A coverage cell; no entity means the wildcard. */
  datatype Cell = Cell(entity: Option<string>, state: CellState)

  datatype Decision =
    | StopResolved | StopRefuted | StopIdentityUnresolved | StopRelationUnproven | StopCoverageGap
    | StopExhausted | StopBounded | StopInsufficient | StopUnsupported | StopUnreachable

  /**
   * `claims`: the mandatory and optional claims, when a claim plan is the authority.
   * `identityBlocked`: a person hunt whose identity is unresolved before discovery.
   * `incomplete`: some recorded query result is incomplete.
   */
  datatype Situation = Situation(
    hypotheses: seq<Hypothesis>,
    claims: Option<seq<Claims.Claim>>,
    exhausted: bool,
    identityBlocked: bool,
    incomplete: bool,
    expectations: seq<TestStatus>,
    cells: seq<Cell>,
    graph: Option<CaseGraphs.Graph>)

  predicate SomeHypothesis(hs: seq<Hypothesis>, status: HypothesisStatus) {
    exists h :: h in hs && h.status == status
  }

  predicate HasMandatory(claims: seq<Claims.Claim>) {
    exists c :: c in claims && !c.optional
  }

  predicate MandatoryResolved(claims: seq<Claims.Claim>) {
    HasMandatory(claims) && forall c :: c in claims && !c.optional ==> Claims.IsResolved(c)
  }

  predicate MandatoryHas(claims: seq<Claims.Claim>, status: Claims.ClaimStatus) {
    exists c :: c in claims && !c.optional && c.status == status
  }

  predicate MandatoryAllRefuted(claims: seq<Claims.Claim>) {
    forall c :: c in claims && !c.optional ==> c.status == Claims.ClaimStatus.Refuted
  }

  predicate Concluded(expectations: seq<TestStatus>) {
    expectations != [] && forall t :: t in expectations ==> t in {Confirmed, TestStatus.Refuted, TestStatus.Untestable}
  }

  predicate HasUnexploredInstance(cells: seq<Cell>) {
    exists c :: c in cells && c.entity.Some? && c.state == Unexplored
  }

  predicate HasEdges(graph: Option<CaseGraphs.Graph>) {
    graph.Some? && graph.value.edges != map[]
  }

  predicate NothingUnproven(graph: Option<CaseGraphs.Graph>) {
    graph.Some? && forall k :: k in graph.value.edges ==> !CaseGraphs.IsUnproven(graph.value, k)
  }

  predicate SomethingRefuted(graph: Option<CaseGraphs.Graph>) {
    graph.Some? && exists k :: k in graph.value.edges && graph.value.edges[k].status == CaseGraphs.EdgeStatus.Refuted
  }

  // ------------------------------------------------------------ the decision

  function Weaken(h: Hypothesis): Hypothesis {
    if h.chainBroken && h.status == Supported then h.(status := Weakened) else h
  }

  function WeakenAll(hs: seq<Hypothesis>): (r: seq<Hypothesis>)
    ensures |r| == |hs| && forall i :: 0 <= i < |hs| ==> r[i] == Weaken(hs[i])
  {
    seq(|hs|, i requires 0 <= i < |hs| => Weaken(hs[i]))
  }

  predicate EdgesSatisfied(h: Hypothesis, g: CaseGraphs.Graph) {
    if h.requiredEdges != [] then forall k :: k in h.requiredEdges ==> CaseGraphs.IsVerified(g, k)
    else forall k :: k in g.edges ==> CaseGraphs.IsVerified(g, k)
  }

  /** The status that a finished graph gives a hypothesis. */
  function Conclude(h: Hypothesis, g: CaseGraphs.Graph): Hypothesis {
    h.(status :=
      if h.benign then HypothesisStatus.Refuted
      else if !EdgesSatisfied(h, g) || h.mechanism == Uncorroborated then Unknown
      else Supported)
  }

  function ConcludeAll(hs: seq<Hypothesis>, g: CaseGraphs.Graph): (r: seq<Hypothesis>)
    ensures |r| == |hs| && forall i :: 0 <= i < |hs| ==> r[i] == Conclude(hs[i], g)
  {
    seq(|hs|, i requires 0 <= i < |hs| => Conclude(hs[i], g))
  }

  function ClaimDecision(claims: seq<Claims.Claim>): Decision {
    if MandatoryHas(claims, Claims.Inconclusive) then StopCoverageGap
    else if MandatoryHas(claims, Claims.ClaimStatus.Unknown) then StopBounded
    else if MandatoryAllRefuted(claims) then StopRefuted
    else StopResolved
  }

  /** No live or weakened hypothesis is left. */
  predicate NothingLive(hs: seq<Hypothesis>) {
    forall h :: h in hs ==> h.status !in {Live, Weakened}
  }

  /** The decision, and the hypotheses as the evaluation leaves them. */
  function Evaluate(s: Situation): (Decision, seq<Hypothesis>) {
    if SomeHypothesis(s.hypotheses, InsufficientlySpecified) then (StopInsufficient, s.hypotheses)
    else if SomeHypothesis(s.hypotheses, Unsupported) then (StopUnsupported, s.hypotheses)
    else if SomeHypothesis(s.hypotheses, HypothesisStatus.Unreachable) then (StopUnreachable, s.hypotheses)
    else if s.claims.Some? && MandatoryResolved(s.claims.value) then (ClaimDecision(s.claims.value), s.hypotheses)
    else
      var hs := WeakenAll(s.hypotheses);
      if s.exhausted then (StopExhausted, hs)
      else if s.identityBlocked then (StopIdentityUnresolved, hs)
      else if s.incomplete then (StopCoverageGap, hs)
      else if SomeHypothesis(hs, Supported) && NothingLive(hs) && Concluded(s.expectations) && !HasUnexploredInstance(s.cells) then
        (StopResolved, hs)
      else if SomeHypothesis(hs, HypothesisStatus.Refuted) && !SomeHypothesis(hs, Supported) && NothingLive(hs) && Concluded(s.expectations) then
        (StopRefuted, hs)
      else if NothingUnproven(s.graph) && HasEdges(s.graph) then
        (if SomethingRefuted(s.graph) then StopRelationUnproven else StopResolved, ConcludeAll(hs, s.graph.value))
      else if s.graph.Some? && !NothingUnproven(s.graph) && !SomeHypothesis(hs, Supported) then (StopRelationUnproven, hs)
      else (StopBounded, hs)
  }

  // ------------------------------------------------------------ what each decision means

  ghost predicate WellSpecified(hs: seq<Hypothesis>) {
    forall h :: h in hs ==> h.status !in {InsufficientlySpecified, Unsupported, HypothesisStatus.Unreachable}
  }

  /** There are mandatory claims, and each has one of these statuses. */
  ghost predicate MandatoryIn(s: Situation, statuses: set<Claims.ClaimStatus>) {
    && s.claims.Some? && (exists c :: c in s.claims.value && !c.optional)
    && forall c :: c in s.claims.value && !c.optional ==> c.status in statuses
  }

  ghost predicate MandatoryWith(s: Situation, status: Claims.ClaimStatus) {
    s.claims.Some? && exists c :: c in s.claims.value && !c.optional && c.status == status
  }

  /** Every mandatory claim has come to an end. */
  ghost predicate ClaimsDecide(s: Situation) {
    MandatoryIn(s, {Claims.ClaimStatus.Supported, Claims.ClaimStatus.Refuted, Claims.ClaimStatus.Unknown, Claims.Inconclusive})
  }

  /** The hypotheses are well specified and the claim plan leaves the decision to what follows it. */
  ghost predicate IsLeftOpen(s: Situation) {
    WellSpecified(s.hypotheses) && !ClaimsDecide(s)
  }

  /** Budget, identity and coverage let the evidence decide. */
  ghost predicate EvidenceDecides(s: Situation) {
    IsLeftOpen(s) && !s.exhausted && !s.identityBlocked && !s.incomplete
  }

  /** Some hypothesis is SUPPORTED on an unbroken chain. */
  ghost predicate SomethingHolds(s: Situation) {
    exists h :: h in s.hypotheses && h.status == Supported && !h.chainBroken
  }

  /** Every hypothesis has a verdict: none is live, weakened, or SUPPORTED on a broken chain. */
  ghost predicate NothingOpen(s: Situation) {
    forall h :: h in s.hypotheses ==> h.status != Live && h.status != Weakened && !(h.status == Supported && h.chainBroken)
  }

  ghost predicate TestsAreDone(s: Situation) {
    s.expectations != [] && forall t :: t in s.expectations ==> t != Untested && t != Inconclusive
  }

  ghost predicate IsExplored(s: Situation) {
    forall c :: c in s.cells && c.state == Unexplored ==> c.entity == None
  }

  ghost predicate HypothesesResolve(s: Situation) {
    SomethingHolds(s) && NothingOpen(s) && TestsAreDone(s) && IsExplored(s)
  }

  ghost predicate HypothesesRefute(s: Situation) {
    !SomethingHolds(s) && (exists h :: h in s.hypotheses && h.status == HypothesisStatus.Refuted) && NothingOpen(s) && TestsAreDone(s)
  }

  /** The graph has edges, and every one of them has one of these statuses. */
  ghost predicate AllEdgesIn(s: Situation, statuses: set<CaseGraphs.EdgeStatus>) {
    && s.graph.Some? && (exists k :: k in s.graph.value.edges)
    && forall k :: k in s.graph.value.edges ==> s.graph.value.edges[k].status in statuses
  }

  ghost predicate SomeEdgeIn(s: Situation, statuses: set<CaseGraphs.EdgeStatus>) {
    s.graph.Some? && exists k :: k in s.graph.value.edges && s.graph.value.edges[k].status in statuses
  }

  /** The hypotheses leave the decision to the graph. */
  ghost predicate GraphDecides(s: Situation) {
    EvidenceDecides(s) && !HypothesesResolve(s) && !HypothesesRefute(s)
  }

  /** Every edge is VERIFIED or REFUTED, and the graph decides. */
  ghost predicate GraphConcludes(s: Situation) {
    GraphDecides(s) && AllEdgesIn(s, {CaseGraphs.EdgeStatus.Verified, CaseGraphs.EdgeStatus.Refuted})
  }

  /** Some edge is neither, and nothing holds without it. */
  ghost predicate GraphFallsShort(s: Situation) {
    && GraphDecides(s) && !SomethingHolds(s)
    && SomeEdgeIn(s, {CaseGraphs.EdgeStatus.Unproven, CaseGraphs.EdgeStatus.Hypothesized})
  }

  /** When each decision is reached, in terms of statuses, budgets, results, cells and edges. */
  ghost predicate IsDecision(s: Situation, d: Decision) {
    match d
    case StopInsufficient => exists h :: h in s.hypotheses && h.status == InsufficientlySpecified
    case StopUnsupported =>
      && (forall h :: h in s.hypotheses ==> h.status != InsufficientlySpecified)
      && exists h :: h in s.hypotheses && h.status == Unsupported
    case StopUnreachable =>
      && (forall h :: h in s.hypotheses ==> h.status != InsufficientlySpecified && h.status != Unsupported)
      && exists h :: h in s.hypotheses && h.status == HypothesisStatus.Unreachable
    case StopResolved =>
      || (WellSpecified(s.hypotheses) && MandatoryWith(s, Claims.ClaimStatus.Supported)
          && MandatoryIn(s, {Claims.ClaimStatus.Supported, Claims.ClaimStatus.Refuted}))
      || (EvidenceDecides(s) && HypothesesResolve(s))
      || (GraphDecides(s) && AllEdgesIn(s, {CaseGraphs.EdgeStatus.Verified}))
    case StopRefuted =>
      || (WellSpecified(s.hypotheses) && MandatoryIn(s, {Claims.ClaimStatus.Refuted}))
      || (EvidenceDecides(s) && HypothesesRefute(s))
    case StopCoverageGap =>
      || (WellSpecified(s.hypotheses) && ClaimsDecide(s) && MandatoryWith(s, Claims.Inconclusive))
      || (IsLeftOpen(s) && !s.exhausted && !s.identityBlocked && s.incomplete)
    case StopExhausted => IsLeftOpen(s) && s.exhausted
    case StopIdentityUnresolved => IsLeftOpen(s) && !s.exhausted && s.identityBlocked
    case StopRelationUnproven =>
      (GraphConcludes(s) && SomeEdgeIn(s, {CaseGraphs.EdgeStatus.Refuted})) || GraphFallsShort(s)
    case StopBounded =>
      || (WellSpecified(s.hypotheses) && ClaimsDecide(s)
          && MandatoryWith(s, Claims.ClaimStatus.Unknown) && !MandatoryWith(s, Claims.Inconclusive))
      || (GraphDecides(s) && !GraphConcludes(s) && !GraphFallsShort(s))
  }

  /** What the evaluation makes of a hypothesis: only its status can change. */
  ghost predicate IsOutcome(s: Situation, h: Hypothesis, r: Hypothesis) {
    && r == h.(status := r.status)
    && (GraphConcludes(s) ==>
          if h.benign then r.status == HypothesisStatus.Refuted
          else if HasItsEdges(s.graph.value, h) && h.mechanism in {NotNamed, Corroborated} then r.status == Supported
          else r.status == Unknown)
    && (!GraphConcludes(s) ==>
          if IsLeftOpen(s) && h.status == Supported && h.chainBroken then r.status == Weakened else r.status == h.status)
  }

  /** The edges that the hypothesis requires are VERIFIED; one that names none requires all of them. */
  ghost predicate HasItsEdges(g: CaseGraphs.Graph, h: Hypothesis) {
    if h.requiredEdges == [] then forall k :: k in g.edges ==> g.edges[k].status == CaseGraphs.EdgeStatus.Verified
    else forall k :: k in h.requiredEdges ==> k in g.edges && g.edges[k].status == CaseGraphs.EdgeStatus.Verified
  }

  lemma ClaimDecisionIs(s: Situation)
    requires s.claims.Some?
    ensures MandatoryResolved(s.claims.value) <==> ClaimsDecide(s)
    ensures ClaimsDecide(s) && WellSpecified(s.hypotheses) ==> IsDecision(s, ClaimDecision(s.claims.value))
  {
    var claims := s.claims.value;
    assert forall c :: Claims.IsResolved(c) <==>
      c.status in {Claims.ClaimStatus.Supported, Claims.ClaimStatus.Refuted, Claims.ClaimStatus.Unknown, Claims.Inconclusive};
    assert MandatoryHas(claims, Claims.Inconclusive) <==> MandatoryWith(s, Claims.Inconclusive);
    assert MandatoryHas(claims, Claims.ClaimStatus.Unknown) <==> MandatoryWith(s, Claims.ClaimStatus.Unknown);
    if ClaimsDecide(s) && !MandatoryHas(claims, Claims.Inconclusive) && !MandatoryHas(claims, Claims.ClaimStatus.Unknown) {
      if !MandatoryAllRefuted(claims) {
        var c :| c in claims && !c.optional && c.status != Claims.ClaimStatus.Refuted;
        assert c.status == Claims.ClaimStatus.Supported;
      }
    }
  }

  lemma WeakenedAre(s: Situation)
    ensures var hs := WeakenAll(s.hypotheses);
      && (SomeHypothesis(hs, Supported) <==> SomethingHolds(s)) && (NothingLive(hs) <==> NothingOpen(s))
      && (SomeHypothesis(hs, HypothesisStatus.Refuted) <==> exists h :: h in s.hypotheses && h.status == HypothesisStatus.Refuted)
  {
    var hs := WeakenAll(s.hypotheses);
    assert forall i :: 0 <= i < |hs| ==> hs[i] == Weaken(s.hypotheses[i]);
    forall h | h in s.hypotheses ensures Weaken(h) in hs {
      var i :| 0 <= i < |s.hypotheses| && s.hypotheses[i] == h;
      assert hs[i] == Weaken(h);
    }
    if h :| h in s.hypotheses && h.status == Supported && !h.chainBroken {
      assert Weaken(h) in hs && Weaken(h).status == Supported;
    }
    if h :| h in s.hypotheses && h.status == HypothesisStatus.Refuted {
      assert Weaken(h) in hs && Weaken(h).status == HypothesisStatus.Refuted;
    }
  }

  lemma GraphIs(s: Situation)
    ensures (NothingUnproven(s.graph) && HasEdges(s.graph)) <==> AllEdgesIn(s, {CaseGraphs.EdgeStatus.Verified, CaseGraphs.EdgeStatus.Refuted})
    ensures (NothingUnproven(s.graph) && HasEdges(s.graph) && !SomethingRefuted(s.graph)) <==> AllEdgesIn(s, {CaseGraphs.EdgeStatus.Verified})
    ensures SomethingRefuted(s.graph) <==> SomeEdgeIn(s, {CaseGraphs.EdgeStatus.Refuted})
    ensures (s.graph.Some? && !NothingUnproven(s.graph)) <==>
      SomeEdgeIn(s, {CaseGraphs.EdgeStatus.Unproven, CaseGraphs.EdgeStatus.Hypothesized})
  {
    if s.graph.Some? {
      var g := s.graph.value;
      assert g.edges != map[] <==> exists k :: k in g.edges by {
        if g.edges != map[] {
          assert g.edges.Keys != {};
        }
      }
      forall k | k in g.edges
        ensures CaseGraphs.IsUnproven(g, k) <==> g.edges[k].status in {CaseGraphs.EdgeStatus.Unproven, CaseGraphs.EdgeStatus.Hypothesized}
        ensures CaseGraphs.IsUnproven(g, k) <==> g.edges[k].status !in {CaseGraphs.EdgeStatus.Verified, CaseGraphs.EdgeStatus.Refuted}
      {
        var status := g.edges[k].status;
        assert status.Unproven? || status.Hypothesized? || status.Verified? || status.Refuted?;
      }
    }
  }

  lemma UnspecifiedIs(s: Situation)
    requires !WellSpecified(s.hypotheses)
    ensures IsDecision(s, Evaluate(s).0) && Evaluate(s).1 == s.hypotheses
  {
  }

  lemma EvidenceIs(s: Situation)
    requires EvidenceDecides(s)
    ensures IsDecision(s, Evaluate(s).0)
  {
    if s.claims.Some? {
      ClaimDecisionIs(s);
    }
    WeakenedAre(s);
    GraphIs(s);
    assert Concluded(s.expectations) <==> TestsAreDone(s);
    assert HasUnexploredInstance(s.cells) <==> !IsExplored(s);
  }

  lemma DecisionIsUnique(s: Situation, d: Decision, e: Decision)
    requires IsDecision(s, d) && IsDecision(s, e)
    ensures d == e
  {
  }

  /** The evaluation reaches each decision exactly under its condition. */
  lemma EvaluationDecides(s: Situation)
    ensures forall d :: Evaluate(s).0 == d <==> IsDecision(s, d)
  {
    if s.claims.Some? {
      ClaimDecisionIs(s);
    }
    if !WellSpecified(s.hypotheses) {
      UnspecifiedIs(s);
    } else if EvidenceDecides(s) {
      EvidenceIs(s);
    }
    assert IsDecision(s, Evaluate(s).0);
    forall d | IsDecision(s, d) ensures d == Evaluate(s).0 {
      DecisionIsUnique(s, d, Evaluate(s).0);
    }
  }

  /** Which of the three ways of ending is taken. */
  lemma EndingIs(s: Situation)
    ensures !IsLeftOpen(s) ==> Evaluate(s).1 == s.hypotheses
    ensures IsLeftOpen(s) && !GraphConcludes(s) ==> Evaluate(s).1 == WeakenAll(s.hypotheses)
    ensures GraphConcludes(s) ==> Evaluate(s).1 == ConcludeAll(WeakenAll(s.hypotheses), s.graph.value)
  {
    if s.claims.Some? {
      ClaimDecisionIs(s);
    }
    if WellSpecified(s.hypotheses) {
      WeakenedAre(s);
      GraphIs(s);
      assert Concluded(s.expectations) <==> TestsAreDone(s);
      assert HasUnexploredInstance(s.cells) <==> !IsExplored(s);
    }
  }

  lemma ConcludedIs(s: Situation, h: Hypothesis)
    requires GraphConcludes(s)
    ensures IsOutcome(s, h, Conclude(Weaken(h), s.graph.value))
  {
    assert EdgesSatisfied(Weaken(h), s.graph.value) <==> HasItsEdges(s.graph.value, h);
  }

  /** Each hypothesis ends as the graph, the broken chain or its own status says. */
  lemma OutcomesAre(s: Situation, i: nat)
    requires i < |s.hypotheses|
    ensures |Evaluate(s).1| == |s.hypotheses| && IsOutcome(s, s.hypotheses[i], Evaluate(s).1[i])
  {
    EndingIs(s);
    if GraphConcludes(s) {
      ConcludedIs(s, s.hypotheses[i]);
    }
  }

  /** The evaluation as it runs: the hypotheses are updated one by one. */
  method EvaluateStopping(s: Situation) returns (decision: Decision, hypotheses: seq<Hypothesis>)
    ensures (decision, hypotheses) == Evaluate(s)
  {
    hypotheses := s.hypotheses;
    if SomeHypothesis(hypotheses, InsufficientlySpecified) {
      return StopInsufficient, hypotheses;
    }
    if SomeHypothesis(hypotheses, Unsupported) {
      return StopUnsupported, hypotheses;
    }
    if SomeHypothesis(hypotheses, HypothesisStatus.Unreachable) {
      return StopUnreachable, hypotheses;
    }
    if s.claims.Some? && MandatoryResolved(s.claims.value) {
      return ClaimDecision(s.claims.value), hypotheses;
    }
    ghost var weakened := WeakenAll(s.hypotheses);
    for i := 0 to |hypotheses|
      invariant |hypotheses| == |weakened|
      invariant forall k :: 0 <= k < i ==> hypotheses[k] == weakened[k]
      invariant forall k :: i <= k < |hypotheses| ==> hypotheses[k] == s.hypotheses[k]
    {
      if hypotheses[i].chainBroken && hypotheses[i].status == Supported {
        hypotheses := hypotheses[i := hypotheses[i].(status := Weakened)];
      }
    }
    assert hypotheses == weakened;
    if s.exhausted {
      return StopExhausted, hypotheses;
    }
    if s.identityBlocked {
      return StopIdentityUnresolved, hypotheses;
    }
    if s.incomplete {
      return StopCoverageGap, hypotheses;
    }
    if SomeHypothesis(hypotheses, Supported) && NothingLive(hypotheses) && Concluded(s.expectations) && !HasUnexploredInstance(s.cells) {
      return StopResolved, hypotheses;
    }
    if SomeHypothesis(hypotheses, HypothesisStatus.Refuted) && !SomeHypothesis(hypotheses, Supported)
       && NothingLive(hypotheses) && Concluded(s.expectations) {
      return StopRefuted, hypotheses;
    }
    if NothingUnproven(s.graph) && HasEdges(s.graph) {
      decision := if SomethingRefuted(s.graph) then StopRelationUnproven else StopResolved;
      hypotheses := ConcludeEach(hypotheses, s.graph.value);
      return;
    }
    if s.graph.Some? && !NothingUnproven(s.graph) && !SomeHypothesis(hypotheses, Supported) {
      return StopRelationUnproven, hypotheses;
    }
    return StopBounded, hypotheses;
  }

  method ConcludeEach(before: seq<Hypothesis>, g: CaseGraphs.Graph) returns (hypotheses: seq<Hypothesis>)
    ensures hypotheses == ConcludeAll(before, g)
  {
    hypotheses := before;
    for i := 0 to |before|
      invariant |hypotheses| == |before|
      invariant forall k :: 0 <= k < i ==> hypotheses[k] == Conclude(before[k], g)
      invariant forall k :: i <= k < |before| ==> hypotheses[k] == before[k]
    {
      var h := hypotheses[i];
      var status := Supported;
      if h.benign {
        status := HypothesisStatus.Refuted;
      } else if !EdgesSatisfied(h, g) || h.mechanism == Uncorroborated {
        status := Unknown;
      }
      hypotheses := hypotheses[i := h.(status := status)];
    }
  }

  // ------------------------------------------------------------ what a decision means

  /** The claim plan alone settles the hunt. */
  ghost predicate SettledByClaims(s: Situation) {
    && s.claims.Some? && HasMandatory(s.claims.value)
    && (forall c :: c in s.claims.value && !c.optional ==> c.status in {Claims.ClaimStatus.Supported, Claims.ClaimStatus.Refuted})
    && exists c :: c in s.claims.value && !c.optional && c.status == Claims.ClaimStatus.Supported
  }

  /** Every relation of a non-empty graph is VERIFIED. */
  ghost predicate SettledByGraph(s: Situation) {
    s.graph.Some? && s.graph.value.edges != map[] && forall k :: k in s.graph.value.edges ==> CaseGraphs.IsVerified(s.graph.value, k)
  }

  /** Nothing blocks the branches after the claim plan. */
  ghost predicate Unblocked(s: Situation) {
    && !s.exhausted && !s.identityBlocked && !s.incomplete
    && !(s.claims.Some? && MandatoryResolved(s.claims.value))
  }

  /**
   * A hunt with an unexplored instance cell can still end STOP_RESOLVED: exactly when the claims settle it,
   * or when nothing blocks and the whole graph is VERIFIED without the hypotheses being refuted first.
   */
  lemma UnexploredCellsGuardOneBranch(s: Situation)
    requires HasUnexploredInstance(s.cells) && WellSpecified(s.hypotheses)
    ensures Evaluate(s).0 == StopResolved <==>
      || SettledByClaims(s)
      || (Unblocked(s) && SettledByGraph(s)
          && !(SomeHypothesis(WeakenAll(s.hypotheses), HypothesisStatus.Refuted)
               && !SomeHypothesis(WeakenAll(s.hypotheses), Supported)
               && NothingLive(WeakenAll(s.hypotheses)) && Concluded(s.expectations)))
  {
    if s.claims.Some? && MandatoryResolved(s.claims.value) {
      var claims := s.claims.value;
      if Evaluate(s).0 == StopResolved {
        var c :| c in claims && !c.optional && c.status != Claims.ClaimStatus.Refuted;
        assert Claims.IsResolved(c) && c.status == Claims.ClaimStatus.Supported;
        assert SettledByClaims(s);
      }
    } else {
      assert !SettledByClaims(s);
      if NothingUnproven(s.graph) && HasEdges(s.graph) {
        var g := s.graph.value;
        assert !SomethingRefuted(s.graph) <==> SettledByGraph(s) by {
          if !SomethingRefuted(s.graph) {
            forall k | k in g.edges ensures CaseGraphs.IsVerified(g, k) {
              assert !CaseGraphs.IsUnproven(g, k);
            }
          }
        }
      } else {
        assert !SettledByGraph(s);
      }
    }
  }

  /**
   * Exactly when a hypothesis is SUPPORTED after the evaluation: it is not the benign baseline and the finished graph
   * has its edges and its mechanism, or the graph does not decide and it was SUPPORTED before, on a chain that is
   * unbroken unless the evaluation ends before it looks at the chains.
   */
  lemma SupportIsEarned(s: Situation, i: nat)
    requires i < |s.hypotheses|
    ensures |Evaluate(s).1| == |s.hypotheses|
    ensures Evaluate(s).1[i].status == Supported <==>
      var h := s.hypotheses[i];
      if GraphConcludes(s) then !h.benign && HasItsEdges(s.graph.value, h) && h.mechanism != Uncorroborated
      else h.status == Supported && (h.chainBroken ==> !IsLeftOpen(s))
    ensures Evaluate(s).0 in {StopExhausted, StopIdentityUnresolved} && s.hypotheses[i].chainBroken ==>
      Evaluate(s).1[i].status != Supported
  {
    OutcomesAre(s, i);
    EvaluationDecides(s);
  }
}
