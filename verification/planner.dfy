/**
 * Binding an unproven relation to a provider operation, and choosing the next relation to test.
 * Both choices are lexicographic minima, so they do not depend on storage order.
 */
module Planning {
  import opened Text
  import opened CaseGraphs

  datatype Operation = Operation(
    id: string,
    provider: string,
    outputFactKinds: set<string>,
    inputKinds: set<string>,
    outputRoles: set<string>,
    outputEntityKinds: set<string>,
    cost: Option<int>)

  /**
   * The published operations, the provider they must belong to ("" for any), and the fixed mapping
   * by node types that is tried when no published operation fits.
   */
  datatype Binder = Binder(ops: seq<Operation>, provider: string, fallback: (Edge, string, string) -> Option<string>)

  // ------------------------------------------------------------ ranks

  datatype Rank = Rank(grade: int, costMissing: bool, cost: int, id: string)

  function RankOf(grade: int, cost: Option<int>, id: string): Rank {
    Rank(grade, cost.None?, if cost.Some? then cost.value else 0, id)
  }

  predicate RankLe(a: Rank, b: Rank) {
    || a.grade < b.grade
    || (a.grade == b.grade && !a.costMissing && b.costMissing)
    || (a.grade == b.grade && a.costMissing == b.costMissing && a.cost < b.cost)
    || (a.grade == b.grade && a.costMissing == b.costMissing && a.cost == b.cost && StrLe(a.id, b.id))
  }

  lemma RankTotal(a: Rank, b: Rank)
    ensures RankLe(a, b) || RankLe(b, a)
    ensures RankLe(a, a)
  {
    StrLeTotal(a.id, b.id);
  }

  lemma RankTransitive(a: Rank, b: Rank, c: Rank)
    requires RankLe(a, b) && RankLe(b, c)
    ensures RankLe(a, c)
  {
    if a.grade == c.grade && a.costMissing == c.costMissing && a.cost == c.cost {
      StrLeTransitive(a.id, b.id, c.id);
    }
  }

  lemma RankAntisymmetric(a: Rank, b: Rank)
    requires RankLe(a, b) && RankLe(b, a)
    ensures a == b
  {
    StrLeAntisymmetric(a.id, b.id);
  }

  // ------------------------------------------------------------ binding an operation

  predicate IsAdmissible(b: Binder, e: Edge, sourceKind: string, op: Operation) {
    && Bound(b, op)
    && (e.acceptableOperations == {} || op.id in e.acceptableOperations)
    && (e.factKinds == {} || e.factKinds * op.outputFactKinds != {})
    && (op.inputKinds == {} || "any" in op.inputKinds || sourceKind in op.inputKinds)
  }

  predicate IsRoleAware(b: Binder, e: Edge, sourceKind: string) {
    e.requiredRoles != {} && exists op :: op in b.ops && IsAdmissible(b, e, sourceKind, op) && op.outputRoles != {}
  }

  predicate IsEligible(b: Binder, e: Edge, sourceKind: string, op: Operation) {
    && op in b.ops
    && IsAdmissible(b, e, sourceKind, op)
    && (IsRoleAware(b, e, sourceKind) ==> e.requiredRoles * op.outputRoles != {} || e.targetKind in op.outputEntityKinds)
  }

  function OperationRank(e: Edge, op: Operation): Rank {
    var score := |e.requiredRoles * op.outputRoles| + if e.targetKind in op.outputEntityKinds then 1 else 0;
    RankOf(-score, op.cost, op.id)
  }

  ghost predicate IsBestOperation(b: Binder, e: Edge, sourceKind: string, op: Operation) {
    && IsEligible(b, e, sourceKind, op)
    && forall o :: IsEligible(b, e, sourceKind, o) ==> RankLe(OperationRank(e, op), OperationRank(e, o))
  }

  /** The operation that the published contracts select. */
  ghost predicate IsSelected(b: Binder, e: Edge, sourceKind: string, r: Option<string>) {
    match r
    case Some(id) => exists op :: IsBestOperation(b, e, sourceKind, op) && op.id == id
    case None => forall op :: !IsEligible(b, e, sourceKind, op)
  }

  // ------------------------------------------------------------ what the best operation is

  /** The operation belongs to the bound provider, yields a fact kind that the edge asks for, and takes its source. */
  ghost predicate CanTest(b: Binder, e: Edge, sourceKind: string, op: Operation) {
    && op in b.ops && (b.provider != "" ==> op.provider == b.provider)
    && (e.acceptableOperations != {} ==> op.id in e.acceptableOperations)
    && (e.factKinds != {} ==> exists kind :: kind in e.factKinds && kind in op.outputFactKinds)
    && (op.inputKinds != {} ==> "any" in op.inputKinds || sourceKind in op.inputKinds)
  }

  /** It yields a role that the edge requires, or the kind of its target. */
  ghost predicate Overlaps(e: Edge, op: Operation) {
    e.targetKind in op.outputEntityKinds || exists role :: role in e.requiredRoles && role in op.outputRoles
  }

  /** Where roles are required and some operation that can test the edge yields roles, the others must overlap too. */
  ghost predicate Competes(b: Binder, e: Edge, sourceKind: string, op: Operation) {
    && CanTest(b, e, sourceKind, op)
    && (e.requiredRoles != {} && (exists o :: CanTest(b, e, sourceKind, o) && o.outputRoles != {}) ==> Overlaps(e, op))
  }

  /** A known cost before an unknown one, then the lower cost, then the smaller name. */
  ghost predicate ComesBefore(cost: Option<int>, name: string, otherCost: Option<int>, otherName: string) {
    match (cost, otherCost)
    case (Some(_), None) => true
    case (None, Some(_)) => false
    case (None, None) => StrLe(name, otherName)
    case (Some(c), Some(d)) => c < d || (c == d && StrLe(name, otherName))
  }

  /** More required roles and the target's kind first. */
  ghost predicate IsPreferred(e: Edge, op: Operation, o: Operation) {
    var overlap := |e.requiredRoles * op.outputRoles| + if e.targetKind in op.outputEntityKinds then 1 else 0;
    var other := |e.requiredRoles * o.outputRoles| + if e.targetKind in o.outputEntityKinds then 1 else 0;
    overlap > other || (overlap == other && ComesBefore(op.cost, op.id, o.cost, o.id))
  }

  lemma AdmissibleIs(b: Binder, e: Edge, sourceKind: string, op: Operation)
    requires op in b.ops
    ensures IsAdmissible(b, e, sourceKind, op) <==> CanTest(b, e, sourceKind, op)
  {
    if e.factKinds * op.outputFactKinds != {} {
      var kind :| kind in e.factKinds * op.outputFactKinds;
      assert kind in e.factKinds && kind in op.outputFactKinds;
    }
    if kind :| kind in e.factKinds && kind in op.outputFactKinds {
      assert kind in e.factKinds * op.outputFactKinds;
    }
  }

  lemma OverlapIs(e: Edge, op: Operation)
    ensures e.requiredRoles * op.outputRoles != {} || e.targetKind in op.outputEntityKinds <==> Overlaps(e, op)
  {
    if e.requiredRoles * op.outputRoles != {} {
      var role :| role in e.requiredRoles * op.outputRoles;
      assert role in e.requiredRoles && role in op.outputRoles;
    }
    if role :| role in e.requiredRoles && role in op.outputRoles {
      assert role in e.requiredRoles * op.outputRoles;
    }
  }

  lemma EligibleIs(b: Binder, e: Edge, sourceKind: string, op: Operation)
    ensures IsEligible(b, e, sourceKind, op) <==> Competes(b, e, sourceKind, op)
  {
    forall o | o in b.ops ensures IsAdmissible(b, e, sourceKind, o) <==> CanTest(b, e, sourceKind, o) {
      AdmissibleIs(b, e, sourceKind, o);
    }
    OverlapIs(e, op);
    assert IsRoleAware(b, e, sourceKind) <==> e.requiredRoles != {} && exists o :: CanTest(b, e, sourceKind, o) && o.outputRoles != {};
  }

  lemma RankIs(e: Edge, op: Operation, o: Operation)
    ensures RankLe(OperationRank(e, op), OperationRank(e, o)) <==> IsPreferred(e, op, o)
  {
  }

  /** It competes, and is preferred to all that do. */
  ghost predicate IsMostPreferred(b: Binder, e: Edge, sourceKind: string, op: Operation) {
    Competes(b, e, sourceKind, op) && forall o :: Competes(b, e, sourceKind, o) ==> IsPreferred(e, op, o)
  }

  lemma BestIs(b: Binder, e: Edge, sourceKind: string, op: Operation)
    ensures IsBestOperation(b, e, sourceKind, op) <==> IsMostPreferred(b, e, sourceKind, op)
  {
    EligibleIs(b, e, sourceKind, op);
    forall o
      ensures IsEligible(b, e, sourceKind, o) <==> Competes(b, e, sourceKind, o)
      ensures RankLe(OperationRank(e, op), OperationRank(e, o)) <==> IsPreferred(e, op, o)
    {
      EligibleIs(b, e, sourceKind, o);
      RankIs(e, op, o);
    }
  }

  /** The selected operation can test the edge and is preferred to every other one that can; none is selected if none can. */
  ghost predicate IsPreferredSelection(b: Binder, e: Edge, sourceKind: string, r: Option<string>) {
    match r
    case None => forall op :: !Competes(b, e, sourceKind, op)
    case Some(id) => exists op :: IsMostPreferred(b, e, sourceKind, op) && op.id == id
  }

  lemma SelectionIs(b: Binder, e: Edge, sourceKind: string, r: Option<string>)
    ensures IsSelected(b, e, sourceKind, r) <==> IsPreferredSelection(b, e, sourceKind, r)
  {
    match r
    case None =>
      forall op ensures IsEligible(b, e, sourceKind, op) <==> Competes(b, e, sourceKind, op) {
        EligibleIs(b, e, sourceKind, op);
      }
    case Some(_) =>
      forall op ensures IsBestOperation(b, e, sourceKind, op) <==> IsMostPreferred(b, e, sourceKind, op) {
        BestIs(b, e, sourceKind, op);
      }
  }

  lemma SelectionIsUnique(b: Binder, e: Edge, sourceKind: string, r: Option<string>, s: Option<string>)
    requires IsSelected(b, e, sourceKind, r) && IsSelected(b, e, sourceKind, s)
    ensures r == s
  {
    if r.Some? && s.Some? {
      var x :| IsBestOperation(b, e, sourceKind, x) && x.id == r.value;
      var y :| IsBestOperation(b, e, sourceKind, y) && y.id == s.value;
      RankAntisymmetric(OperationRank(e, x), OperationRank(e, y));
    }
  }

  /** The best of the first n published operations. */
  lemma {:induction false} BestUpTo(b: Binder, e: Edge, sourceKind: string, n: nat) returns (best: Option<Operation>)
    requires n <= |b.ops|
    ensures best.None? ==> forall o :: o in b.ops[..n] ==> !IsEligible(b, e, sourceKind, o)
    ensures best.Some? ==> IsEligible(b, e, sourceKind, best.value)
    ensures best.Some? ==>
      forall o :: o in b.ops[..n] && IsEligible(b, e, sourceKind, o) ==> RankLe(OperationRank(e, best.value), OperationRank(e, o))
  {
    best := None;
    if n > 0 {
      var op := b.ops[n - 1];
      best := BestUpTo(b, e, sourceKind, n - 1);
      assert b.ops[..n] == b.ops[..n - 1] + [op];
      RankTotal(OperationRank(e, op), OperationRank(e, op));
      if best.None? {
        best := if IsEligible(b, e, sourceKind, op) then Some(op) else None;
      } else {
        var held := OperationRank(e, best.value);
        RankTotal(held, OperationRank(e, op));
        if IsEligible(b, e, sourceKind, op) && !RankLe(held, OperationRank(e, op)) {
          forall o | o in b.ops[..n - 1] && IsEligible(b, e, sourceKind, o) ensures RankLe(OperationRank(e, op), OperationRank(e, o)) {
            RankTransitive(OperationRank(e, op), held, OperationRank(e, o));
          }
          best := Some(op);
        }
      }
    }
  }

  /** The published contracts always select something, if only nothing. */
  lemma SelectionExists(b: Binder, e: Edge, sourceKind: string) returns (r: Option<string>)
    ensures IsSelected(b, e, sourceKind, r)
  {
    var best := BestUpTo(b, e, sourceKind, |b.ops|);
    assert b.ops[..|b.ops|] == b.ops;
    r := if best.Some? then Some(best.value.id) else None;
    assert best.Some? ==> IsBestOperation(b, e, sourceKind, best.value);
  }

  method SelectOperation(b: Binder, e: Edge, sourceKind: string) returns (r: Option<string>)
    ensures IsSelected(b, e, sourceKind, r)
  {
    var admissible: seq<Operation> := [];
    for i := 0 to |b.ops|
      invariant forall o :: o in admissible <==> o in b.ops[..i] && IsAdmissible(b, e, sourceKind, o)
    {
      assert b.ops[..i + 1] == b.ops[..i] + [b.ops[i]];
      if IsAdmissible(b, e, sourceKind, b.ops[i]) {
        admissible := admissible + [b.ops[i]];
      }
    }
    assert b.ops[..|b.ops|] == b.ops;
    var roleAware := e.requiredRoles != {} && exists o :: o in admissible && o.outputRoles != {};
    var best: Option<Operation> := None;
    for i := 0 to |admissible|
      invariant best.Some? ==> IsEligible(b, e, sourceKind, best.value)
      invariant best.None? ==> forall o :: o in admissible[..i] ==> !IsEligible(b, e, sourceKind, o)
      invariant best.Some? ==>
        forall o :: o in admissible[..i] && IsEligible(b, e, sourceKind, o) ==> RankLe(OperationRank(e, best.value), OperationRank(e, o))
    {
      var op := admissible[i];
      assert admissible[..i + 1] == admissible[..i] + [op];
      assert op in admissible;
      if !roleAware || e.requiredRoles * op.outputRoles != {} || e.targetKind in op.outputEntityKinds {
        RankTotal(OperationRank(e, op), OperationRank(e, op));
        if best.None? {
          best := Some(op);
        } else if !RankLe(OperationRank(e, best.value), OperationRank(e, op)) {
          RankTotal(OperationRank(e, best.value), OperationRank(e, op));
          forall o | o in admissible[..i] && IsEligible(b, e, sourceKind, o)
            ensures RankLe(OperationRank(e, op), OperationRank(e, o))
          {
            RankTransitive(OperationRank(e, op), OperationRank(e, best.value), OperationRank(e, o));
          }
          best := Some(op);
        }
      }
    }
    assert admissible[..|admissible|] == admissible;
    if best.None? {
      return None;
    }
    assert IsBestOperation(b, e, sourceKind, best.value);
    return Some(best.value.id);
  }

  // ------------------------------------------------------------ choosing a relation

  datatype Plan = Act(edge: string, operation: string) | Halt

  /** The cost of the first published operation with this name. */
  function CostOf(b: Binder, ops: seq<Operation>, name: string): Option<int> {
    if ops == [] then None
    else if ops[0].id == name && Bound(b, ops[0]) then ops[0].cost
    else CostOf(b, ops[1..], name)
  }

  /** The selected operation, or else the fallback; an empty name counts as none. */
  function OperationName(b: Binder, e: Edge, sourceKind: string, targetKind: string, selected: Option<string>): Option<string> {
    if selected.Some? && selected.value != "" then selected
    else
      match b.fallback(e, sourceKind, targetKind)
      case Some(name) => if name == "" then None else Some(name)
      case None => None
  }

  function CandidateRank(b: Binder, e: Edge, name: string): Rank {
    RankOf(if e.prerequisite then 1 else 2, CostOf(b, b.ops, name), e.id)
  }

  /** `name` is the operation that would test edge k, which is actionable and has both nodes. */
  ghost predicate IsCandidate(b: Binder, g: Graph, k: string, name: string) {
    && IsActionable(g, k)
    && var e := g.edges[k];
    && e.target in g.nodes
    && exists selected ::
         && IsSelected(b, e, g.nodes[e.source].kind, selected)
         && OperationName(b, e, g.nodes[e.source].kind, g.nodes[e.target].kind, selected) == Some(name)
  }

  ghost predicate IsPlan(b: Binder, g: Graph, plan: Plan) {
    match plan
    case Halt => forall k, name :: !IsCandidate(b, g, k, name)
    case Act(k, name) =>
      && IsCandidate(b, g, k, name)
      && forall l, other :: IsCandidate(b, g, l, other) ==>
           RankLe(CandidateRank(b, g.edges[k], name), CandidateRank(b, g.edges[l], other))
  }

  /** The name under which an edge is tested: the selected operation, or what the fixed mapping says; never a blank. */
  ghost predicate IsNamedFor(b: Binder, g: Graph, k: string, name: string)
    requires k in g.edges && g.edges[k].source in g.nodes && g.edges[k].target in g.nodes
  {
    var e := g.edges[k];
    var source, target := g.nodes[e.source].kind, g.nodes[e.target].kind;
    && |name| > 0
    && exists selected :: IsPreferredSelection(b, e, source, selected)
                          && (selected == Some(name) || (selected in {None, Some("")} && b.fallback(e, source, target) == Some(name)))
  }

  /** An unproven edge with a KNOWN source and a stored target can be tested under this name. */
  ghost predicate CanBeTested(b: Binder, g: Graph, k: string, name: string) {
    && k in g.edges && g.edges[k].status in {Unproven, Hypothesized}
    && g.edges[k].source in g.nodes && g.nodes[g.edges[k].source].status == NodeStatus.Known
    && g.edges[k].target in g.nodes && IsNamedFor(b, g, k, name)
  }

  lemma CandidateIs(b: Binder, g: Graph, k: string, name: string)
    ensures IsCandidate(b, g, k, name) <==> CanBeTested(b, g, k, name)
  {
    if IsActionable(g, k) && g.edges[k].target in g.nodes {
      var e := g.edges[k];
      forall r ensures IsSelected(b, e, g.nodes[e.source].kind, r) <==> IsPreferredSelection(b, e, g.nodes[e.source].kind, r) {
        SelectionIs(b, e, g.nodes[e.source].kind, r);
      }
    }
  }

  /** Prerequisites first, then by cost and by the edge's own name. */
  ghost predicate IsTestedBefore(b: Binder, e: Edge, name: string, f: Edge, other: string) {
    || (e.prerequisite && !f.prerequisite)
    || (e.prerequisite == f.prerequisite && ComesBefore(CostOf(b, b.ops, name), e.id, CostOf(b, b.ops, other), f.id))
  }

  lemma CandidateRankIs(b: Binder, e: Edge, name: string, f: Edge, other: string)
    ensures RankLe(CandidateRank(b, e, name), CandidateRank(b, f, other)) <==> IsTestedBefore(b, e, name, f, other)
  {
  }

  /** The plan is to test the edge that comes before every other one that can be tested, or to halt if there is none. */
  lemma PlanIs(b: Binder, g: Graph, plan: Plan)
    ensures IsPlan(b, g, plan) <==>
      match plan
      case Halt => forall k, name :: !CanBeTested(b, g, k, name)
      case Act(k, name) =>
        CanBeTested(b, g, k, name)
        && forall l, other :: CanBeTested(b, g, l, other) ==> IsTestedBefore(b, g.edges[k], name, g.edges[l], other)
  {
    forall k, name ensures IsCandidate(b, g, k, name) <==> CanBeTested(b, g, k, name) {
      CandidateIs(b, g, k, name);
    }
    if plan.Act? && plan.edge in g.edges {
      forall l, other | l in g.edges
        ensures RankLe(CandidateRank(b, g.edges[plan.edge], plan.operation), CandidateRank(b, g.edges[l], other))
          <==> IsTestedBefore(b, g.edges[plan.edge], plan.operation, g.edges[l], other)
      {
        CandidateRankIs(b, g.edges[plan.edge], plan.operation, g.edges[l], other);
      }
    }
  }

  lemma CandidateNameIsUnique(b: Binder, g: Graph, k: string, name: string, other: string)
    requires IsCandidate(b, g, k, name) && IsCandidate(b, g, k, other)
    ensures name == other
  {
    var e := g.edges[k];
    var kind := g.nodes[e.source].kind;
    var r :| IsSelected(b, e, kind, r) && OperationName(b, e, kind, g.nodes[e.target].kind, r) == Some(name);
    var s :| IsSelected(b, e, kind, s) && OperationName(b, e, kind, g.nodes[e.target].kind, s) == Some(other);
    SelectionIsUnique(b, e, kind, r, s);
  }

  /** The stored edges determine the plan, whatever order they are visited in. */
  lemma PlanIsUnique(b: Binder, g: Graph, p: Plan, q: Plan)
    requires KeyedById(g) && IsPlan(b, g, p) && IsPlan(b, g, q)
    ensures p == q
  {
    if p.Act? && q.Act? {
      RankAntisymmetric(CandidateRank(b, g.edges[p.edge], p.operation), CandidateRank(b, g.edges[q.edge], q.operation));
      assert p.edge == q.edge;
      CandidateNameIsUnique(b, g, p.edge, p.operation, q.operation);
    }
  }

  predicate Bound(b: Binder, op: Operation) {
    b.provider == "" || op.provider == b.provider
  }

  /** Names identify the operations of the bound provider. */
  ghost predicate DistinctNames(b: Binder, ops: seq<Operation>) {
    forall i, j :: 0 <= i < |ops| && 0 <= j < |ops| && Bound(b, ops[i]) && Bound(b, ops[j]) && ops[i].id == ops[j].id ==>
      ops[i] == ops[j]
  }

  lemma {:induction false} CostIsFound(b: Binder, ops: seq<Operation>, name: string) returns (at: Option<nat>)
    ensures at.Some? ==> at.value < |ops| && ops[at.value].id == name && Bound(b, ops[at.value])
    ensures at.Some? ==> CostOf(b, ops, name) == ops[at.value].cost
    ensures at.None? ==> CostOf(b, ops, name) == None
    ensures at.None? ==> forall o :: o in ops ==> o.id != name || !Bound(b, o)
  {
    if ops == [] {
      at := None;
    } else if ops[0].id == name && Bound(b, ops[0]) {
      at := Some(0);
    } else {
      var rest := CostIsFound(b, ops[1..], name);
      at := if rest.Some? then Some(rest.value + 1) else None;
      assert ops == [ops[0]] + ops[1..];
    }
  }

  lemma CostIgnoresOrder(b: Binder, ops: seq<Operation>, name: string)
    requires DistinctNames(b, b.ops) && forall o :: o in ops <==> o in b.ops
    ensures CostOf(b, ops, name) == CostOf(b, b.ops, name)
  {
    var i := CostIsFound(b, b.ops, name);
    var j := CostIsFound(b, ops, name);
    assert j.Some? ==> ops[j.value] in b.ops;
    assert i.Some? ==> b.ops[i.value] in ops;
  }

  lemma SelectionIgnoresOrder(b: Binder, c: Binder, e: Edge, sourceKind: string, r: Option<string>)
    requires c.provider == b.provider && forall o :: o in c.ops <==> o in b.ops
    requires IsSelected(b, e, sourceKind, r)
    ensures IsSelected(c, e, sourceKind, r)
  {
    assert IsRoleAware(b, e, sourceKind) == IsRoleAware(c, e, sourceKind);
    assert forall o :: IsEligible(c, e, sourceKind, o) <==> IsEligible(b, e, sourceKind, o);
    if r.Some? {
      var op :| IsBestOperation(b, e, sourceKind, op) && op.id == r.value;
      assert IsBestOperation(c, e, sourceKind, op);
    }
  }

  lemma CandidatesIgnoreOrder(b: Binder, c: Binder, g: Graph, k: string, name: string)
    requires c.provider == b.provider && c.fallback == b.fallback && forall o :: o in c.ops <==> o in b.ops
    requires IsCandidate(b, g, k, name)
    ensures IsCandidate(c, g, k, name)
  {
    var e := g.edges[k];
    var r :| IsSelected(b, e, g.nodes[e.source].kind, r)
      && OperationName(b, e, g.nodes[e.source].kind, g.nodes[e.target].kind, r) == Some(name);
    SelectionIgnoresOrder(b, c, e, g.nodes[e.source].kind, r);
    assert OperationName(c, e, g.nodes[e.source].kind, g.nodes[e.target].kind, r) == Some(name);
  }

  /** Publishing the same operations in another order changes neither the edge nor the operation. */
  lemma PlanIgnoresOperationOrder(b: Binder, c: Binder, g: Graph, p: Plan)
    requires c.provider == b.provider && c.fallback == b.fallback && forall o :: o in c.ops <==> o in b.ops
    requires DistinctNames(b, b.ops) && IsPlan(b, g, p)
    ensures IsPlan(c, g, p)
  {
    forall k, name ensures IsCandidate(b, g, k, name) <==> IsCandidate(c, g, k, name) {
      if IsCandidate(b, g, k, name) {
        CandidatesIgnoreOrder(b, c, g, k, name);
      }
      if IsCandidate(c, g, k, name) {
        CandidatesIgnoreOrder(c, b, g, k, name);
      }
    }
    forall e: Edge, name ensures CandidateRank(b, e, name) == CandidateRank(c, e, name) {
      CostIgnoresOrder(b, c.ops, name);
      CostIgnoresProvider(b, c, c.ops, name);
    }
  }

  lemma {:induction false} CostIgnoresProvider(b: Binder, c: Binder, ops: seq<Operation>, name: string)
    requires b.provider == c.provider
    ensures CostOf(b, ops, name) == CostOf(c, ops, name)
  {
    if ops != [] {
      CostIgnoresProvider(b, c, ops[1..], name);
    }
  }

  method CreateCandidate(b: Binder, g: Graph, e: Edge) returns (name: Option<string>)
    requires IsActionable(g, e.id) && g.edges[e.id] == e && e.target in g.nodes
    ensures name.Some? ==> IsCandidate(b, g, e.id, name.value)
    ensures name.None? ==> forall n :: !IsCandidate(b, g, e.id, n)
  {
    var kind, targetKind := g.nodes[e.source].kind, g.nodes[e.target].kind;
    var selected := SelectOperation(b, e, kind);
    name := OperationName(b, e, kind, targetKind, selected);
    if name.None? {
      forall n ensures !IsCandidate(b, g, e.id, n) {
        if IsCandidate(b, g, e.id, n) {
          var r :| IsSelected(b, e, kind, r) && OperationName(b, e, kind, targetKind, r) == Some(n);
          SelectionIsUnique(b, e, kind, r, selected);
        }
      }
    }
  }

  /** The plan is best among the candidates of some edges. */
  ghost predicate IsBestOf(b: Binder, g: Graph, seen: set<string>, plan: Plan) {
    match plan
    case Halt => forall k, n :: k in seen ==> !IsCandidate(b, g, k, n)
    case Act(held, name) =>
      && IsCandidate(b, g, held, name)
      && forall k, n :: k in seen && IsCandidate(b, g, k, n) ==>
           RankLe(CandidateRank(b, g.edges[held], name), CandidateRank(b, g.edges[k], n))
  }

  lemma BestOfActionable(b: Binder, g: Graph, seen: set<string>, plan: Plan)
    requires IsBestOf(b, g, seen, plan) && forall k :: IsActionable(g, k) ==> k in seen
    ensures IsPlan(b, g, plan)
  {
  }

  /** The better of the plan so far and one more candidate. */
  function BetterOf(b: Binder, g: Graph, plan: Plan, k: string, name: string): Plan
    requires k in g.edges && (plan.Act? ==> plan.edge in g.edges)
  {
    if plan.Act? && RankLe(CandidateRank(b, g.edges[plan.edge], plan.operation), CandidateRank(b, g.edges[k], name)) then plan
    else Act(k, name)
  }

  lemma BetterIsBest(b: Binder, g: Graph, seen: set<string>, plan: Plan, k: string, name: string)
    requires IsCandidate(b, g, k, name) && IsBestOf(b, g, seen, plan)
    ensures IsBestOf(b, g, seen + {k}, BetterOf(b, g, plan, k, name))
  {
    var rank := CandidateRank(b, g.edges[k], name);
    RankTotal(rank, rank);
    forall n | IsCandidate(b, g, k, n) ensures n == name {
      CandidateNameIsUnique(b, g, k, n, name);
    }
    if plan.Act? {
      var held := CandidateRank(b, g.edges[plan.edge], plan.operation);
      RankTotal(held, rank);
      if !RankLe(held, rank) {
        forall e, n | e in seen && IsCandidate(b, g, e, n) ensures RankLe(rank, CandidateRank(b, g.edges[e], n)) {
          RankTransitive(rank, held, CandidateRank(b, g.edges[e], n));
        }
      }
    }
  }

  /** Among any edges there is a best candidate, or none. */
  lemma {:induction false} BestExists(b: Binder, g: Graph, edges: set<string>) returns (plan: Plan)
    ensures IsBestOf(b, g, edges, plan)
  {
    if edges == {} {
      plan := Halt;
    } else {
      var k :| k in edges;
      var rest := BestExists(b, g, edges - {k});
      assert edges == edges - {k} + {k};
      if name :| IsCandidate(b, g, k, name) {
        BetterIsBest(b, g, edges - {k}, rest, k, name);
        plan := BetterOf(b, g, rest, k, name);
      } else {
        plan := rest;
      }
    }
  }

  /** The planner always has an answer. */
  lemma PlanExists(b: Binder, g: Graph) returns (plan: Plan)
    ensures IsPlan(b, g, plan)
  {
    plan := BestExists(b, g, g.edges.Keys);
    BestOfActionable(b, g, g.edges.Keys, plan);
  }

  method SelectAction(b: Binder, graph: InvestigationGraph) returns (plan: Plan)
    requires KeyedById(graph.View())
    ensures IsPlan(b, graph.View(), plan)
  {
    var g := graph.View();
    var edges := graph.GetUnprovenEdges(true);
    plan := Halt;
    ghost var seen: set<string> := {};
    for i := 0 to |edges|
      invariant seen == set e | e in edges[..i] :: e.id
      invariant IsBestOf(b, g, seen, plan)
    {
      var e := edges[i];
      assert edges[..i + 1] == edges[..i] + [e];
      assert e in edges;
      if e.target in g.nodes {
        var name := CreateCandidate(b, g, e);
        if name.Some? {
          BetterIsBest(b, g, seen, plan, e.id, name.value);
          plan := BetterOf(b, g, plan, e.id, name.value);
        }
      }
      seen := seen + {e.id};
    }
    forall k | IsActionable(g, k) ensures k in seen {
      assert g.edges[k] in edges && edges[..|edges|] == edges;
    }
    BestOfActionable(b, g, seen, plan);
  }
}
