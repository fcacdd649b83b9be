/**
 * Claims and the acceptance test for a claim plan.
 * A plan is accepted only if its dependency relation passes a depth-first cycle check.
 */
module Claims {
  import opened Text

  datatype ClaimStatus = Unproven | Supported | Refuted | Partial | Unknown | Inconclusive

  datatype Requirement = Requirement(
    factKind: string, fieldRoles: seq<string>, requiredRoles: seq<string>, complete: bool)

  datatype Claim = Claim(
    id: string,
    sourceRequest: string,
    subject: string,
    objectOrValue: Option<string>,
    valueType: Option<string>,
    dependencies: seq<string>,
    acceptanceRoles: seq<string>,
    acceptanceComplete: bool,
    requirements: seq<Requirement>,
    optional: bool,
    prerequisite: bool,
    status: ClaimStatus)

  predicate IsResolved(c: Claim) {
    c.status in {Supported, Refuted, ClaimStatus.Unknown, Inconclusive}
  }

  type Adjacency = map<string, seq<string>>

  function Deps(adj: Adjacency, node: string): seq<string> {
    if node in adj then adj[node] else []
  }

  ghost predicate IsWalk(adj: Adjacency, p: seq<string>) {
    forall i :: 0 < i < |p| ==> p[i] in Deps(adj, p[i - 1])
  }

  ghost predicate IsCycle(adj: Adjacency, p: seq<string>) {
    |p| >= 2 && p[0] == p[|p| - 1] && IsWalk(adj, p)
  }

  ghost predicate Acyclic(adj: Adjacency) {
    forall p :: !IsCycle(adj, p)
  }

  ghost predicate Distinct<T(!new)>(s: seq<T>) {
    forall i, j :: 0 <= i < j < |s| ==> s[i] != s[j]
  }

  /** Every dependency of an entry is an earlier entry. */
  ghost predicate IsTopological(adj: Adjacency, order: seq<string>) {
    && Distinct(order)
    && forall i, d :: 0 <= i < |order| && d in Deps(adj, order[i]) ==> d in order[..i]
  }

  ghost function Elems<T>(s: seq<T>): set<T> { set x | x in s }

  // ------------------------------------------------------------ topological orders and cycles

  /** Along a walk the position in a topological order strictly falls. */
  lemma {:induction false} WalkDescends(adj: Adjacency, order: seq<string>, p: seq<string>, at: nat) returns (end: nat)
    requires IsTopological(adj, order) && IsWalk(adj, p) && |p| >= 2
    requires at < |order| && order[at] == p[0]
    ensures end < at && order[end] == p[|p| - 1]
  {
    assert p[1] in Deps(adj, p[0]);
    assert p[1] in order[..at];
    var next: nat :| next < at && order[next] == p[1];
    if |p| == 2 {
      end := next;
    } else {
      var tail := p[1..];
      forall i | 0 < i < |tail| ensures tail[i] in Deps(adj, tail[i - 1]) {
        assert p[i + 1] in Deps(adj, p[i]);
      }
      end := WalkDescends(adj, order, tail, next);
    }
  }

  /** A topological order that covers every node with dependencies is a certificate of acyclicity. */
  lemma TopologicalOrderExcludesCycles(adj: Adjacency, order: seq<string>)
    requires IsTopological(adj, order) && adj.Keys <= Elems(order)
    ensures Acyclic(adj)
  {
    forall p | |p| >= 2 && IsWalk(adj, p) ensures p[0] != p[|p| - 1] {
      assert p[1] in Deps(adj, p[0]);
      var at: nat :| at < |order| && order[at] == p[0];
      var end := WalkDescends(adj, order, p, at);
    }
  }

  lemma PrefixIsWalk(adj: Adjacency, p: seq<string>, n: nat)
    requires IsWalk(adj, p) && n <= |p|
    ensures IsWalk(adj, p[..n])
  {
    forall i | 0 < i < n ensures p[..n][i] in Deps(adj, p[..n][i - 1]) {
      assert p[i] in Deps(adj, p[i - 1]);
    }
  }

  lemma ElemsAppend<T>(s: seq<T>, x: T)
    ensures Elems(s + [x]) == Elems(s) + {x}
  {
  }

  lemma ExtendOrder(adj: Adjacency, order: seq<string>, node: string)
    requires IsTopological(adj, order) && node !in order
    requires forall d :: d in Deps(adj, node) ==> d in order
    ensures IsTopological(adj, order + [node])
    ensures Elems(order + [node]) == Elems(order) + {node}
  {
    var longer := order + [node];
    forall i, d | 0 <= i < |longer| && d in Deps(adj, longer[i]) ensures d in longer[..i] {
      if i < |order| {
        assert d in order[..i];
        assert longer[..i] == order[..i];
      } else {
        assert longer[..i] == order;
      }
    }
  }

  /** Meeting a node that is still on the stack closes a cycle. */
  lemma StackClosesCycle(adj: Adjacency, stack: seq<string>, node: string) returns (cycle: seq<string>)
    requires IsWalk(adj, stack) && node in stack && node in Deps(adj, stack[|stack| - 1])
    ensures IsCycle(adj, cycle) && cycle[0] == node
  {
    var k :| 0 <= k < |stack| && stack[k] == node;
    cycle := stack[k..] + [node];
  }

  // ------------------------------------------------------------ the depth-first check

  class CycleValidator {
    const adj: Adjacency
    var visited: set<string>
    var inStack: set<string>
    ghost var stack: seq<string>
    ghost var order: seq<string>

    constructor (adj: Adjacency)
      ensures this.adj == adj && visited == {} && inStack == {} && stack == [] && order == []
      ensures Valid()
    {
      this.adj := adj;
      visited, inStack, stack, order := {}, {}, [], [];
    }

    ghost function Universe(): set<string> {
      adj.Keys + set k, d | k in adj.Keys && d in adj[k] :: d
    }

    ghost predicate Valid()
      reads this
    {
      && inStack == Elems(stack)
      && inStack !! Elems(order)
      && visited == inStack + Elems(order)
      && visited <= Universe()
      && IsWalk(adj, stack)
      && IsTopological(adj, order)
    }

    /** Marks a new node as visited and on the stack. */
    method Enter(node: string)
      requires Valid() && node in Universe() && node !in visited
      requires stack == [] || node in Deps(adj, stack[|stack| - 1])
      modifies this
      ensures Valid() && stack == old(stack) + [node] && order == old(order)
      ensures visited == old(visited) + {node}
    {
      visited := visited + {node};
      inStack := inStack + {node};
      stack := stack + [node];
      ElemsAppend(old(stack), node);
    }

    /** Takes a finished node off the stack. */
    method Leave(node: string, ghost below: seq<string>)
      requires Valid() && stack == below + [node] && node !in below
      requires forall d :: d in Deps(adj, node) ==> d in order
      modifies this
      ensures Valid() && stack == below && visited == old(visited)
      ensures order == old(order) + [node]
    {
      ElemsAppend(below, node);
      PrefixIsWalk(adj, stack, |below|);
      assert node in inStack && stack[..|below|] == below;
      ExtendOrder(adj, order, node);
      inStack := inStack - {node};
      stack := below;
      order := order + [node];
    }

    /** None when every node below `node` was finished, Some(n) for the cycle error on node n. */
    method Dfs(node: string) returns (bad: Option<string>, ghost cycle: seq<string>)
      requires Valid() && node in Universe()
      requires stack == [] || node in Deps(adj, stack[|stack| - 1])
      modifies this
      decreases Universe() - visited
      ensures bad.Some? ==> IsCycle(adj, cycle) && cycle[0] == bad.value
      ensures bad.None? ==> Valid() && stack == old(stack) && old(order) <= order && node in order
      ensures bad.None? ==> old(visited) <= visited
    {
      if node in inStack {
        cycle := StackClosesCycle(adj, stack, node);
        return Some(node), cycle;
      }
      cycle := [];
      if node in visited {
        return None, cycle;
      }
      Enter(node);
      var deps := Deps(adj, node);
      ghost var before := order;
      for i := 0 to |deps|
        invariant Valid() && stack == old(stack) + [node] && before <= order
        invariant old(visited) + {node} <= visited
        invariant forall j :: 0 <= j < i ==> deps[j] in order
      {
        assert node in adj && deps[i] in adj[node];
        bad, cycle := Dfs(deps[i]);
        if bad.Some? {
          return;
        }
      }
      Leave(node, old(stack));
      bad := None;
    }

    /** The ids are visited in any order: the verdict depends on the relation only. */
    method Validate(ids: set<string>) returns (bad: Option<string>)
      requires Valid() && visited == {} && stack == [] && order == []
      requires ids == adj.Keys
      modifies this
      ensures bad.None? <==> Acyclic(adj)
      ensures bad.None? ==> IsTopological(adj, order) && adj.Keys <= Elems(order)
      ensures bad.Some? ==> exists p :: IsCycle(adj, p) && p[0] == bad.value
    {
      var remaining := ids;
      while remaining != {}
        invariant remaining <= ids && Valid() && stack == []
        invariant ids - remaining <= Elems(order)
      {
        var cid :| cid in remaining;
        remaining := remaining - {cid};
        if cid !in visited {
          ghost var cycle;
          bad, cycle := Dfs(cid);
          if bad.Some? {
            assert IsCycle(adj, cycle);
            return;
          }
        }
      }
      TopologicalOrderExcludesCycles(adj, order);
      bad := None;
    }
  }

  // ------------------------------------------------------------ accepting a plan

  /** The texts of a plan besides its claims. */
  datatype PlanText = PlanText(id: string, request: string, objective: string)

  datatype PlanVerdict =
    | Accepted
    | BlankText
    | NativeObjective
    | DuplicateId(id: string)
    | ForeignRequest(id: string)
    | UnknownDependency(id: string, dep: string)
    | Cyclic(id: string)

  ghost predicate DistinctIds(claims: seq<Claim>) {
    forall i, j :: 0 <= i < j < |claims| ==> claims[i].id != claims[j].id
  }

  ghost predicate FromRequest(request: string, claims: seq<Claim>) {
    forall c :: c in claims ==> c.prerequisite || c.sourceRequest == request
  }

  ghost function Ids(claims: seq<Claim>): set<string> { set c | c in claims :: c.id }

  ghost predicate KnownDependencies(claims: seq<Claim>) {
    forall c, d :: c in claims && d in c.dependencies ==> d in Ids(claims)
  }

  /** c depends directly on d. */
  ghost predicate DependsOn(claims: seq<Claim>, c: string, d: string) {
    exists i :: 0 <= i < |claims| && claims[i].id == c && d in claims[i].dependencies
  }

  ghost predicate ClosedDependencyWalk(claims: seq<Claim>, p: seq<string>) {
    && |p| >= 2 && p[0] == p[|p| - 1]
    && forall i :: 0 < i < |p| ==> DependsOn(claims, p[i - 1], p[i])
  }

  ghost predicate NoCircularDependency(claims: seq<Claim>) {
    forall p :: !ClosedDependencyWalk(claims, p)
  }

  method CheckOrigins(request: string, claims: seq<Claim>) returns (v: PlanVerdict, seen: set<string>)
    ensures v.Accepted? <==> DistinctIds(claims) && FromRequest(request, claims)
    ensures v.Accepted? ==> seen == Ids(claims)
    ensures v.Accepted? || v.DuplicateId? || v.ForeignRequest?
  {
    seen := {};
    for i := 0 to |claims|
      invariant seen == Ids(claims[..i])
      invariant DistinctIds(claims[..i]) && FromRequest(request, claims[..i])
    {
      var c := claims[i];
      assert claims[..i + 1] == claims[..i] + [c];
      if c.id in seen {
        var k :| 0 <= k < i && claims[k].id == c.id;
        return DuplicateId(c.id), seen;
      }
      seen := seen + {c.id};
      if !c.prerequisite && c.sourceRequest != request {
        assert c in claims;
        return ForeignRequest(c.id), seen;
      }
    }
    assert claims[..|claims|] == claims;
    v := Accepted;
  }

  method CheckDependencies(claims: seq<Claim>, seen: set<string>) returns (v: PlanVerdict)
    requires seen == Ids(claims)
    ensures v.Accepted? <==> KnownDependencies(claims)
    ensures v.Accepted? || v.UnknownDependency?
  {
    for i := 0 to |claims|
      invariant forall k, d :: 0 <= k < i && d in claims[k].dependencies ==> d in seen
    {
      var deps := claims[i].dependencies;
      for j := 0 to |deps|
        invariant forall k :: 0 <= k < j ==> deps[k] in seen
      {
        if deps[j] !in seen {
          assert claims[i] in claims && deps[j] in claims[i].dependencies;
          return UnknownDependency(claims[i].id, deps[j]);
        }
      }
    }
    v := Accepted;
  }

  method BuildAdjacency(claims: seq<Claim>) returns (adj: Adjacency)
    requires DistinctIds(claims)
    ensures Represents(adj, claims)
  {
    adj := map[];
    for i := 0 to |claims|
      invariant Represents(adj, claims[..i])
    {
      assert claims[..i + 1] == claims[..i] + [claims[i]];
      adj := adj[claims[i].id := claims[i].dependencies];
    }
    assert claims[..|claims|] == claims;
  }

  /** No text is blank, and the objective holds no provider syntax. */
  predicate IsReadable(text: PlanText, isNative: string -> bool) {
    Strip(text.id) != "" && Strip(text.request) != "" && Strip(text.objective) != "" && !isNative(text.objective)
  }

  method CheckText(text: PlanText, isNative: string -> bool) returns (v: PlanVerdict)
    ensures v.Accepted? <==> IsReadable(text, isNative)
    ensures v.Accepted? || v.BlankText? || v.NativeObjective?
  {
    if Strip(text.id) == "" || Strip(text.request) == "" || Strip(text.objective) == "" {
      return BlankText;
    }
    v := if isNative(text.objective) then NativeObjective else Accepted;
  }

  /**
   * A plan is accepted exactly when its texts are readable, its ids, origins and dependencies are sound and
   * nothing is circular. `isNative` recognises provider syntax.
   */
  method AcceptPlan(text: PlanText, isNative: string -> bool, claims: seq<Claim>) returns (v: PlanVerdict)
    ensures v.Accepted? <==>
      && IsReadable(text, isNative) && DistinctIds(claims) && FromRequest(text.request, claims)
      && KnownDependencies(claims) && NoCircularDependency(claims)
    ensures v.Cyclic? ==> exists p :: v.id in p && ClosedDependencyWalk(claims, p)
  {
    v := CheckText(text, isNative);
    if !v.Accepted? {
      return;
    }
    var seen;
    v, seen := CheckOrigins(text.request, claims);
    if !v.Accepted? {
      return;
    }
    v := CheckDependencies(claims, seen);
    if !v.Accepted? {
      return;
    }
    var adj := BuildAdjacency(claims);
    AdjacencyIsDependency(claims, adj);
    var validator := new CycleValidator(adj);
    var bad := validator.Validate(seen);
    if bad.Some? {
      ghost var p :| IsCycle(adj, p) && p[0] == bad.value;
      assert ClosedDependencyWalk(claims, p) && bad.value in p;
      return Cyclic(bad.value);
    }
  }

  ghost predicate Represents(adj: Adjacency, claims: seq<Claim>) {
    && adj.Keys == Ids(claims)
    && forall k :: 0 <= k < |claims| ==> claims[k].id in adj && adj[claims[k].id] == claims[k].dependencies
  }

  lemma AdjacencyIsDependency(claims: seq<Claim>, adj: Adjacency)
    requires DistinctIds(claims) && Represents(adj, claims)
    ensures forall p :: IsCycle(adj, p) <==> ClosedDependencyWalk(claims, p)
    ensures Acyclic(adj) <==> NoCircularDependency(claims)
  {
    forall c, d ensures d in Deps(adj, c) <==> DependsOn(claims, c, d) {
      if c in adj {
        var i :| 0 <= i < |claims| && claims[i].id == c;
        assert adj[c] == claims[i].dependencies;
      }
    }
  }
}
