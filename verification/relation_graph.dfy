/**
 * The relation graph and its depth-first path search,
 * which decides whether an acceptance criterion is backed by a proven path.
 */
module RelationPaths {
  import opened Text

  datatype Status = Known | Unknown | Conflicting

  datatype Node = Node(id: string, kind: string, status: Status)

  datatype Edge = Edge(id: string, source: string, target: string, status: Status)

  /** A contiguous chain of stored KNOWN edges from a to b. */
  ghost predicate IsChain(edges: seq<Edge>, path: seq<Edge>, a: string, b: string) {
    if path == [] then a == b
    else
      && path[0] in edges && path[0].status == Known && path[0].source == a
      && IsChain(edges, path[1..], path[0].target, b)
  }

  ghost predicate Reachable(edges: seq<Edge>, a: string, b: string) {
    exists path :: IsChain(edges, path, a, b)
  }

  /** The chain never meets the same node twice. */
  ghost predicate IsSimple(path: seq<Edge>, end: string) {
    && (forall i, j :: 0 <= i < j < |path| ==> path[i].source != path[j].source)
    && forall i :: 0 <= i < |path| ==> path[i].source != end
  }

  function EdgesFrom(edges: seq<Edge>, source: string): (r: seq<Edge>)
    ensures forall e :: e in r <==> e in edges && e.source == source
  {
    if edges == [] then []
    else
      var rest := EdgesFrom(edges[1..], source);
      assert edges == [edges[0]] + edges[1..];
      if edges[0].source == source then [edges[0]] + rest else rest
  }

  /** Every KNOWN edge out of a node of `inside` stays in `closed` and avoids `end`. */
  ghost predicate Explored(edges: seq<Edge>, inside: set<string>, closed: set<string>, end: string) {
    forall e :: e in edges && e.status == Known && e.source in inside ==> e.target in closed && e.target != end
  }

  lemma {:induction false} ClosedSetTrapsChains(edges: seq<Edge>, closed: set<string>, path: seq<Edge>, a: string, b: string)
    requires Explored(edges, closed, closed, b) && a in closed && a != b
    ensures !IsChain(edges, path, a, b)
  {
    if IsChain(edges, path, a, b) {
      assert path[0].target in closed;
      ClosedSetTrapsChains(edges, closed, path[1..], path[0].target, b);
    }
  }

  /** The mutable set that every recursive call of the search shares. */
  class Visited {
    var ids: set<string>

    constructor ()
      ensures ids == {}
    {
      ids := {};
    }
  }

  class RelationGraph {
    var nodes: seq<Node>
    var edges: seq<Edge>

    constructor ()
      ensures nodes == [] && edges == []
    {
      nodes, edges := [], [];
    }

    /** Ids are keys: at most one stored node and one stored edge carries each id. */
    ghost predicate Valid()
      reads this
    {
      && (forall i, j :: 0 <= i < j < |edges| ==> edges[i].id != edges[j].id)
      && forall i, j :: 0 <= i < j < |nodes| ==> nodes[i].id != nodes[j].id
    }

    /** Replaces the node with the same id in place, or appends. */
    method AddNode(node: Node)
      requires Valid()
      modifies this`nodes
      ensures Valid()
      ensures node in nodes
      ensures forall n: Node :: n.id != node.id ==> (n in nodes <==> n in old(nodes))
      ensures (exists i :: 0 <= i < |old(nodes)| && old(nodes)[i].id == node.id && nodes == old(nodes)[i := node])
        || ((forall n :: n in old(nodes) ==> n.id != node.id) && nodes == old(nodes) + [node])
    {
      var i := 0;
      while i < |nodes| && nodes[i].id != node.id
        invariant 0 <= i <= |nodes|
        invariant forall k :: 0 <= k < i ==> nodes[k].id != node.id
      {
        i := i + 1;
      }
      if i < |nodes| {
        ghost var was := nodes;
        nodes := nodes[i := node];
        assert nodes[i] == node;
        forall n: Node | n.id != node.id && n in was ensures n in nodes {
          var k :| 0 <= k < |was| && was[k] == n;
          assert nodes[k] == n;
        }
      } else {
        nodes := nodes + [node];
      }
    }

    /** Replaces the edge with the same id in place, or appends. */
    method AddEdge(edge: Edge)
      requires Valid()
      modifies this`edges
      ensures Valid()
      ensures edge in edges
      ensures forall e: Edge :: e.id != edge.id ==> (e in edges <==> e in old(edges))
      ensures (exists i :: 0 <= i < |old(edges)| && old(edges)[i].id == edge.id && edges == old(edges)[i := edge])
        || ((forall e :: e in old(edges) ==> e.id != edge.id) && edges == old(edges) + [edge])
    {
      var i := 0;
      while i < |edges| && edges[i].id != edge.id
        invariant 0 <= i <= |edges|
        invariant forall k :: 0 <= k < i ==> edges[k].id != edge.id
      {
        i := i + 1;
      }
      if i < |edges| {
        ghost var was := edges;
        edges := edges[i := edge];
        assert edges[i] == edge;
        forall e: Edge | e.id != edge.id && e in was ensures e in edges {
          var k :| 0 <= k < |was| && was[k] == e;
          assert edges[k] == e;
        }
      } else {
        edges := edges + [edge];
      }
    }

    ghost function Targets(): set<string>
      reads this
    {
      set e | e in edges :: e.target
    }

    method Search(start: string, end: string, visited: Visited) returns (path: Option<seq<Edge>>)
      requires start !in visited.ids
      modifies visited
      decreases Targets() + {start} - visited.ids
      ensures old(visited.ids) <= visited.ids
      ensures path.Some? ==> IsChain(edges, path.value, start, end) && IsSimple(path.value, end)
      ensures path.Some? ==> forall e :: e in path.value ==> e.source !in old(visited.ids)
      ensures path.None? ==> start in visited.ids && start != end
      ensures path.None? ==> Explored(edges, visited.ids - old(visited.ids), visited.ids, end)
    {
      if start == end {
        return Some([]);
      }
      visited.ids := visited.ids + {start};
      ghost var entered := visited.ids;
      var out := EdgesFrom(edges, start);
      for i := 0 to |out|
        invariant entered <= visited.ids
        invariant forall k :: 0 <= k < i && out[k].status == Known ==> out[k].target in visited.ids && out[k].target != end
        invariant Explored(edges, visited.ids - entered, visited.ids, end)
      {
        var edge := out[i];
        assert edge in edges && edge.source == start;
        if edge.status == Known {
          if edge.target == end {
            return Some([edge]);
          }
          if edge.target !in visited.ids {
            var sub := Search(edge.target, end, visited);
            if sub.Some? {
              return Some([edge] + sub.value);
            }
          }
        }
      }
      return None;
    }

    /** A simple KNOWN chain, or a proof that there is none. */
    method FindPath(start: string, end: string) returns (path: Option<seq<Edge>>)
      ensures path.Some? ==> IsChain(edges, path.value, start, end) && IsSimple(path.value, end)
      ensures path.Some? <==> Reachable(edges, start, end)
    {
      var visited := new Visited();
      path := Search(start, end, visited);
      if path.None? {
        forall p ensures !IsChain(edges, p, start, end) {
          ClosedSetTrapsChains(edges, visited.ids, p, start, end);
        }
      } else {
        assert IsChain(edges, path.value, start, end);
      }
    }

    /** The planner's test that one criterion is backed by a proven path. */
    method CriterionMet(criterion: seq<string>) returns (met: bool)
      ensures met <==> (|criterion| >= 2 ==> Proven(nodes, edges, criterion[0], criterion[|criterion| - 1]))
      ensures |criterion| >= 2 && criterion[0] == criterion[|criterion| - 1] ==> !met
    {
      if |criterion| < 2 {
        return true;
      }
      var start, end := FirstKnown(nodes, criterion[0]), FirstKnown(nodes, criterion[|criterion| - 1]);
      if start.None? || end.None? {
        return false;
      }
      var path := FindPath(start.value.id, end.value.id);
      met := path.Some? && path.value != [];
      if path.Some? {
        assert path.value != [] ==> path.value[0].source == start.value.id;
      }
    }

    /** True iff every criterion that names a path has one. */
    method AllCriteriaMet(criteria: seq<seq<string>>) returns (met: bool)
      ensures met <==> forall c :: c in criteria && |c| >= 2 ==> Proven(nodes, edges, c[0], c[|c| - 1])
    {
      for i := 0 to |criteria|
        invariant forall k :: 0 <= k < i && |criteria[k]| >= 2 ==>
          Proven(nodes, edges, criteria[k][0], criteria[k][|criteria[k]| - 1])
      {
        var ok := CriterionMet(criteria[i]);
        if !ok {
          assert criteria[i] in criteria;
          return false;
        }
      }
      met := true;
    }
  }

  ghost predicate IsFirstKnown(nodes: seq<Node>, kind: string, i: nat) {
    && i < |nodes| && nodes[i].kind == kind && nodes[i].status == Known
    && forall j :: 0 <= j < i ==> nodes[j].kind != kind || nodes[j].status != Known
  }

  /** The first stored KNOWN node of a type. */
  function FirstKnown(nodes: seq<Node>, kind: string): (r: Option<Node>)
    ensures r.None? <==> forall n :: n in nodes ==> n.kind != kind || n.status != Known
    ensures r.Some? ==> exists i :: 0 <= i < |nodes| && nodes[i] == r.value && IsFirstKnown(nodes, kind, i)
  {
    if nodes == [] then None
    else
      assert nodes == [nodes[0]] + nodes[1..];
      assert forall i :: 0 < i < |nodes| ==> nodes[i] == nodes[1..][i - 1];
      assert forall i :: 0 <= i < |nodes| - 1 && IsFirstKnown(nodes[1..], kind, i) && !(nodes[0].kind == kind && nodes[0].status == Known) ==>
        IsFirstKnown(nodes, kind, i + 1);
      if nodes[0].kind == kind && nodes[0].status == Known then Some(nodes[0]) else FirstKnown(nodes[1..], kind)
  }

  /** Two different KNOWN nodes, the first of each type, joined by KNOWN edges. */
  ghost predicate Proven(nodes: seq<Node>, edges: seq<Edge>, startKind: string, endKind: string) {
    var start, end := FirstKnown(nodes, startKind), FirstKnown(nodes, endKind);
    && start.Some? && end.Some?
    && start.value.id != end.value.id
    && Reachable(edges, start.value.id, end.value.id)
  }
}
