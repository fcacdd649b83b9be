/**
 * Compiling a claim plan into an evidence graph.
 * A claim is first read into a draft: its derived identifiers, its nodes and its edge
 * without a source. The drafts are then linked in order.
 */
module CaseBuilder {
  import opened Text
  import opened CaseGraphs
  import Claims

  type Claim = Claims.Claim

  /** What one claim contributes, before its source node is known. */
  datatype Draft = Draft(
    id: string,
    key: string,
    reference: Option<string>,
    subject: Node,
    target: Node,
    edge: Edge,
    optional: bool)

  // ------------------------------------------------------------ reading a claim

  function EdgeKey(safe: string): string { "edge-" + safe }

  function SubjectKey(safe: string): string { "node-" + safe + "-subject" }

  function ObjectKey(safe: string): string { "node-" + safe + "-object" }

  lemma KeysInjective(x: string, y: string)
    ensures EdgeKey(x) == EdgeKey(y) <==> x == y
    ensures SubjectKey(x) == SubjectKey(y) <==> x == y
    ensures ObjectKey(x) == ObjectKey(y) <==> x == y
    ensures SubjectKey(x) != ObjectKey(y)
  {
    assert EdgeKey(x)[5..] == x && EdgeKey(y)[5..] == y;
    assert SubjectKey(x)[5..|SubjectKey(x)| - 8] == x && SubjectKey(y)[5..|SubjectKey(y)| - 8] == y;
    assert ObjectKey(x)[5..|ObjectKey(x)| - 7] == x && ObjectKey(y)[5..|ObjectKey(y)| - 7] == y;
    var s, t := SubjectKey(x), ObjectKey(y);
    assert s[|s| - 6] == 'u' && t[|t| - 6] == 'o';
  }

  /** A reference `kind:value`; without a colon the kind is "entity". */
  function SplitRef(value: string): (string, string) {
    match SplitFirst(value, ':')
    case None => ("entity", value)
    case Some((kind, raw)) =>
      var k := Fold(Strip(kind));
      (if k == [] then "entity" else k, Strip(raw))
  }

  function NodeKind(value: string): string {
    var k := Fold(Strip(value));
    if k == "user" then "account"
    else if k == "email" then "email_address"
    else if k == "ip_address" then "ip"
    else if k == "hostname" then "host"
    else if k == "software_version" then "software"
    else if k == [] then "event"
    else k
  }

  function ObjectNode(c: Claim): Node {
    Node(ObjectKey(SafeId(c.id)),
         NodeKind(if c.valueType.Some? && c.valueType.value != "" then c.valueType.value else "event"),
         if c.objectOrValue.Some? then c.objectOrValue.value else "?",
         if c.objectOrValue.Some? then Known else NodeStatus.Unknown)
  }

  function SubjectNode(c: Claim): Node {
    Node(SubjectKey(SafeId(c.id)), NodeKind(SplitRef(c.subject).0), SplitRef(c.subject).1, Known)
  }

  function FactKinds(c: Claim): set<string> {
    set r | r in c.requirements :: r.factKind
  }

  function RolesOf(r: Claims.Requirement): seq<string> {
    if r.requiredRoles != [] then r.requiredRoles else r.fieldRoles
  }

  /** The roles of the acceptance rule, and each requirement's roles or, failing those, its field roles. */
  function RequiredRoles(c: Claim): set<string> {
    (set role | role in c.acceptanceRoles)
    + set r, role | r in c.requirements && role in RolesOf(r) :: role
  }

  predicate RequiresComplete(c: Claim) {
    c.acceptanceComplete || exists r :: r in c.requirements && r.complete
  }

  function MakeDraft(c: Claim, kinds: set<string>, roles: set<string>, complete: bool): Draft {
    var key := SafeId(c.id);
    var target := ObjectNode(c);
    Draft(c.id, key, if SplitRef(c.subject).0 == "claim" then Some(SplitRef(c.subject).1) else None,
          SubjectNode(c), target,
          Edge(EdgeKey(key), "", target.id, target.kind, kinds, roles, {}, complete, c.id, c.prerequisite, Unproven, {}),
          c.optional)
  }

  function DraftOf(c: Claim): Draft {
    MakeDraft(c, FactKinds(c), RequiredRoles(c), RequiresComplete(c))
  }

  lemma TakeNext<T>(s: seq<T>, i: nat, x: T)
    requires i < |s| && s[i] == x
    ensures s[..i] + [x] == s[..i + 1]
  {
  }

  method ReadClaim(c: Claim) returns (d: Draft)
    ensures d == DraftOf(c)
  {
    var kinds, roles, complete := ReadContract(c);
    d := MakeDraft(c, kinds, roles, complete);
  }

  method ReadContract(c: Claim) returns (kinds: set<string>, roles: set<string>, complete: bool)
    ensures kinds == FactKinds(c) && roles == RequiredRoles(c) && complete == RequiresComplete(c)
  {
    kinds, roles, complete := {}, (set role | role in c.acceptanceRoles), c.acceptanceComplete;
    for i := 0 to |c.requirements|
      invariant kinds == set r | r in c.requirements[..i] :: r.factKind
      invariant roles == (set role | role in c.acceptanceRoles) + set r, role | r in c.requirements[..i] && role in RolesOf(r) :: role
      invariant complete <==> c.acceptanceComplete || exists r :: r in c.requirements[..i] && r.complete
    {
      var r := c.requirements[i];
      assert c.requirements[..i + 1] == c.requirements[..i] + [r];
      kinds := kinds + {r.factKind};
      roles := roles + set role | role in RolesOf(r);
      complete := complete || r.complete;
    }
    assert c.requirements[..|c.requirements|] == c.requirements;
  }

  // ------------------------------------------------------------ the compiled graph

  /** The derived names identify the derived key, and subject and object names never meet. */
  ghost predicate WellNamed(ds: seq<Draft>) {
    && (forall i, j :: 0 <= i < |ds| && 0 <= j < |ds| ==>
          && (ds[i].edge.id == ds[j].edge.id <==> ds[i].key == ds[j].key)
          && (ds[i].subject.id == ds[j].subject.id <==> ds[i].key == ds[j].key)
          && (ds[i].target.id == ds[j].target.id <==> ds[i].key == ds[j].key)
          && ds[i].subject.id != ds[j].target.id)
    && forall i :: 0 <= i < |ds| ==>
         && ds[i].edge.target == ds[i].target.id && ds[i].edge.claimId == ds[i].id
         && ds[i].edge.status == Unproven && ds[i].subject.status == Known
  }

  /** The last of the first n drafts that carries a claim id. */
  function LastWith(ds: seq<Draft>, n: nat, id: string): (r: Option<nat>)
    requires n <= |ds|
    ensures r.Some? ==> r.value < n && ds[r.value].id == id
    ensures r.None? ==> forall k :: 0 <= k < n ==> ds[k].id != id
  {
    if n == 0 then None else if ds[n - 1].id == id then Some(n - 1) else LastWith(ds, n - 1, id)
  }

  /** The earlier draft whose object is the subject of draft i. A forward reference has none. */
  function Referent(ds: seq<Draft>, i: nat): (r: Option<nat>)
    requires i < |ds|
    ensures r.Some? ==> r.value < i && ds[i].reference == Some(ds[r.value].id)
  {
    if ds[i].reference.Some? then LastWith(ds, i, ds[i].reference.value) else None
  }

  type Links = seq<Option<nat>>

  /** For every draft the earlier draft that it hangs from, if any. */
  function Referents(ds: seq<Draft>): (links: Links)
    ensures |links| == |ds|
    ensures forall i :: 0 <= i < |ds| ==> links[i] == Referent(ds, i)
  {
    seq(|ds|, i requires 0 <= i < |ds| => Referent(ds, i))
  }

  ghost predicate AreLinks(ds: seq<Draft>, links: Links) {
    |links| == |ds| && forall i :: 0 <= i < |ds| && links[i].Some? ==> links[i].value < i
  }

  function SourceOf(ds: seq<Draft>, links: Links, i: nat): string
    requires AreLinks(ds, links) && i < |ds|
  {
    if links[i].Some? then ds[links[i].value].target.id else ds[i].subject.id
  }

  /** The last of the first n drafts with its key: it decides the edge and the object node. */
  ghost predicate OwnsEdge(ds: seq<Draft>, n: nat, i: nat)
    requires n <= |ds|
  {
    i < n && forall k :: i < k < n ==> ds[k].key != ds[i].key
  }

  /** The first draft with its key that needs a subject node: it decides that node. */
  ghost predicate OwnsSubject(ds: seq<Draft>, links: Links, n: nat, i: nat)
    requires n <= |ds| == |links|
  {
    i < n && links[i].None? && forall k :: 0 <= k < i && links[k].None? ==> ds[k].key != ds[i].key
  }

  ghost function EdgeNames(ds: seq<Draft>, n: nat): set<string>
    requires n <= |ds|
  {
    if n == 0 then {} else EdgeNames(ds, n - 1) + {ds[n - 1].edge.id}
  }

  ghost function NodeNames(ds: seq<Draft>, links: Links, n: nat): set<string>
    requires n <= |ds| == |links|
  {
    if n == 0 then {}
    else
      NodeNames(ds, links, n - 1) + {ds[n - 1].target.id} + if links[n - 1].None? then {ds[n - 1].subject.id} else {}
  }

  ghost predicate EdgesUpTo(ds: seq<Draft>, links: Links, n: nat, edges: map<string, Edge>)
    requires n <= |ds| && AreLinks(ds, links)
  {
    && edges.Keys == EdgeNames(ds, n)
    && forall i: nat :: OwnsEdge(ds, n, i) ==>
         ds[i].edge.id in edges && edges[ds[i].edge.id] == ds[i].edge.(source := SourceOf(ds, links, i))
  }

  ghost predicate TargetsPlaced(ds: seq<Draft>, n: nat, nodes: map<string, Node>)
    requires n <= |ds|
  {
    forall i: nat :: OwnsEdge(ds, n, i) ==> ds[i].target.id in nodes && nodes[ds[i].target.id] == ds[i].target
  }

  ghost predicate SubjectsPlaced(ds: seq<Draft>, links: Links, n: nat, nodes: map<string, Node>)
    requires n <= |ds| == |links|
  {
    forall i: nat :: OwnsSubject(ds, links, n, i) ==> ds[i].subject.id in nodes && nodes[ds[i].subject.id] == ds[i].subject
  }

  ghost predicate NodesUpTo(ds: seq<Draft>, links: Links, n: nat, nodes: map<string, Node>)
    requires n <= |ds| == |links|
  {
    nodes.Keys == NodeNames(ds, links, n) && TargetsPlaced(ds, n, nodes) && SubjectsPlaced(ds, links, n, nodes)
  }

  /** The graph that the drafts compile to, whether or not their keys collide. */
  ghost predicate Compiled(ds: seq<Draft>, g: Graph) {
    var links := Referents(ds);
    && AreLinks(ds, links)
    && g.proofs == map[] && EdgesUpTo(ds, links, |ds|, g.edges) && NodesUpTo(ds, links, |ds|, g.nodes)
  }

  function Drafts(claims: seq<Claim>): (ds: seq<Draft>)
    ensures |ds| == |claims|
    ensures forall i :: 0 <= i < |claims| ==> ds[i] == DraftOf(claims[i])
  {
    seq(|claims|, i requires 0 <= i < |claims| => DraftOf(claims[i]))
  }

  lemma DraftsAreWellNamed(claims: seq<Claim>)
    ensures WellNamed(Drafts(claims))
  {
    var ds := Drafts(claims);
    forall i, j | 0 <= i < |ds| && 0 <= j < |ds|
      ensures ds[i].edge.id == ds[j].edge.id <==> ds[i].key == ds[j].key
      ensures ds[i].subject.id == ds[j].subject.id <==> ds[i].key == ds[j].key
      ensures ds[i].target.id == ds[j].target.id <==> ds[i].key == ds[j].key
      ensures ds[i].subject.id != ds[j].target.id
    {
      KeysInjective(ds[i].key, ds[j].key);
    }
  }

  // ------------------------------------------------------------ linking one draft

  lemma OwnershipStep(ds: seq<Draft>, links: Links, n: nat)
    requires n < |ds| == |links|
    ensures OwnsEdge(ds, n + 1, n)
    ensures forall i: nat :: OwnsEdge(ds, n + 1, i) && i < n ==> OwnsEdge(ds, n, i) && ds[i].key != ds[n].key
    ensures forall i: nat :: OwnsSubject(ds, links, n + 1, i) && i < n ==> OwnsSubject(ds, links, n, i)
  {
  }

  lemma EdgeStep(ds: seq<Draft>, links: Links, n: nat, edges: map<string, Edge>)
    requires WellNamed(ds) && n < |ds| && AreLinks(ds, links) && EdgesUpTo(ds, links, n, edges)
    ensures EdgesUpTo(ds, links, n + 1, edges[ds[n].edge.id := ds[n].edge.(source := SourceOf(ds, links, n))])
  {
    OwnershipStep(ds, links, n);
  }

  lemma OlderTarget(ds: seq<Draft>, n: nat, i: nat)
    requires WellNamed(ds) && i < n < |ds| && OwnsEdge(ds, n + 1, i)
    ensures OwnsEdge(ds, n, i) && ds[i].target.id != ds[n].target.id
  {
    assert ds[i].key != ds[n].key;
  }

  lemma TargetStepTargets(ds: seq<Draft>, n: nat, nodes: map<string, Node>)
    requires WellNamed(ds) && n < |ds| && TargetsPlaced(ds, n, nodes)
    ensures TargetsPlaced(ds, n + 1, nodes[ds[n].target.id := ds[n].target])
  {
    forall i: nat | OwnsEdge(ds, n + 1, i) && i < n
      ensures ds[i].target.id in nodes && nodes[ds[i].target.id] == ds[i].target && ds[i].target.id != ds[n].target.id
    {
      OlderTarget(ds, n, i);
    }
  }

  lemma TargetStep(ds: seq<Draft>, links: Links, n: nat, nodes: map<string, Node>)
    requires WellNamed(ds) && n < |ds| == |links|
    requires TargetsPlaced(ds, n, nodes) && SubjectsPlaced(ds, links, n + 1, nodes)
    ensures TargetsPlaced(ds, n + 1, nodes[ds[n].target.id := ds[n].target])
    ensures SubjectsPlaced(ds, links, n + 1, nodes[ds[n].target.id := ds[n].target])
  {
    TargetStepTargets(ds, n, nodes);
    forall i: nat | OwnsSubject(ds, links, n + 1, i) ensures ds[i].subject.id != ds[n].target.id {}
  }

  /** A subject name that is already taken was taken for a subject with the same key. */
  lemma {:induction false} SubjectTaken(ds: seq<Draft>, links: Links, n: nat, i: nat) returns (k: nat)
    requires WellNamed(ds) && i < |ds| && n <= |ds| == |links| && ds[i].subject.id in NodeNames(ds, links, n)
    ensures k < n && links[k].None? && ds[k].key == ds[i].key
  {
    if links[n - 1].None? && ds[n - 1].subject.id == ds[i].subject.id {
      k := n - 1;
    } else {
      k := SubjectTaken(ds, links, n - 1, i);
    }
  }

  lemma NewSubject(ds: seq<Draft>, links: Links, n: nat, nodes: map<string, Node>)
    requires WellNamed(ds) && n < |ds| == |links| && TargetsPlaced(ds, n, nodes) && SubjectsPlaced(ds, links, n, nodes)
    requires ds[n].subject.id !in nodes
    ensures TargetsPlaced(ds, n, nodes[ds[n].subject.id := ds[n].subject])
    ensures SubjectsPlaced(ds, links, n + 1, nodes[ds[n].subject.id := ds[n].subject])
  {
    OwnershipStep(ds, links, n);
    forall i: nat | OwnsEdge(ds, n, i) ensures ds[i].target.id != ds[n].subject.id {}
    forall i: nat | OwnsSubject(ds, links, n, i) ensures ds[i].subject.id != ds[n].subject.id {
      assert ds[i].subject.id in nodes;
    }
  }

  lemma OldSubject(ds: seq<Draft>, links: Links, n: nat, nodes: map<string, Node>)
    requires WellNamed(ds) && n < |ds| == |links| && SubjectsPlaced(ds, links, n, nodes)
    requires links[n].Some? || ds[n].subject.id in NodeNames(ds, links, n)
    ensures SubjectsPlaced(ds, links, n + 1, nodes)
  {
    forall i: nat | OwnsSubject(ds, links, n + 1, i) ensures OwnsSubject(ds, links, n, i) {
      if i == n {
        var k := SubjectTaken(ds, links, n, n);
        assert false;
      }
    }
  }

  /** The table from claim ids to their object nodes. */
  ghost predicate TargetsUpTo(ds: seq<Draft>, n: nat, targets: map<string, string>)
    requires n <= |ds|
  {
    forall id :: (id in targets <==> LastWith(ds, n, id).Some?)
                 && (id in targets ==> targets[id] == ds[LastWith(ds, n, id).value].target.id)
  }

  lemma LookupFindsReferent(ds: seq<Draft>, i: nat, targets: map<string, string>)
    requires i < |ds| && TargetsUpTo(ds, i, targets)
    ensures var d := ds[i]; (d.reference.Some? && d.reference.value in targets) <==> Referent(ds, i).Some?
    ensures Referent(ds, i).Some? ==> targets[ds[i].reference.value] == ds[Referent(ds, i).value].target.id
  {
  }

  /** Finds or creates the source node of draft i and stores its object node. */
  method LinkNodes(ds: seq<Draft>, ghost links: Links, i: nat, targets: map<string, string>, graph: InvestigationGraph)
    returns (source: string)
    requires WellNamed(ds) && i < |ds| && AreLinks(ds, links) && links[i] == Referent(ds, i)
    requires NodesUpTo(ds, links, i, graph.nodes) && TargetsUpTo(ds, i, targets)
    modifies graph`nodes
    ensures NodesUpTo(ds, links, i + 1, graph.nodes) && source == SourceOf(ds, links, i)
  {
    var d := ds[i];
    LookupFindsReferent(ds, i, targets);
    if d.reference.Some? && d.reference.value in targets {
      source := targets[d.reference.value];
      OldSubject(ds, links, i, graph.nodes);
    } else {
      source := d.subject.id;
      if source !in graph.nodes {
        NewSubject(ds, links, i, graph.nodes);
        graph.AddNode(d.subject);
      } else {
        OldSubject(ds, links, i, graph.nodes);
      }
    }
    TargetStep(ds, links, i, graph.nodes);
    graph.AddNode(d.target);
  }

  lemma TargetsStep(ds: seq<Draft>, n: nat, targets: map<string, string>)
    requires n < |ds| && TargetsUpTo(ds, n, targets)
    ensures TargetsUpTo(ds, n + 1, targets[ds[n].id := ds[n].target.id])
  {
  }

  // ------------------------------------------------------------ the whole case

  datatype OpenValue = OpenValue(claimId: string, edge: string, mandatory: bool)

  datatype Goal = Goal(edge: string, critical: bool)

  /** One open value per draft without an object value, in plan order. */
  function OpenValues(ds: seq<Draft>): seq<OpenValue> {
    if ds == [] then []
    else
      var d := ds[|ds| - 1];
      OpenValues(ds[..|ds| - 1])
      + if d.target.status == NodeStatus.Unknown then [OpenValue(d.id, d.edge.id, !d.optional)] else []
  }

  /** One goal per draft, critical unless the claim is optional. */
  function Goals(ds: seq<Draft>): (r: seq<Goal>)
    ensures |r| == |ds|
  {
    seq(|ds|, i requires 0 <= i < |ds| => Goal(ds[i].edge.id, !ds[i].optional))
  }

  lemma OpenValuesStep(ds: seq<Draft>, n: nat)
    requires n < |ds|
    ensures OpenValues(ds[..n + 1]) == OpenValues(ds[..n])
      + if ds[n].target.status == NodeStatus.Unknown then [OpenValue(ds[n].id, ds[n].edge.id, !ds[n].optional)] else []
  {
    assert ds[..n + 1][..n] == ds[..n];
  }

  ghost predicate LinkedUpTo(ds: seq<Draft>, links: Links, n: nat, targets: map<string, string>, g: Graph)
    requires n <= |ds|
  {
    && AreLinks(ds, links) && TargetsUpTo(ds, n, targets)
    && NodesUpTo(ds, links, n, g.nodes) && EdgesUpTo(ds, links, n, g.edges) && g.proofs == map[]
  }

  /** Adds what draft i contributes to the graph and to the table. */
  method LinkDraft(ds: seq<Draft>, ghost links: Links, i: nat, targets: map<string, string>, graph: InvestigationGraph)
    returns (longer: map<string, string>)
    requires WellNamed(ds) && i < |ds| && |links| == |ds| && links[i] == Referent(ds, i)
    requires LinkedUpTo(ds, links, i, targets, graph.View())
    modifies graph
    ensures LinkedUpTo(ds, links, i + 1, longer, graph.View())
  {
    var d := ds[i];
    var source := LinkNodes(ds, links, i, targets, graph);
    TargetsStep(ds, i, targets);
    longer := targets[d.id := d.target.id];
    EdgeStep(ds, links, i, graph.edges);
    graph.AddEdge(d.edge.(source := source));
  }

  method Link(ds: seq<Draft>) returns (graph: InvestigationGraph, unknowns: seq<OpenValue>, goals: seq<Goal>)
    requires WellNamed(ds)
    ensures fresh(graph) && Compiled(ds, graph.View())
    ensures unknowns == OpenValues(ds) && goals == Goals(ds)
  {
    graph := new InvestigationGraph();
    unknowns, goals := [], [];
    var targets: map<string, string> := map[];
    ghost var links, all := Referents(ds), Goals(ds);
    for i := 0 to |ds|
      invariant fresh(graph) && LinkedUpTo(ds, links, i, targets, graph.View())
      invariant unknowns == OpenValues(ds[..i]) && goals == all[..i]
    {
      targets := LinkDraft(ds, links, i, targets, graph);
      var d := ds[i];
      OpenValuesStep(ds, i);
      if d.target.status == NodeStatus.Unknown {
        unknowns := unknowns + [OpenValue(d.id, d.edge.id, !d.optional)];
      }
      TakeNext(all, i, Goal(d.edge.id, !d.optional));
      goals := goals + [Goal(d.edge.id, !d.optional)];
    }
    assert ds[..|ds|] == ds;
  }

  method ReadPlan(claims: seq<Claim>) returns (ds: seq<Draft>)
    ensures ds == Drafts(claims)
  {
    ghost var all := Drafts(claims);
    ds := [];
    for i := 0 to |claims|
      invariant ds == all[..i]
    {
      var d := ReadClaim(claims[i]);
      TakeNext(all, i, d);
      ds := ds + [d];
    }
  }

  /** Compiles any plan; the derived identifiers may collide. */
  method BuildCase(claims: seq<Claim>) returns (graph: InvestigationGraph, unknowns: seq<OpenValue>, goals: seq<Goal>)
    ensures fresh(graph) && Compiled(Drafts(claims), graph.View())
    ensures unknowns == OpenValues(Drafts(claims)) && goals == Goals(Drafts(claims))
  {
    var ds := ReadPlan(claims);
    DraftsAreWellNamed(claims);
    graph, unknowns, goals := Link(ds);
  }
}
