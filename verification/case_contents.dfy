/**
 * What a compiled case says, in terms of the claims' own text: the nodes' kinds and values, the contracts of the
 * edges, the open values and the goals.
 */
module CaseContents {
  import opened Text
  import opened CaseGraphs
  import opened CaseBuilder
  import opened CaseTheory
  import Claims

  // ------------------------------------------------------------ reading a subject

  /** The word and the value that a subject text names: what stands before and after its first colon, if it has one. */
  ghost predicate Names(text: string, word: string, value: string) {
    if ':' !in text then word == "entity" && value == text
    else exists i :: 0 <= i < |text| && IsCutAt(text, i, word, value)
  }

  ghost predicate IsCutAt(text: string, i: nat, word: string, value: string)
    requires i < |text|
  {
    && text[i] == ':' && ':' !in text[..i] && value == Strip(text[i + 1..])
    && word == if Strip(text[..i]) == "" then "entity" else Fold(Strip(text[..i]))
  }

  /** Words that stand for another kind. */
  const ALIASES := map[
    "user" := "account", "email" := "email_address", "ip_address" := "ip", "hostname" := "host", "software_version" := "software"]

  ghost predicate IsKindOf(word: string, kind: string) {
    var w := Fold(Strip(word));
    kind == if w in ALIASES then ALIASES[w] else if |w| == 0 then "event" else w
  }

  lemma SplitRefNames(text: string)
    ensures Names(text, SplitRef(text).0, SplitRef(text).1)
  {
    if ':' in text {
      var (kind, raw) := SplitFirst(text, ':').value;
      var i := |kind|;
      assert text[..i] == kind && text[i + 1..] == raw && text[i] == ':';
      assert IsCutAt(text, i, SplitRef(text).0, SplitRef(text).1);
    }
  }

  lemma FirstColon(text: string, i: nat, j: nat)
    requires i < |text| && j < |text| && text[i] == text[j] == ':' && ':' !in text[..i] && ':' !in text[..j]
    ensures i == j
  {
    assert forall m :: 0 <= m < i ==> text[..i][m] == text[m];
    assert forall m :: 0 <= m < j ==> text[..j][m] == text[m];
  }

  lemma NameIsUnique(text: string, word: string, value: string, other: string, another: string)
    requires Names(text, word, value) && Names(text, other, another)
    ensures word == other && value == another
  {
    if ':' in text {
      var i :| 0 <= i < |text| && IsCutAt(text, i, word, value);
      var j :| 0 <= j < |text| && IsCutAt(text, j, other, another);
      FirstColon(text, i, j);
    }
  }

  lemma NodeKindIs(word: string)
    ensures IsKindOf(word, NodeKind(word))
  {
  }

  // ------------------------------------------------------------ nodes and edges

  /** The subject node is KNOWN, with the value and the kind that the claim's subject names. */
  ghost predicate CarriesSubject(c: Claim, n: Node) {
    && n.id == "node-" + SafeId(c.id) + "-subject" && n.status == NodeStatus.Known
    && exists word :: Names(c.subject, word, n.value) && IsKindOf(word, n.kind)
  }

  /** The object node is KNOWN with the claim's object value, or open; its kind is that of the claim's value type. */
  ghost predicate CarriesObject(c: Claim, n: Node) {
    && n.id == "node-" + SafeId(c.id) + "-object"
    && n.status == (if c.objectOrValue == None then NodeStatus.Unknown else NodeStatus.Known)
    && n.value == (if c.objectOrValue == None then "?" else c.objectOrValue.value)
    && IsKindOf(if c.valueType in {None, Some("")} then "event" else c.valueType.value, n.kind)
  }

  /** What the claim demands of the evidence for its edge. */
  ghost predicate CarriesContract(c: Claim, e: Edge) {
    && (forall kind :: kind in e.factKinds <==> exists r :: r in c.requirements && r.factKind == kind)
    && (forall role :: role in e.requiredRoles <==>
          role in c.acceptanceRoles || exists r :: r in c.requirements && AsksRole(r, role))
    && (e.completenessRequired <==> c.acceptanceComplete || exists r :: r in c.requirements && r.complete)
    && e.prerequisite == c.prerequisite && e.acceptableOperations == {} && e.citations == {}
  }

  /** A requirement asks for its required roles, and for its field roles if it names none. */
  ghost predicate AsksRole(r: Claims.Requirement, role: string) {
    if |r.requiredRoles| > 0 then role in r.requiredRoles else role in r.fieldRoles
  }

  /** An unproven edge to the claim's object node. */
  ghost predicate CarriesEdge(c: Claim, g: Graph, e: Edge) {
    && e.id == "edge-" + SafeId(c.id) && e.claimId == c.id && e.status == Unproven
    && e.target == "node-" + SafeId(c.id) + "-object" && e.target in g.nodes && e.targetKind == g.nodes[e.target].kind
    && CarriesContract(c, e)
  }

  lemma DraftSubject(c: Claim)
    ensures CarriesSubject(c, DraftOf(c).subject)
  {
    SplitRefNames(c.subject);
    NodeKindIs(SplitRef(c.subject).0);
    assert Names(c.subject, SplitRef(c.subject).0, SubjectNode(c).value);
  }

  lemma DraftObject(c: Claim)
    ensures CarriesObject(c, DraftOf(c).target)
  {
    NodeKindIs(if c.valueType.Some? && c.valueType.value != "" then c.valueType.value else "event");
  }

  lemma RolesAre(c: Claim, role: string)
    ensures role in RequiredRoles(c) <==> role in c.acceptanceRoles || exists r :: r in c.requirements && AsksRole(r, role)
  {
    assert forall r: Claims.Requirement :: role in RolesOf(r) <==> AsksRole(r, role);
  }

  lemma DraftContract(c: Claim)
    ensures CarriesContract(c, DraftOf(c).edge)
  {
    forall role ensures role in RequiredRoles(c) <==> role in c.acceptanceRoles || exists r :: r in c.requirements && AsksRole(r, role) {
      RolesAre(c, role);
    }
  }

  /** A claim refers to another exactly when its subject names the word claim; the value is the id. */
  lemma ReferenceIs(c: Claim, id: string)
    ensures DraftOf(c).reference == Some(id) <==> Names(c.subject, "claim", id)
  {
    SplitRefNames(c.subject);
    if Names(c.subject, "claim", id) {
      NameIsUnique(c.subject, "claim", id, SplitRef(c.subject).0, SplitRef(c.subject).1);
    }
  }

  // ------------------------------------------------------------ which claim decides

  /** Claim j is the last one before claim i that the subject of claim i refers to. */
  ghost predicate HangsFrom(claims: seq<Claim>, i: nat, j: nat) {
    && j < i < |claims| && Names(claims[i].subject, "claim", claims[j].id)
    && forall m :: j < m < i ==> claims[m].id != claims[j].id
  }

  ghost predicate HangsFromNone(claims: seq<Claim>, i: nat) {
    i < |claims| && forall j :: 0 <= j < i ==> !Names(claims[i].subject, "claim", claims[j].id)
  }

  /** The last claim with its key. */
  ghost predicate DecidesEdge(claims: seq<Claim>, i: nat) {
    i < |claims| && forall k :: i < k < |claims| ==> SafeId(claims[k].id) != SafeId(claims[i].id)
  }

  /** The first claim with its key among those that hang from none. */
  ghost predicate DecidesSubject(claims: seq<Claim>, i: nat) {
    && HangsFromNone(claims, i)
    && forall k: nat :: k < i && HangsFromNone(claims, k) ==> SafeId(claims[k].id) != SafeId(claims[i].id)
  }

  lemma {:induction false} LastWithIs(ds: seq<Draft>, n: nat, id: string)
    requires n <= |ds|
    ensures LastWith(ds, n, id).Some? ==> forall m :: LastWith(ds, n, id).value < m < n ==> ds[m].id != id
  {
    if n > 0 && ds[n - 1].id != id {
      LastWithIs(ds, n - 1, id);
    }
  }

  /** The referent of draft i is the last earlier draft that it names. */
  ghost predicate IsReferent(ds: seq<Draft>, i: nat, r: Option<nat>)
    requires i < |ds|
  {
    match r
    case None => forall j :: 0 <= j < i ==> ds[i].reference != Some(ds[j].id)
    case Some(j) => j < i && ds[i].reference == Some(ds[j].id) && forall m :: j < m < i ==> ds[m].id != ds[j].id
  }

  lemma ReferentAmong(ds: seq<Draft>, i: nat)
    requires i < |ds|
    ensures IsReferent(ds, i, Referent(ds, i))
  {
    if ds[i].reference.Some? {
      LastWithIs(ds, i, ds[i].reference.value);
    }
  }

  lemma DraftId(c: Claim)
    ensures DraftOf(c).id == c.id && DraftOf(c).key == SafeId(c.id) && DraftOf(c).edge.id == "edge-" + SafeId(c.id)
  {
  }

  lemma ReferentIs(claims: seq<Claim>, i: nat)
    requires i < |claims|
    ensures var r := Referent(Drafts(claims), i); if r.Some? then HangsFrom(claims, i, r.value) else HangsFromNone(claims, i)
  {
    var ds := Drafts(claims);
    var r := Referent(ds, i);
    ReferentAmong(ds, i);
    forall j | 0 <= j < i ensures ds[j].id == claims[j].id {
      DraftId(claims[j]);
    }
    if r.Some? {
      ReferenceIs(claims[i], claims[r.value].id);
    } else {
      forall j | 0 <= j < i ensures !Names(claims[i].subject, "claim", claims[j].id) {
        ReferenceIs(claims[i], claims[j].id);
      }
    }
  }

  lemma HangsApart(claims: seq<Claim>, i: nat, j: nat)
    requires HangsFrom(claims, i, j)
    ensures !HangsFromNone(claims, i)
  {
  }

  lemma SubjectDecider(claims: seq<Claim>, i: nat)
    ensures DecidesSubject(claims, i) <==> OwnsSubject(Drafts(claims), Referents(Drafts(claims)), |claims|, i)
  {
    var ds := Drafts(claims);
    forall k: nat | k < |claims| ensures HangsFromNone(claims, k) <==> Referents(ds)[k].None? {
      ReferentIs(claims, k);
      if Referents(ds)[k].Some? {
        HangsApart(claims, k, Referents(ds)[k].value);
      }
    }
    assert forall k :: 0 <= k < |claims| ==> ds[k].key == SafeId(claims[k].id);
  }

  lemma EdgeDecider(claims: seq<Claim>, i: nat)
    ensures DecidesEdge(claims, i) <==> OwnsEdge(Drafts(claims), |claims|, i)
  {
    assert forall k :: 0 <= k < |claims| ==> Drafts(claims)[k].key == SafeId(claims[k].id);
  }

  /** The edge starts at the object node of the claim that this one hangs from, or else at its own subject node. */
  ghost predicate StartsAt(claims: seq<Claim>, i: nat, e: Edge)
    requires i < |claims|
  {
    || (HangsFromNone(claims, i) && e.source == "node-" + SafeId(claims[i].id) + "-subject")
    || exists j: nat :: HangsFrom(claims, i, j) && e.source == "node-" + SafeId(claims[j].id) + "-object"
  }

  lemma SourceIs(claims: seq<Claim>, i: nat, e: Edge)
    requires i < |claims| && e.source == SourceOf(Drafts(claims), Referents(Drafts(claims)), i)
    ensures StartsAt(claims, i, e)
  {
    ReferentIs(claims, i);
    var r := Referent(Drafts(claims), i);
    if r.Some? {
      DraftObject(claims[r.value]);
    } else {
      DraftSubject(claims[i]);
    }
  }

  lemma SubjectStands(ds: seq<Draft>, g: Graph, i: nat)
    requires Compiled(ds, g) && OwnsSubject(ds, Referents(ds), |ds|, i)
    ensures ds[i].subject.id in g.nodes && g.nodes[ds[i].subject.id] == ds[i].subject
  {
  }

  /** The first claim with a key that hangs from no earlier claim decides their subject node. */
  lemma SubjectCarries(claims: seq<Claim>, g: Graph, i: nat)
    requires Compiled(Drafts(claims), g) && DecidesSubject(claims, i)
    ensures var id := "node-" + SafeId(claims[i].id) + "-subject"; id in g.nodes && CarriesSubject(claims[i], g.nodes[id])
  {
    SubjectDecider(claims, i);
    DraftSubject(claims[i]);
    SubjectStands(Drafts(claims), g, i);
  }

  /** The last claim with a key decides their object node. */
  lemma ObjectCarries(claims: seq<Claim>, g: Graph, i: nat)
    requires Compiled(Drafts(claims), g) && DecidesEdge(claims, i)
    ensures var id := "node-" + SafeId(claims[i].id) + "-object"; id in g.nodes && CarriesObject(claims[i], g.nodes[id])
  {
    EdgeDecider(claims, i);
    DraftsAreWellNamed(claims);
    DeciderStands(Drafts(claims), g, i);
    DraftObject(claims[i]);
  }

  /** And their edge, with the node it starts at. */
  lemma EdgeCarries(claims: seq<Claim>, g: Graph, i: nat)
    requires Compiled(Drafts(claims), g) && DecidesEdge(claims, i)
    ensures var id := "edge-" + SafeId(claims[i].id);
      id in g.edges && CarriesEdge(claims[i], g, g.edges[id]) && StartsAt(claims, i, g.edges[id])
  {
    EdgeDecider(claims, i);
    DraftsAreWellNamed(claims);
    DeciderStands(Drafts(claims), g, i);
    DraftContract(claims[i]);
    DraftObject(claims[i]);
    SourceIs(claims, i, g.edges["edge-" + SafeId(claims[i].id)]);
  }

  // ------------------------------------------------------------ nothing else is stored

  lemma {:induction false} NodeNamed(ds: seq<Draft>, links: Links, n: nat, i: nat)
    requires i < n <= |ds| == |links|
    ensures ds[i].target.id in NodeNames(ds, links, n) && (links[i].None? ==> ds[i].subject.id in NodeNames(ds, links, n))
  {
    if i < n - 1 {
      NodeNamed(ds, links, n - 1, i);
    }
  }

  lemma CompiledNames(ds: seq<Draft>, g: Graph)
    requires Compiled(ds, g)
    ensures g.edges.Keys == EdgeNames(ds, |ds|) && g.nodes.Keys == NodeNames(ds, Referents(ds), |ds|)
  {
  }

  lemma EdgeHasClaim(claims: seq<Claim>, k: string) returns (i: nat)
    requires k in EdgeNames(Drafts(claims), |claims|)
    ensures i < |claims| && k == "edge-" + SafeId(claims[i].id)
  {
    i := EdgeNameHasDraft(Drafts(claims), |claims|, k);
    DraftId(claims[i]);
  }

  lemma ClaimHasEdge(claims: seq<Claim>, i: nat)
    requires i < |claims|
    ensures "edge-" + SafeId(claims[i].id) in EdgeNames(Drafts(claims), |claims|)
  {
    EdgeNamed(Drafts(claims), |claims|, i);
    DraftId(claims[i]);
  }

  /** A subject node is stored only for a claim that hangs from none. */
  ghost predicate IsNodeFor(claims: seq<Claim>, i: nat, k: string)
    requires i < |claims|
  {
    k == "node-" + SafeId(claims[i].id) + "-object" || (HangsFromNone(claims, i) && k == "node-" + SafeId(claims[i].id) + "-subject")
  }

  lemma NodeHasClaim(claims: seq<Claim>, k: string) returns (i: nat)
    requires k in NodeNames(Drafts(claims), Referents(Drafts(claims)), |claims|)
    ensures i < |claims| && IsNodeFor(claims, i, k)
  {
    i := NodeNameHasDraft(Drafts(claims), Referents(Drafts(claims)), |claims|, k);
    ReferentIs(claims, i);
    DraftObject(claims[i]);
    DraftSubject(claims[i]);
  }

  lemma ClaimHasNode(claims: seq<Claim>, i: nat, k: string)
    requires i < |claims| && IsNodeFor(claims, i, k)
    ensures k in NodeNames(Drafts(claims), Referents(Drafts(claims)), |claims|)
  {
    NodeNamed(Drafts(claims), Referents(Drafts(claims)), |claims|, i);
    ReferentIs(claims, i);
    if Referent(Drafts(claims), i).Some? {
      HangsApart(claims, i, Referent(Drafts(claims), i).value);
    }
    DraftObject(claims[i]);
    DraftSubject(claims[i]);
  }

  /** Every edge and every node is some claim's. */
  lemma NamesAre(claims: seq<Claim>, g: Graph, k: string)
    requires Compiled(Drafts(claims), g)
    ensures k in g.edges <==> exists i :: 0 <= i < |claims| && k == "edge-" + SafeId(claims[i].id)
    ensures k in g.nodes <==> exists i :: 0 <= i < |claims| && IsNodeFor(claims, i, k)
  {
    CompiledNames(Drafts(claims), g);
    if k in g.edges.Keys {
      var i := EdgeHasClaim(claims, k);
    }
    if k in g.nodes.Keys {
      var i := NodeHasClaim(claims, k);
    }
    if i :| 0 <= i < |claims| && k == "edge-" + SafeId(claims[i].id) {
      ClaimHasEdge(claims, i);
    }
    if i :| 0 <= i < |claims| && IsNodeFor(claims, i, k) {
      ClaimHasNode(claims, i, k);
    }
  }

  // ------------------------------------------------------------ open values and goals

  /** An open value for each claim without an object, to be found by its edge. */
  ghost predicate AsksFor(c: Claim, u: OpenValue) {
    c.objectOrValue == None && u == OpenValue(c.id, "edge-" + SafeId(c.id), !c.optional)
  }

  lemma AskedByDraft(c: Claim, u: OpenValue)
    ensures AsksFor(c, u) <==> IsOpenValue(DraftOf(c), u)
  {
    DraftObject(c);
  }

  ghost predicate IsOpenValue(d: Draft, u: OpenValue) {
    d.target.status == NodeStatus.Unknown && u == OpenValue(d.id, d.edge.id, !d.optional)
  }

  lemma {:induction false} OpenValuesAre(ds: seq<Draft>, u: OpenValue)
    ensures u in OpenValues(ds) <==> exists i :: 0 <= i < |ds| && IsOpenValue(ds[i], u)
  {
    if ds != [] {
      var n := |ds| - 1;
      OpenValuesAre(ds[..n], u);
      assert forall i :: 0 <= i < n ==> ds[..n][i] == ds[i];
      if i :| 0 <= i < |ds| && IsOpenValue(ds[i], u) {
        assert i < n ==> IsOpenValue(ds[..n][i], u);
      }
    }
  }

  lemma OpenValueIs(claims: seq<Claim>, u: OpenValue)
    ensures u in OpenValues(Drafts(claims)) <==> exists i :: 0 <= i < |claims| && AsksFor(claims[i], u)
  {
    OpenValuesAre(Drafts(claims), u);
    forall i | 0 <= i < |claims| ensures AsksFor(claims[i], u) <==> IsOpenValue(Drafts(claims)[i], u) {
      AskedByDraft(claims[i], u);
    }
  }

  /** The case lists exactly the values that are open, and one goal per claim. */
  lemma ListsAre(claims: seq<Claim>)
    ensures forall u :: u in OpenValues(Drafts(claims)) <==> exists i :: 0 <= i < |claims| && AsksFor(claims[i], u)
    ensures |Goals(Drafts(claims))| == |claims|
    ensures forall i :: 0 <= i < |claims| ==> Goals(Drafts(claims))[i] == Goal("edge-" + SafeId(claims[i].id), !claims[i].optional)
  {
    forall u ensures u in OpenValues(Drafts(claims)) <==> exists i :: 0 <= i < |claims| && AsksFor(claims[i], u) {
      OpenValueIs(claims, u);
    }
  }
}
