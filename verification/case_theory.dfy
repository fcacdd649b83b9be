/**
 * What every compiled evidence graph guarantees, colliding keys included: which claim decides each edge, in-degrees,
 * when an edge can be tested, and that its rings are the reference rings of the plan. With distinct keys there is
 * one edge per claim, no ring and no deadlock.
 */
module CaseTheory {
  import opened Text
  import opened CaseGraphs
  import opened CaseBuilder
  import opened CaseRuns
  import Claims

  ghost predicate DistinctUpTo(ds: seq<Draft>, n: nat)
    requires n <= |ds|
  {
    forall i, j :: 0 <= i < j < n ==> ds[i].key != ds[j].key
  }

  ghost predicate DistinctKeys(ds: seq<Draft>) {
    DistinctUpTo(ds, |ds|)
  }

  // ------------------------------------------------------------ shape

  lemma {:induction false} EdgeNameHasDraft(ds: seq<Draft>, n: nat, k: string) returns (i: nat)
    requires n <= |ds| && k in EdgeNames(ds, n)
    ensures i < n && ds[i].edge.id == k
  {
    if ds[n - 1].edge.id == k {
      i := n - 1;
    } else {
      i := EdgeNameHasDraft(ds, n - 1, k);
    }
  }

  lemma {:induction false} NodeNameHasDraft(ds: seq<Draft>, links: Links, n: nat, k: string) returns (i: nat)
    requires n <= |ds| == |links| && k in NodeNames(ds, links, n)
    ensures i < n && (ds[i].target.id == k || (links[i].None? && ds[i].subject.id == k))
  {
    if ds[n - 1].target.id == k || (links[n - 1].None? && ds[n - 1].subject.id == k) {
      i := n - 1;
    } else {
      i := NodeNameHasDraft(ds, links, n - 1, k);
    }
  }

  lemma OneMoreName(names: set<string>, name: string)
    ensures |names + {name}| == |names| + if name in names then 0 else 1
  {
    if name in names {
      assert names + {name} == names;
    }
  }

  lemma DistinctLast(s: seq<string>)
    requires s != []
    ensures Claims.Distinct(s) <==> Claims.Distinct(s[..|s| - 1]) && s[|s| - 1] !in s[..|s| - 1]
  {
    var t := s[..|s| - 1];
    assert forall i :: 0 <= i < |t| ==> t[i] == s[i];
    assert s[|s| - 1] !in t <==> forall i :: 0 <= i < |t| ==> t[i] != s[|s| - 1];
  }

  /** A list names as many things as it is long exactly when it names none twice. */
  lemma {:induction false} NamesCount(s: seq<string>)
    ensures |Claims.Elems(s)| <= |s|
    ensures |Claims.Elems(s)| == |s| <==> Claims.Distinct(s)
  {
    if s != [] {
      var t, x := s[..|s| - 1], s[|s| - 1];
      assert s == t + [x];
      NamesCount(t);
      OneMoreName(Claims.Elems(t), x);
      Claims.ElemsAppend(t, x);
      DistinctLast(s);
    }
  }

  function EdgeIds(ds: seq<Draft>): (r: seq<string>)
    ensures |r| == |ds| && forall i :: 0 <= i < |ds| ==> r[i] == ds[i].edge.id
  {
    seq(|ds|, i requires 0 <= i < |ds| => ds[i].edge.id)
  }

  lemma EdgeIdsAreNames(ds: seq<Draft>)
    ensures Claims.Elems(EdgeIds(ds)) == EdgeNames(ds, |ds|)
  {
    var ids := EdgeIds(ds);
    forall k | k in EdgeNames(ds, |ds|) ensures k in Claims.Elems(ids) {
      var i := EdgeNameHasDraft(ds, |ds|, k);
      assert ids[i] == k;
    }
    forall k | k in Claims.Elems(ids) ensures k in EdgeNames(ds, |ds|) {
      var i :| 0 <= i < |ids| && ids[i] == k;
      EdgeNamed(ds, |ds|, i);
    }
  }

  lemma {:induction false} EdgeNamed(ds: seq<Draft>, n: nat, i: nat)
    requires i < n <= |ds|
    ensures ds[i].edge.id in EdgeNames(ds, n)
  {
    if i < n - 1 {
      EdgeNamed(ds, n - 1, i);
    }
  }

  /** A compiled graph has one edge per claim if and only if no two claim ids derive the same key. */
  lemma OneEdgePerClaim(ds: seq<Draft>, g: Graph)
    requires WellNamed(ds) && Compiled(ds, g)
    ensures |g.edges| == |ds| <==> DistinctKeys(ds)
  {
    EdgeIdsAreNames(ds);
    NamesCount(EdgeIds(ds));
    DistinctIdsAreKeys(ds);
    CompiledEdgeCount(ds, g);
  }

  lemma CompiledEdgeCount(ds: seq<Draft>, g: Graph)
    requires Compiled(ds, g)
    ensures |g.edges| == |EdgeNames(ds, |ds|)|
  {
    assert |g.edges| == |g.edges.Keys|;
  }

  lemma DistinctIdsAreKeys(ds: seq<Draft>)
    requires WellNamed(ds)
    ensures Claims.Distinct(EdgeIds(ds)) <==> DistinctKeys(ds)
  {
    var ids := EdgeIds(ds);
    assert forall i, j :: 0 <= i < j < |ds| ==> (ids[i] == ids[j] <==> ds[i].key == ds[j].key);
  }

  // ------------------------------------------------------------ who decides

  /** The last of the first n drafts with draft i's key: it decides the edge and the object node they share. */
  ghost function Decider(ds: seq<Draft>, n: nat, i: nat): (d: nat)
    requires i < n <= |ds|
    ensures i <= d && OwnsEdge(ds, n, d) && ds[d].key == ds[i].key
    ensures OwnsEdge(ds, n, i) ==> d == i
  {
    if ds[n - 1].key == ds[i].key then n - 1 else Decider(ds, n - 1, i)
  }

  lemma DeciderStands(ds: seq<Draft>, g: Graph, i: nat)
    requires WellNamed(ds) && Compiled(ds, g) && i < |ds|
    ensures var d := Decider(ds, |ds|, i);
      && ds[i].edge.id in g.edges && g.edges[ds[i].edge.id] == ds[d].edge.(source := SourceOf(ds, Referents(ds), d))
      && ds[i].target.id in g.nodes && g.nodes[ds[i].target.id] == ds[d].target
      && g.edges[ds[i].edge.id].target == ds[i].target.id && ds[d].edge.id == ds[i].edge.id
  {
    var d := Decider(ds, |ds|, i);
    assert OwnsEdge(ds, |ds|, d);
    assert ds[d].edge.id == ds[i].edge.id && ds[d].target.id == ds[i].target.id;
  }

  /** Every edge is that of the draft that decides it. */
  lemma EdgeHasDecider(ds: seq<Draft>, g: Graph, k: string) returns (i: nat)
    requires WellNamed(ds) && Compiled(ds, g) && k in g.edges
    ensures OwnsEdge(ds, |ds|, i) && ds[i].edge.id == k
    ensures g.edges[k] == ds[i].edge.(source := SourceOf(ds, Referents(ds), i))
  {
    var j := EdgeNameHasDraft(ds, |ds|, k);
    i := Decider(ds, |ds|, j);
    DeciderStands(ds, g, j);
  }

  lemma {:induction false} FirstWithKey(ds: seq<Draft>, links: Links, i: nat) returns (j: nat)
    requires i < |ds| == |links| && links[i].None?
    ensures OwnsSubject(ds, links, |ds|, j) && ds[j].key == ds[i].key
    decreases i
  {
    if k: nat :| k < i && links[k].None? && ds[k].key == ds[i].key {
      j := FirstWithKey(ds, links, k);
    } else {
      j := i;
    }
  }

  lemma SubjectIsKnown(ds: seq<Draft>, g: Graph, i: nat)
    requires WellNamed(ds) && Compiled(ds, g) && i < |ds| && Referent(ds, i).None?
    ensures IsKnown(g, ds[i].subject.id)
  {
    var j := FirstWithKey(ds, Referents(ds), i);
    assert ds[j].subject.id == ds[i].subject.id && ds[j].subject.status == NodeStatus.Known;
  }

  /** With distinct keys every draft decides its own edge and nodes. */
  lemma EveryDraftStands(ds: seq<Draft>, g: Graph, i: nat)
    requires DistinctKeys(ds) && Compiled(ds, g) && i < |ds|
    ensures ds[i].edge.id in g.edges && g.edges[ds[i].edge.id] == ds[i].edge.(source := SourceOf(ds, Referents(ds), i))
    ensures ds[i].target.id in g.nodes && g.nodes[ds[i].target.id] == ds[i].target
    ensures Referent(ds, i).None? ==> ds[i].subject.id in g.nodes && g.nodes[ds[i].subject.id] == ds[i].subject
  {
    assert OwnsEdge(ds, |ds|, i);
    if Referent(ds, i).None? {
      assert OwnsSubject(ds, Referents(ds), |ds|, i);
    }
  }

  /** In every compiled graph object nodes have in-degree one and subject nodes in-degree zero. */
  lemma InDegrees(ds: seq<Draft>, g: Graph)
    requires WellNamed(ds) && Compiled(ds, g)
    ensures TargetsApart(g)
    ensures forall k, i :: k in g.edges && 0 <= i < |ds| ==> g.edges[k].target != ds[i].subject.id
    ensures forall i :: 0 <= i < |ds| ==> ds[i].edge.id in g.edges && g.edges[ds[i].edge.id].target == ds[i].target.id
  {
    forall k | k in g.edges ensures exists i :: 0 <= i < |ds| && ds[i].edge.id == k && g.edges[k].target == ds[i].target.id {
      var i := EdgeHasDecider(ds, g, k);
    }
    forall i | 0 <= i < |ds| ensures ds[i].edge.id in g.edges && g.edges[ds[i].edge.id].target == ds[i].target.id {
      DeciderStands(ds, g, i);
    }
  }

  /**
   * What a reference does: an edge waits exactly when the claim that decides it names an earlier claim whose
   * object is still open. A reference to a later claim, or to none, holds nothing back.
   */
  lemma ReferenceHoldsBack(ds: seq<Draft>, g: Graph, i: nat)
    requires WellNamed(ds) && Compiled(ds, g) && i < |ds|
    ensures IsActionable(g, ds[i].edge.id) <==> IsGiven(ds, Decider(ds, |ds|, i))
    ensures IsGiven(ds, Decider(ds, |ds|, i)) <==> IsKnown(g, g.edges[ds[i].edge.id].source)
  {
    var d := Decider(ds, |ds|, i);
    DeciderStands(ds, g, i);
    if Referent(ds, d).Some? {
      DeciderStands(ds, g, Referent(ds, d).value);
    } else {
      SubjectIsKnown(ds, g, d);
    }
  }

  /** Draft i's subject is given, as a value or as an earlier claim's object that is given. */
  ghost predicate IsGiven(ds: seq<Draft>, i: nat)
    requires i < |ds|
  {
    var k := Referent(ds, i);
    k.None? || ds[Decider(ds, |ds|, k.value)].target.status == NodeStatus.Known
  }

  /**
   * A claim that names a later claim as its subject is not held back by it: the reference is taken
   * as a literal KNOWN entity, so the edge is actionable from the start.
   */
  lemma ForwardReferenceIsActionable(ds: seq<Draft>, g: Graph, i: nat)
    requires WellNamed(ds) && Compiled(ds, g) && OwnsEdge(ds, |ds|, i)
    requires forall j :: 0 <= j < i ==> ds[i].reference != Some(ds[j].id)
    ensures IsActionable(g, ds[i].edge.id)
  {
    ReferenceHoldsBack(ds, g, i);
    assert Decider(ds, |ds|, i) == i && Referent(ds, i).None?;
  }

  /** The freshly compiled graph, as a start for runs. */
  lemma CompiledStart(ds: seq<Draft>, g: Graph)
    requires WellNamed(ds) && Compiled(ds, g)
    ensures IsProgress(g, g) && TargetsStored(g) && UnprovenSet(g) == g.edges.Keys
    ensures KeyedById(g) && HasProvenance(g, g) && HasProofs(g)
  {
    forall k | k in g.edges
      ensures g.edges[k].status == Unproven && g.edges[k].id == k && g.edges[k].target in g.nodes
    {
      var i := EdgeHasDecider(ds, g, k);
      DeciderStands(ds, g, i);
    }
  }

  lemma CompiledIsFed(ds: seq<Draft>, g: Graph)
    requires WellNamed(ds) && Compiled(ds, g)
    ensures IsFed(g)
  {
    forall k | k in g.edges ensures IsFedEdge(g, k) {
      var i := EdgeHasDecider(ds, g, k);
      if Referent(ds, i).Some? {
        DeciderStands(ds, g, Referent(ds, i).value);
        assert ds[Referent(ds, i).value].edge.id in g.edges;
      } else {
        SubjectIsKnown(ds, g, i);
      }
    }
  }

  // ------------------------------------------------------------ rings

  /** The claim that decides draft j's edge refers to an earlier claim with draft i's key. */
  ghost predicate Continues(ds: seq<Draft>, i: nat, j: nat)
    requires i < |ds| && j < |ds|
  {
    var k := Referent(ds, Decider(ds, |ds|, j));
    k.Some? && ds[k.value].key == ds[i].key
  }

  /** Edges meet end to end exactly where a reference makes them; with distinct keys the later claim continues. */
  lemma ContinuesLater(ds: seq<Draft>, g: Graph, i: nat, j: nat)
    requires WellNamed(ds) && Compiled(ds, g) && i < |ds| && j < |ds|
    ensures ds[i].edge.id in g.edges && ds[j].edge.id in g.edges
    ensures g.edges[ds[j].edge.id].source == g.edges[ds[i].edge.id].target <==> Continues(ds, i, j)
    ensures DistinctKeys(ds) && Continues(ds, i, j) ==> i < j
  {
    DeciderStands(ds, g, i);
    DeciderStands(ds, g, j);
  }

  /** A ring of claims, each of whose edges is decided by a reference to the key of the one before it. */
  ghost predicate IsReferenceRing(ds: seq<Draft>, ring: seq<nat>) {
    && ring != [] && (forall m :: 0 <= m < |ring| ==> ring[m] < |ds|)
    && (forall m :: 0 < m < |ring| ==> Continues(ds, ring[m - 1], ring[m]))
    && Continues(ds, ring[|ring| - 1], ring[0])
  }

  /** A reference ring none of whose objects is given. */
  ghost predicate IsDeadlock(ds: seq<Draft>, ring: seq<nat>) {
    IsReferenceRing(ds, ring) && forall m :: 0 <= m < |ring| ==> !IsGiven(ds, Decider(ds, |ds|, ring[m]))
  }

  ghost predicate IsWalkOf(ds: seq<Draft>, ring: seq<nat>, walk: seq<string>) {
    |walk| == |ring| && forall m :: 0 <= m < |ring| ==> ring[m] < |ds| && walk[m] == ds[ring[m]].edge.id
  }

  ghost predicate LinksMatch(ds: seq<Draft>, g: Graph, i: nat, j: nat)
    requires i < |ds| && j < |ds|
  {
    && ds[i].edge.id in g.edges && ds[j].edge.id in g.edges
    && (g.edges[ds[j].edge.id].source == g.edges[ds[i].edge.id].target <==> Continues(ds, i, j))
  }

  lemma WalkMatches(ds: seq<Draft>, g: Graph, ring: seq<nat>, walk: seq<string>)
    requires forall i: nat, j: nat :: i < |ds| && j < |ds| ==> LinksMatch(ds, g, i, j)
    requires IsWalkOf(ds, ring, walk)
    ensures IsEdgeWalk(g, walk) <==> forall m :: 0 < m < |ring| ==> Continues(ds, ring[m - 1], ring[m])
  {
    forall m | 0 <= m < |ring| ensures walk[m] in g.edges {
      assert LinksMatch(ds, g, ring[m], ring[m]);
    }
    forall m | 0 < m < |ring|
      ensures g.edges[walk[m]].source == g.edges[walk[m - 1]].target <==> Continues(ds, ring[m - 1], ring[m])
    {
      assert LinksMatch(ds, g, ring[m - 1], ring[m]);
    }
  }

  lemma RingMatches(ds: seq<Draft>, g: Graph, ring: seq<nat>, walk: seq<string>)
    requires forall i: nat, j: nat :: i < |ds| && j < |ds| ==> LinksMatch(ds, g, i, j)
    requires IsWalkOf(ds, ring, walk)
    ensures IsClosedWalk(g, walk) <==> IsReferenceRing(ds, ring)
  {
    WalkMatches(ds, g, ring, walk);
    if ring != [] {
      assert LinksMatch(ds, g, ring[|ring| - 1], ring[0]);
    }
  }

  /** The rings of the graph are the reference rings of the plan. */
  lemma ClosedIsRing(ds: seq<Draft>, g: Graph, ring: seq<nat>, walk: seq<string>)
    requires WellNamed(ds) && Compiled(ds, g) && IsWalkOf(ds, ring, walk)
    ensures IsClosedWalk(g, walk) <==> IsReferenceRing(ds, ring)
  {
    forall i: nat, j: nat | i < |ds| && j < |ds| ensures LinksMatch(ds, g, i, j) {
      ContinuesLater(ds, g, i, j);
    }
    RingMatches(ds, g, ring, walk);
  }

  ghost predicate WaitsMatch(ds: seq<Draft>, g: Graph, i: nat)
    requires i < |ds|
  {
    var k := ds[i].edge.id;
    IsUnproven(g, k) && (IsKnown(g, g.edges[k].source) <==> IsGiven(ds, Decider(ds, |ds|, i)))
  }

  lemma BlockedMatches(ds: seq<Draft>, g: Graph, ring: seq<nat>, walk: seq<string>)
    requires forall i: nat :: i < |ds| ==> WaitsMatch(ds, g, i)
    requires IsWalkOf(ds, ring, walk) && (IsClosedWalk(g, walk) <==> IsReferenceRing(ds, ring))
    ensures IsBlocked(g, walk) <==> IsDeadlock(ds, ring)
  {
    forall m | 0 <= m < |ring| ensures WaitsMatch(ds, g, ring[m]) {}
  }

  /** And the blocked rings are the deadlocks. */
  lemma BlockedIsDeadlock(ds: seq<Draft>, g: Graph, ring: seq<nat>, walk: seq<string>)
    requires WellNamed(ds) && Compiled(ds, g) && IsWalkOf(ds, ring, walk)
    ensures IsBlocked(g, walk) <==> IsDeadlock(ds, ring)
  {
    ClosedIsRing(ds, g, ring, walk);
    CompiledStart(ds, g);
    forall i: nat | i < |ds| ensures WaitsMatch(ds, g, i) {
      DeciderStands(ds, g, i);
      ReferenceHoldsBack(ds, g, i);
      assert ds[i].edge.id in UnprovenSet(g);
    }
    BlockedMatches(ds, g, ring, walk);
  }

  lemma {:induction false} WalkHasRing(ds: seq<Draft>, g: Graph, walk: seq<string>) returns (ring: seq<nat>)
    requires WellNamed(ds) && Compiled(ds, g) && forall k :: k in walk ==> k in g.edges
    ensures IsWalkOf(ds, ring, walk)
  {
    ring := [];
    if walk != [] {
      var n := |walk| - 1;
      var rest := WalkHasRing(ds, g, walk[..n]);
      var i := EdgeHasDecider(ds, g, walk[n]);
      ring := rest + [i];
      WalkGrows(ds, rest, walk, i);
    }
  }

  lemma WalkGrows(ds: seq<Draft>, ring: seq<nat>, walk: seq<string>, i: nat)
    requires walk != [] && IsWalkOf(ds, ring, walk[..|walk| - 1]) && i < |ds| && ds[i].edge.id == walk[|walk| - 1]
    ensures IsWalkOf(ds, ring + [i], walk)
  {
    assert forall m :: 0 <= m < |ring| ==> walk[m] == walk[..|walk| - 1][m];
  }

  lemma RingHasWalk(ds: seq<Draft>, ring: seq<nat>) returns (walk: seq<string>)
    requires forall m :: 0 <= m < |ring| ==> ring[m] < |ds|
    ensures IsWalkOf(ds, ring, walk)
  {
    walk := seq(|ring|, m requires 0 <= m < |ring| => ds[ring[m]].edge.id);
  }

  lemma {:induction false} RingClimbs(ds: seq<Draft>, ring: seq<nat>, n: nat)
    requires DistinctKeys(ds) && IsReferenceRing(ds, ring) && n < |ring|
    ensures ring[0] <= ring[n]
  {
    if n > 0 {
      RingClimbs(ds, ring, n - 1);
      assert Continues(ds, ring[n - 1], ring[n]);
      ContinuesFurther(ds, ring[n - 1], ring[n]);
    }
  }

  lemma ContinuesFurther(ds: seq<Draft>, i: nat, j: nat)
    requires DistinctKeys(ds) && i < |ds| && j < |ds| && Continues(ds, i, j)
    ensures i < j
  {
    assert OwnsEdge(ds, |ds|, j);
  }

  lemma DistinctHasNoRing(ds: seq<Draft>, ring: seq<nat>)
    requires DistinctKeys(ds)
    ensures !IsReferenceRing(ds, ring)
  {
    if IsReferenceRing(ds, ring) {
      RingClimbs(ds, ring, |ring| - 1);
      ContinuesFurther(ds, ring[|ring| - 1], ring[0]);
    }
  }

  /** The compiled graph has a cycle exactly when the plan has a reference ring. */
  lemma CyclesAreRings(ds: seq<Draft>, g: Graph)
    requires WellNamed(ds) && Compiled(ds, g)
    ensures (exists walk :: IsClosedWalk(g, walk)) <==> exists ring :: IsReferenceRing(ds, ring)
  {
    if walk :| IsClosedWalk(g, walk) {
      var ring := WalkHasRing(ds, g, walk);
      ClosedIsRing(ds, g, ring, walk);
    }
    if ring :| IsReferenceRing(ds, ring) {
      var walk := RingHasWalk(ds, ring);
      ClosedIsRing(ds, g, ring, walk);
    }
  }

  /** With distinct keys it has none, whatever references the plan holds. */
  lemma CompiledIsAcyclic(ds: seq<Draft>, g: Graph, walk: seq<string>)
    requires WellNamed(ds) && DistinctKeys(ds) && Compiled(ds, g)
    ensures !IsClosedWalk(g, walk)
  {
    if IsClosedWalk(g, walk) {
      var ring := WalkHasRing(ds, g, walk);
      ClosedIsRing(ds, g, ring, walk);
      DistinctHasNoRing(ds, ring);
    }
  }

  lemma BlockedAreDeadlocks(ds: seq<Draft>, g: Graph)
    requires WellNamed(ds) && Compiled(ds, g)
    ensures (exists walk :: IsBlocked(g, walk)) <==> exists ring :: IsDeadlock(ds, ring)
  {
    if walk :| IsBlocked(g, walk) {
      var ring := WalkHasRing(ds, g, walk);
      BlockedIsDeadlock(ds, g, ring, walk);
    }
    if ring :| IsDeadlock(ds, ring) {
      var walk := RingHasWalk(ds, ring);
      BlockedIsDeadlock(ds, g, ring, walk);
    }
  }

  /**
   * Deadlock freedom. In every later state some edge is actionable while some edge is unproven, if and only if
   * no reference ring of the plan leaves all its objects open; distinct keys are enough.
   */
  lemma DeadlockFreedom(ds: seq<Draft>, g: Graph)
    requires WellNamed(ds) && Compiled(ds, g)
    ensures NeverStuck(g) <==> forall ring :: !IsDeadlock(ds, ring)
    ensures DistinctKeys(ds) ==> NeverStuck(g)
  {
    CompiledStart(ds, g);
    CompiledIsFed(ds, g);
    InDegrees(ds, g);
    NeverStuckIs(g);
    BlockedAreDeadlocks(ds, g);
    if DistinctKeys(ds) {
      forall ring ensures !IsDeadlock(ds, ring) {
        DistinctHasNoRing(ds, ring);
      }
    }
  }

  lemma DeadlockIsStuck(ds: seq<Draft>, g: Graph, ring: seq<nat>)
    requires WellNamed(ds) && Compiled(ds, g) && IsDeadlock(ds, ring)
    ensures !NeverStuck(g)
  {
    DeadlockFreedom(ds, g);
  }

  // ------------------------------------------------------------ maximal runs

  lemma AllNodesKnown(ds: seq<Draft>, g: Graph, end: Graph)
    requires WellNamed(ds) && Compiled(ds, g) && IsProgress(g, end)
    requires forall k :: k in g.edges ==> IsVerified(end, k)
    ensures forall n :: n in g.nodes ==> IsKnown(end, n)
  {
    forall n | n in g.nodes ensures IsKnown(end, n) {
      var i := NodeNameHasDraft(ds, Referents(ds), |ds|, n);
      if n == ds[i].target.id {
        DeciderStands(ds, g, i);
        assert IsVerified(end, ds[i].edge.id);
      } else {
        SubjectIsKnown(ds, g, i);
      }
    }
  }

  lemma UnprovenAreOpen(g: Graph, end: Graph)
    requires IsProgress(g, end)
    ensures UnprovenSet(end) == {} <==> forall k :: k in g.edges ==> IsVerified(end, k)
  {
    if UnprovenSet(end) == {} {
      NothingLeft(g, end);
    } else {
      var k :| k in UnprovenSet(end);
      assert k in g.edges && !IsVerified(end, k);
    }
  }

  /** A run that cannot be continued has verified every edge if and only if the plan has no deadlock. */
  lemma CompiledRunsComplete(ds: seq<Draft>, g: Graph, run: seq<Promotion>)
    requires WellNamed(ds) && Compiled(ds, g) && IsMaximal(g, run)
    ensures (forall k :: k in g.edges ==> IsVerified(After(g, run), k)) <==> forall ring :: !IsDeadlock(ds, ring)
    ensures EdgesOf(run) == g.edges.Keys - UnprovenSet(After(g, run))
    ensures IsProgress(g, After(g, run))
  {
    CompiledStart(ds, g);
    CompiledIsFed(ds, g);
    InDegrees(ds, g);
    RunConsumes(g, g, run);
    CaseRuns.MaximalRunsComplete(g, run);
    BlockedAreDeadlocks(ds, g);
    UnprovenAreOpen(g, After(g, run));
  }

  /** Then it has made every node KNOWN too, with one promotion per edge. */
  lemma CompleteRunsAre(ds: seq<Draft>, g: Graph, run: seq<Promotion>)
    requires WellNamed(ds) && Compiled(ds, g) && IsMaximal(g, run) && forall ring :: !IsDeadlock(ds, ring)
    ensures |run| == |g.edges| && EdgesOf(run) == g.edges.Keys
    ensures forall k :: k in g.edges ==> IsVerified(After(g, run), k)
    ensures forall n :: n in g.nodes ==> IsKnown(After(g, run), n)
  {
    CompiledRunsComplete(ds, g, run);
    CompiledStart(ds, g);
    RunConsumes(g, g, run);
    UnprovenAreOpen(g, After(g, run));
    AllNodesKnown(ds, g, After(g, run));
    assert |g.edges.Keys| == |g.edges|;
  }

  /** With distinct keys that is one promotion per claim. */
  lemma MaximalRunsComplete(ds: seq<Draft>, g: Graph, run: seq<Promotion>)
    requires WellNamed(ds) && DistinctKeys(ds) && Compiled(ds, g) && IsMaximal(g, run)
    ensures |run| == |ds| && EdgesOf(run) == g.edges.Keys
    ensures forall k :: k in g.edges ==> IsVerified(After(g, run), k)
    ensures forall n :: n in g.nodes ==> IsKnown(After(g, run), n)
  {
    forall ring ensures !IsDeadlock(ds, ring) {
      DistinctHasNoRing(ds, ring);
    }
    CompleteRunsAre(ds, g, run);
    OneEdgePerClaim(ds, g);
  }

  /** Two maximal runs of a compiled case, colliding keys included, have the same length and end with the same statuses. */
  lemma Confluence(ds: seq<Draft>, g: Graph, run: seq<Promotion>, other: seq<Promotion>)
    requires WellNamed(ds) && Compiled(ds, g) && IsMaximal(g, run) && IsMaximal(g, other)
    ensures |run| == |other| && SameStatuses(After(g, run), After(g, other))
  {
    CompiledStart(ds, g);
    CaseRuns.Confluence(g, run, other);
  }
}
