/**
 * Runs of promotions on any evidence graph: they use up the edges they name, where they stop is determined,
 * and what keeps them from verifying everything is a closed walk of edges whose sources are all open.
 */
module CaseRuns {
  import opened Text
  import opened CaseGraphs

  /** A later state of g in which no edge was refuted and every verified edge has a KNOWN target. */
  ghost predicate IsProgress(g: Graph, h: Graph) {
    && KeepsProofs(g, h)
    && forall k :: k in h.edges ==>
         && h.edges[k].status != Refuted
         && (IsVerified(h, k) ==> IsKnown(h, h.edges[k].target))
  }

  ghost function UnprovenSet(g: Graph): set<string> {
    set k | k in g.edges && IsUnproven(g, k)
  }

  ghost function EdgesOf(run: seq<Promotion>): set<string> {
    set p | p in run :: p.edge
  }

  /** Targets of actionable edges are stored nodes. */
  ghost predicate TargetsStored(g: Graph) {
    forall k :: k in g.edges ==> g.edges[k].target in g.nodes
  }

  /** Only the promoted edge and its target change. */
  ghost predicate ChangesOnly(h: Graph, next: Graph, edge: string)
    requires edge in h.edges
  {
    && next.edges.Keys == h.edges.Keys && next.nodes.Keys == h.nodes.Keys
    && (forall k :: k in h.edges && k != edge ==> next.edges[k] == h.edges[k])
    && IsVerified(next, edge) && next.edges[edge].target == h.edges[edge].target
    && (h.edges[edge].target in h.nodes ==> IsKnown(next, h.edges[edge].target))
  }

  lemma PromoteChangesOnly(h: Graph, p: Promotion)
    requires p.edge in h.edges
    ensures ChangesOnly(h, Promote(h, p), p.edge)
  {
  }

  lemma KeepsProofsIsTransitive(g: Graph, h: Graph, next: Graph)
    requires KeepsProofs(g, h) && KeepsProofs(h, next)
    ensures KeepsProofs(g, next)
  {
  }

  lemma ChangeProgresses(g: Graph, h: Graph, next: Graph, edge: string)
    requires IsProgress(g, h) && TargetsStored(h) && edge in h.edges
    requires ChangesOnly(h, next, edge) && KeepsProofs(h, next)
    ensures IsProgress(g, next) && TargetsStored(next)
  {
    KeepsProofsIsTransitive(g, h, next);
    forall k | k in next.edges
      ensures next.edges[k].status != Refuted && (IsVerified(next, k) ==> IsKnown(next, next.edges[k].target))
    {
      if k != edge && IsVerified(next, k) {
        assert IsVerified(h, k) && IsKnown(h, h.edges[k].target);
      }
    }
  }

  lemma ChangeUsesUp(h: Graph, next: Graph, edge: string)
    requires edge in h.edges && ChangesOnly(h, next, edge)
    ensures UnprovenSet(next) == UnprovenSet(h) - {edge}
  {
    forall k ensures k in UnprovenSet(next) <==> k in UnprovenSet(h) && k != edge {
      if k in h.edges && k != edge {
        assert next.edges[k] == h.edges[k];
      }
    }
  }

  lemma PromoteProgresses(g: Graph, h: Graph, p: Promotion)
    requires IsProgress(g, h) && TargetsStored(h) && IsActionable(h, p.edge)
    ensures IsProgress(g, Promote(h, p)) && TargetsStored(Promote(h, p))
    ensures UnprovenSet(Promote(h, p)) == UnprovenSet(h) - {p.edge}
  {
    PromoteKeeps(h, p);
    PromoteChangesOnly(h, p);
    ChangeProgresses(g, h, Promote(h, p), p.edge);
    ChangeUsesUp(h, Promote(h, p), p.edge);
  }

  lemma EdgesOfRun(run: seq<Promotion>)
    requires run != []
    ensures EdgesOf(run) == {run[0].edge} + EdgesOf(run[1..])
  {
    assert run == [run[0]] + run[1..];
  }

  lemma OneFewer<T>(all: set<T>, x: T, rest: set<T>, left: set<T>)
    requires x in all && rest !! left && all - {x} == rest + left
    ensures ({x} + rest) !! left && all == {x} + rest + left && |all| == |all - {x}| + 1
  {
  }

  /** A run promotes pairwise different edges: it uses up exactly the unproven edges it names. */
  lemma {:induction false} RunConsumes(g: Graph, h: Graph, run: seq<Promotion>)
    requires IsProgress(g, h) && TargetsStored(h) && LegalRun(h, run)
    ensures IsProgress(g, After(h, run)) && TargetsStored(After(h, run))
    ensures EdgesOf(run) !! UnprovenSet(After(h, run))
    ensures UnprovenSet(h) == EdgesOf(run) + UnprovenSet(After(h, run))
    ensures |UnprovenSet(h)| == |run| + |UnprovenSet(After(h, run))|
    decreases |run|
  {
    if run != [] {
      var p := run[0];
      PromoteProgresses(g, h, p);
      RunConsumes(g, Promote(h, p), run[1..]);
      EdgesOfRun(run);
      assert p.edge in UnprovenSet(h);
      OneFewer(UnprovenSet(h), p.edge, EdgesOf(run[1..]), UnprovenSet(After(h, run)));
    }
  }

  ghost predicate IsMaximal(g: Graph, run: seq<Promotion>) {
    LegalRun(g, run) && forall k :: !IsActionable(After(g, run), k)
  }

  lemma PromoteLeavesFewer(g: Graph, h: Graph, p: Promotion)
    requires IsProgress(g, h) && TargetsStored(h) && IsActionable(h, p.edge)
    ensures IsProgress(g, Promote(h, p)) && TargetsStored(Promote(h, p))
    ensures |UnprovenSet(Promote(h, p))| < |UnprovenSet(h)|
  {
    PromoteProgresses(g, h, p);
    assert p.edge in UnprovenSet(h);
    assert |UnprovenSet(h) - {p.edge}| == |UnprovenSet(h)| - 1;
  }

  /** Any run can be continued until nothing is actionable. */
  lemma {:induction false} MaximalRunExists(g: Graph, h: Graph) returns (run: seq<Promotion>)
    requires IsProgress(g, h) && TargetsStored(h)
    ensures IsMaximal(h, run)
    decreases |UnprovenSet(h)|
  {
    if k :| IsActionable(h, k) {
      var p := Promotion(k, None, {}, None);
      PromoteLeavesFewer(g, h, p);
      var rest := MaximalRunExists(g, Promote(h, p));
      run := [p] + rest;
      assert run[1..] == rest;
    } else {
      run := [];
    }
  }

  // ------------------------------------------------------------ confluence

  lemma SameSkeletonAs(g: Graph, h: Graph, end: Graph)
    requires SameSkeleton(g, h) && SameSkeleton(g, end)
    ensures SameSkeleton(h, end)
  {
  }

  /** What is actionable somewhere is VERIFIED where everything has happened that can happen. */
  lemma ActionableIsDone(g: Graph, h: Graph, edge: string, end: Graph)
    requires IsActionable(h, edge) && KeepsProofs(h, end) && IsProgress(g, end) && !IsActionable(end, edge)
    ensures IsVerified(end, edge) && IsKnown(end, h.edges[edge].target)
  {
    assert edge in end.edges && end.edges[edge].source == h.edges[edge].source;
    assert IsKnown(end, h.edges[edge].source);
  }

  lemma PromoteStaysWithin(g: Graph, h: Graph, next: Graph, edge: string, end: Graph)
    requires IsPromotion(h, next, edge) && KeepsProofs(h, end) && IsProgress(g, end) && !IsActionable(end, edge)
    ensures KeepsProofs(next, end)
  {
    ActionableIsDone(g, h, edge, end);
    SameSkeletonAs(h, next, end);
  }

  lemma {:induction false} RunStaysWithin(g: Graph, h: Graph, run: seq<Promotion>, end: Graph)
    requires LegalRun(h, run) && KeepsProofs(h, end) && IsProgress(g, end) && forall k :: !IsActionable(end, k)
    ensures KeepsProofs(After(h, run), end)
    decreases |run|
  {
    if run != [] {
      PromoteIsPromotion(h, run[0]);
      PromoteStaysWithin(g, h, Promote(h, run[0]), run[0].edge, end);
      RunStaysWithin(g, Promote(h, run[0]), run[1..], end);
    }
  }

  /** Statuses only change to KNOWN and VERIFIED. */
  ghost predicate OnlyProves(g: Graph, h: Graph) {
    && SameSkeleton(g, h)
    && (forall k :: k in g.edges ==> h.edges[k].status in {Verified, g.edges[k].status})
    && forall n :: n in g.nodes ==> h.nodes[n].status in {NodeStatus.Known, g.nodes[n].status}
  }

  lemma OnlyProvesIsTransitive(f: Graph, g: Graph, h: Graph)
    requires OnlyProves(f, g) && OnlyProves(g, h)
    ensures OnlyProves(f, h)
  {
  }

  lemma PromoteOnlyProves(g: Graph, p: Promotion)
    requires IsActionable(g, p.edge)
    ensures OnlyProves(g, Promote(g, p))
  {
  }

  lemma {:induction false} RunOnlyProves(g: Graph, run: seq<Promotion>)
    requires LegalRun(g, run)
    ensures OnlyProves(g, After(g, run))
    decreases |run|
  {
    if run != [] {
      PromoteOnlyProves(g, run[0]);
      RunOnlyProves(Promote(g, run[0]), run[1..]);
      OnlyProvesIsTransitive(g, Promote(g, run[0]), After(g, run));
    }
  }

  ghost predicate SameStatuses(g: Graph, h: Graph) {
    && g.edges.Keys == h.edges.Keys && (forall k :: k in g.edges ==> g.edges[k].status == h.edges[k].status)
    && g.nodes.Keys == h.nodes.Keys && forall n :: n in g.nodes ==> g.nodes[n].status == h.nodes[n].status
  }

  lemma WithinEachOther(g: Graph, h: Graph, end: Graph)
    requires OnlyProves(g, h) && OnlyProves(g, end) && KeepsProofs(h, end) && KeepsProofs(end, h)
    ensures SameStatuses(h, end)
  {
    forall k | k in h.edges ensures h.edges[k].status == end.edges[k].status {
      assert IsVerified(h, k) <==> IsVerified(end, k);
    }
    forall n | n in h.nodes ensures h.nodes[n].status == end.nodes[n].status {
      assert IsKnown(h, n) <==> IsKnown(end, n);
    }
  }

  lemma SameLeft(h: Graph, end: Graph)
    requires SameStatuses(h, end)
    ensures UnprovenSet(h) == UnprovenSet(end)
  {
  }

  /** On any graph two maximal runs, in whatever order, have the same length and end with the same statuses. */
  lemma Confluence(g: Graph, run: seq<Promotion>, other: seq<Promotion>)
    requires IsProgress(g, g) && TargetsStored(g) && IsMaximal(g, run) && IsMaximal(g, other)
    ensures |run| == |other| && SameStatuses(After(g, run), After(g, other))
  {
    RunConsumes(g, g, run);
    RunConsumes(g, g, other);
    RunStaysWithin(g, g, run, After(g, other));
    RunStaysWithin(g, g, other, After(g, run));
    RunOnlyProves(g, run);
    RunOnlyProves(g, other);
    WithinEachOther(g, After(g, run), After(g, other));
    SameLeft(After(g, run), After(g, other));
  }

  // ------------------------------------------------------------ what holds a run up

  /** Edges end to end. */
  ghost predicate IsEdgeWalk(g: Graph, walk: seq<string>) {
    && (forall i :: 0 <= i < |walk| ==> walk[i] in g.edges)
    && forall i :: 0 < i < |walk| ==> g.edges[walk[i]].source == g.edges[walk[i - 1]].target
  }

  ghost predicate IsClosedWalk(g: Graph, walk: seq<string>) {
    IsEdgeWalk(g, walk) && |walk| >= 1 && g.edges[walk[|walk| - 1]].target == g.edges[walk[0]].source
  }

  /** Edges in a ring, each waiting for the one before it. */
  ghost predicate IsBlocked(g: Graph, walk: seq<string>) {
    IsClosedWalk(g, walk) && forall i :: 0 <= i < |walk| ==> IsUnproven(g, walk[i]) && !IsKnown(g, g.edges[walk[i]].source)
  }

  /** No two edges end at the same node. */
  ghost predicate TargetsApart(g: Graph) {
    forall k, l :: k in g.edges && l in g.edges && g.edges[k].target == g.edges[l].target ==> k == l
  }

  ghost predicate IsFedEdge(g: Graph, k: string)
    requires k in g.edges
  {
    IsKnown(g, g.edges[k].source) || exists l :: l in g.edges && g.edges[l].target == g.edges[k].source
  }

  /** Every source is KNOWN or the target of an edge. */
  ghost predicate IsFed(g: Graph) {
    forall k {:trigger IsFedEdge(g, k)} :: k in g.edges ==> IsFedEdge(g, k)
  }

  /** What an unproven edge waits for is unproven too. */
  lemma WaitsForUnproven(g: Graph, h: Graph, k: string) returns (l: string)
    requires IsProgress(g, h) && IsFed(g) && IsUnproven(h, k) && !IsActionable(h, k)
    ensures IsUnproven(h, l) && h.edges[l].target == h.edges[k].source
  {
    assert IsFedEdge(g, k);
    l :| l in g.edges && g.edges[l].target == g.edges[k].source;
    assert l in h.edges && h.edges[l].target == g.edges[l].target;
  }

  lemma WalkHead(h: Graph, walk: seq<string>, n: nat)
    requires IsEdgeWalk(h, walk) && n <= |walk|
    ensures IsEdgeWalk(h, walk[..n])
  {
  }

  lemma WalkExtends(h: Graph, l: string, walk: seq<string>)
    requires IsEdgeWalk(h, walk) && walk != [] && l in h.edges && h.edges[l].target == h.edges[walk[0]].source
    ensures IsEdgeWalk(h, [l] + walk)
  {
  }

  /** Unproven edges end to end, of which at most the first is actionable. */
  ghost predicate IsWaitingWalk(h: Graph, walk: seq<string>) {
    && walk != [] && IsEdgeWalk(h, walk) && (forall i :: 0 <= i < |walk| ==> IsUnproven(h, walk[i]))
    && forall i :: 0 < i < |walk| ==> !IsKnown(h, h.edges[walk[i]].source)
  }

  lemma ClosesRing(h: Graph, walk: seq<string>, n: nat)
    requires IsWaitingWalk(h, walk) && n < |walk| && !IsActionable(h, walk[0])
    requires h.edges[walk[n]].target == h.edges[walk[0]].source
    ensures IsBlocked(h, walk[..n + 1])
  {
    WalkHead(h, walk, n + 1);
  }

  /** A walk that waits for its first edge waits for the edge before it as well. */
  lemma WaitingExtends(h: Graph, l: string, walk: seq<string>)
    requires IsWaitingWalk(h, walk) && !IsActionable(h, walk[0])
    requires IsUnproven(h, l) && h.edges[l].target == h.edges[walk[0]].source
    ensures IsWaitingWalk(h, [l] + walk)
  {
    WalkExtends(h, l, walk);
  }

  ghost function Members(walk: seq<string>): set<string> {
    set k | k in walk
  }

  lemma MembersGrow(l: string, walk: seq<string>)
    ensures Members([l] + walk) == Members(walk) + {l}
  {
  }

  /** The second walk starts at an actionable edge and ends where the first one does. */
  ghost predicate LeadsTo(h: Graph, longer: seq<string>, walk: seq<string>)
    requires walk != []
  {
    IsWaitingWalk(h, longer) && IsActionable(h, longer[0]) && longer[|longer| - 1] == walk[|walk| - 1]
  }

  /**
   * Following sources back from a walk of unproven edges leads to an actionable edge, from which the walk then
   * starts, or into a blocked ring.
   */
  lemma {:induction false} FindActionable(g: Graph, h: Graph, walk: seq<string>) returns (longer: seq<string>)
    requires IsProgress(g, h) && IsFed(g) && IsWaitingWalk(h, walk)
    ensures IsBlocked(h, longer) || LeadsTo(h, longer, walk)
    decreases UnprovenSet(h) - Members(walk)
  {
    if IsActionable(h, walk[0]) {
      longer := walk;
    } else {
      var l := WaitsForUnproven(g, h, walk[0]);
      if n: nat :| n < |walk| && walk[n] == l {
        ClosesRing(h, walk, n);
        longer := walk[..n + 1];
      } else {
        WaitingExtends(h, l, walk);
        MembersGrow(l, walk);
        assert l in UnprovenSet(h) && l !in Members(walk);
        longer := FindActionable(g, h, [l] + walk);
      }
    }
  }

  /** While some edge is unproven, one is actionable or a ring is blocked. */
  lemma StuckIsBlocked(g: Graph, h: Graph)
    requires IsProgress(g, h) && IsFed(g) && UnprovenSet(h) != {}
    ensures (exists k :: IsActionable(h, k)) || exists walk :: IsBlocked(h, walk)
  {
    var k :| k in UnprovenSet(h);
    var walk := FindActionable(g, h, [k]);
    assert IsBlocked(h, walk) || IsActionable(h, walk[0]);
  }

  /** The edge that ends where edge n of a closed walk starts is in the walk. */
  lemma RingFeedsItself(h: Graph, walk: seq<string>, n: nat, l: string)
    requires IsClosedWalk(h, walk) && TargetsApart(h) && n < |walk|
    requires l in h.edges && h.edges[l].target == h.edges[walk[n]].source
    ensures l in walk
  {
    var before := if n > 0 then walk[n - 1] else walk[|walk| - 1];
    assert h.edges[before].target == h.edges[walk[n]].source && before in walk;
  }

  /** A blocked ring stays blocked. */
  lemma BlockedStays(h: Graph, next: Graph, edge: string, walk: seq<string>)
    requires IsBlocked(h, walk) && TargetsApart(h) && IsPromotion(h, next, edge) && ChangesOnly(h, next, edge)
    ensures IsBlocked(next, walk) && TargetsApart(next)
  {
    forall i | 0 <= i < |walk|
      ensures IsUnproven(next, walk[i]) && !IsKnown(next, next.edges[walk[i]].source)
    {
      if h.edges[walk[i]].source == h.edges[edge].target {
        RingFeedsItself(h, walk, i, edge);
        assert false;
      }
    }
  }

  lemma {:induction false} RunStaysBlocked(h: Graph, run: seq<Promotion>, walk: seq<string>)
    requires IsBlocked(h, walk) && TargetsApart(h) && LegalRun(h, run)
    ensures IsBlocked(After(h, run), walk)
    decreases |run|
  {
    if run != [] {
      PromoteIsPromotion(h, run[0]);
      PromoteChangesOnly(h, run[0]);
      BlockedStays(h, Promote(h, run[0]), run[0].edge, walk);
      RunStaysBlocked(Promote(h, run[0]), run[1..], walk);
    }
  }

  lemma BlockedWasBlocked(g: Graph, h: Graph, walk: seq<string>)
    requires IsProgress(g, h) && UnprovenSet(g) == g.edges.Keys && IsBlocked(h, walk)
    ensures IsBlocked(g, walk)
  {
    forall i | 0 <= i < |walk| ensures IsUnproven(g, walk[i]) {
      assert walk[i] in UnprovenSet(g);
    }
  }

  lemma NothingLeft(g: Graph, end: Graph)
    requires IsProgress(g, end) && UnprovenSet(end) == {}
    ensures forall k :: k in g.edges ==> IsVerified(end, k)
  {
    forall k | k in g.edges ensures IsVerified(end, k) {
      assert k in end.edges && end.edges[k].status != Refuted && k !in UnprovenSet(end);
    }
  }

  lemma EndsBlocked(g: Graph, end: Graph) returns (walk: seq<string>)
    requires IsProgress(g, end) && UnprovenSet(g) == g.edges.Keys && IsFed(g)
    requires UnprovenSet(end) != {} && forall k :: !IsActionable(end, k)
    ensures IsBlocked(g, walk)
  {
    StuckIsBlocked(g, end);
    walk :| IsBlocked(end, walk);
    BlockedWasBlocked(g, end, walk);
  }

  /**
   * A maximal run of a graph in which nothing is proved yet leaves nothing unproven if and only if no ring is
   * blocked. What it promotes is exactly what it verifies.
   */
  lemma MaximalRunsComplete(g: Graph, run: seq<Promotion>)
    requires IsProgress(g, g) && TargetsStored(g) && UnprovenSet(g) == g.edges.Keys
    requires IsFed(g) && TargetsApart(g) && IsMaximal(g, run)
    ensures UnprovenSet(After(g, run)) == {} <==> forall walk :: !IsBlocked(g, walk)
    ensures EdgesOf(run) == g.edges.Keys - UnprovenSet(After(g, run))
  {
    RunConsumes(g, g, run);
    if walk :| IsBlocked(g, walk) {
      RunStaysBlocked(g, run, walk);
      assert walk[0] in UnprovenSet(After(g, run));
    }
    if UnprovenSet(After(g, run)) != {} {
      var walk := EndsBlocked(g, After(g, run));
    }
  }

  /** While some edge is unproven, some edge is actionable, whatever has been verified. */
  ghost predicate NeverStuck(start: Graph) {
    forall h :: IsProgress(start, h) && UnprovenSet(h) != {} ==> exists k :: IsActionable(h, k)
  }

  /** A blocked ring outlasts a maximal run. */
  lemma BlockedEnd(g: Graph, walk: seq<string>) returns (end: Graph)
    requires IsProgress(g, g) && TargetsStored(g) && TargetsApart(g) && IsBlocked(g, walk)
    ensures IsProgress(g, end) && walk[0] in UnprovenSet(end) && forall k :: !IsActionable(end, k)
  {
    var run := MaximalRunExists(g, g);
    RunConsumes(g, g, run);
    RunStaysBlocked(g, run, walk);
    end := After(g, run);
  }

  lemma UnblockedGoesOn(g: Graph, h: Graph)
    requires IsProgress(g, h) && UnprovenSet(h) != {} && IsFed(g) && UnprovenSet(g) == g.edges.Keys
    requires forall walk :: !IsBlocked(g, walk)
    ensures exists k :: IsActionable(h, k)
  {
    StuckIsBlocked(g, h);
    if walk :| IsBlocked(h, walk) {
      BlockedWasBlocked(g, h, walk);
    }
  }

  /** Exactly the graphs without a blocked ring are never stuck. */
  lemma NeverStuckIs(g: Graph)
    requires IsProgress(g, g) && TargetsStored(g) && UnprovenSet(g) == g.edges.Keys && IsFed(g) && TargetsApart(g)
    ensures NeverStuck(g) <==> forall walk :: !IsBlocked(g, walk)
  {
    if walk :| IsBlocked(g, walk) {
      var end := BlockedEnd(g, walk);
      assert UnprovenSet(end) != {};
    } else {
      forall h | IsProgress(g, h) && UnprovenSet(h) != {} ensures exists k :: IsActionable(h, k) {
        UnblockedGoesOn(g, h);
      }
    }
  }
}
