/**
 * Two plans with the ids `a.b` and `a b`, which pass every check and derive one key. In the first the claims stand
 * side by side: the hunt resolves and loses a claim. In the second one refers to the other: the case is a ring.
 */
module CollidingPlans {
  import opened Text
  import opened CaseGraphs
  import opened CaseBuilder
  import opened CaseRuns
  import opened CaseTheory
  import opened ClaimLoop
  import opened ClaimSoundness
  import opened ClaimCompleteness
  import opened ClaimHunting
  import opened LostClaims
  import opened Planning
  import Claims
  import S = Stopping

  /** Two different ids that collide: every character that is no letter, digit, dash or underscore becomes a dash. */
  lemma DotAndBlankCollide()
    ensures Trimmed("a.b") && Trimmed("a b") && "a.b" != "a b" && SafeId("a.b") == SafeId("a b") == "a-b"
  {
    assert SafeChars("a.b") == "a-b" && SafeChars("a b") == "a-b";
  }

  /** A mandatory claim of request `r` about an event that is not known yet. */
  function Asks(id: string, subject: string): Claims.Claim {
    Claims.Claim(id, "r", subject, None, None, [], [], false, [], false, false, Claims.Unproven)
  }

  function TwoClaims(subject: string): seq<Claims.Claim> {
    [Asks("a.b", Host()), Asks("a b", subject)]
  }

  lemma NoDependencyNoCycle(claims: seq<Claims.Claim>, p: seq<string>)
    requires forall c :: c in claims ==> c.dependencies == []
    ensures !Claims.ClosedDependencyWalk(claims, p)
  {
    if |p| >= 2 {
      assert !Claims.DependsOn(claims, p[0], p[1]);
    }
  }

  lemma TwoClaimsAreValid(subject: string)
    ensures ValidIds(TwoClaims(subject)) && Claims.FromRequest("r", TwoClaims(subject))
    ensures Claims.KnownDependencies(TwoClaims(subject)) && Claims.NoCircularDependency(TwoClaims(subject))
  {
    forall p ensures !Claims.ClosedDependencyWalk(TwoClaims(subject), p) {
      NoDependencyNoCycle(TwoClaims(subject), p);
    }
  }

  lemma Collide(subject: string)
    ensures var ds := Drafts(TwoClaims(subject)); |ds| == 2 && ds[0].key == ds[1].key && ds[0].id == "a.b"
  {
    DotAndBlankCollide();
  }

  lemma ReferenceOf(kind: string, value: string)
    requires ':' !in kind && Trimmed(kind) && Trimmed(value) && Fold(kind) == kind && kind != ""
    ensures SplitRef(kind + ":" + value) == (kind, value)
  {
    SplitFirstAt(kind, ':', value);
    StripIsTrimmed(kind);
    StripIsTrimmed(value);
  }

  function Host(): string { "host" + ":" + "x" }

  function First(): string { "claim" + ":" + "a.b" }

  lemma HostIsNoReference()
    ensures SplitRef(Host()) == ("host", "x")
  {
    ReferenceOf("host", "x");
  }

  lemma FirstIsReference()
    ensures SplitRef(First()) == ("claim", "a.b")
  {
    ReferenceOf("claim", "a.b");
  }

  // ------------------------------------------------------------ a ring

  lemma OneEdge(ds: seq<Draft>, g: Graph)
    requires WellNamed(ds) && Compiled(ds, g) && |ds| == 2 && ds[0].key == ds[1].key
    ensures |g.edges| == 1
  {
    DeciderStands(ds, g, 0);
    forall k | k in g.edges ensures k == ds[0].edge.id {
      var i := EdgeHasDecider(ds, g, k);
    }
    assert g.edges.Keys == {ds[0].edge.id};
    assert |g.edges| == |g.edges.Keys|;
  }

  /** Two drafts with one key, the second of which refers to the first and leaves its object open. */
  ghost predicate IsSelfReferring(ds: seq<Draft>) {
    && WellNamed(ds) && |ds| == 2 && ds[0].key == ds[1].key
    && ds[1].reference == Some(ds[0].id) && ds[1].target.status != NodeStatus.Known
  }

  lemma SelfReferringIsDeadlock(ds: seq<Draft>)
    requires IsSelfReferring(ds)
    ensures IsDeadlock(ds, [1]) && Decider(ds, 2, 0) == Decider(ds, 2, 1) == 1 && !IsGiven(ds, 1)
  {
    assert Referent(ds, 1) == Some(0);
    assert Decider(ds, 2, 1) == 1 && Decider(ds, 2, 0) == 1;
  }

  lemma SelfReferringWaits(ds: seq<Draft>, g: Graph, k: string)
    requires IsSelfReferring(ds) && Compiled(ds, g)
    ensures !IsActionable(g, k)
  {
    if k in g.edges {
      SelfReferringIsDeadlock(ds);
      var i := EdgeHasDecider(ds, g, k);
      ReferenceHoldsBack(ds, g, i);
    }
  }

  lemma SelfReferringIsStuck(ds: seq<Draft>, g: Graph)
    requires IsSelfReferring(ds) && Compiled(ds, g)
    ensures |g.edges| == 1 && !NeverStuck(g)
  {
    SelfReferringIsDeadlock(ds);
    DeadlockIsStuck(ds, g, [1]);
    OneEdge(ds, g);
  }

  lemma TwoClaimsSelfRefer()
    ensures IsSelfReferring(Drafts(TwoClaims(First())))
  {
    DraftsAreWellNamed(TwoClaims(First()));
    Collide(First());
    FirstIsReference();
  }

  /** The second claim names the first as its subject: the plan is valid, and nothing can ever be tested. */
  lemma SelfReferenceIsStuck(g: Graph)
    requires Compiled(Drafts(TwoClaims(First())), g)
    ensures |g.edges| == 1 && !NeverStuck(g) && forall k :: !IsActionable(g, k)
  {
    TwoClaimsSelfRefer();
    SelfReferringIsStuck(Drafts(TwoClaims(First())), g);
    forall k ensures !IsActionable(g, k) {
      SelfReferringWaits(Drafts(TwoClaims(First())), g, k);
    }
  }

  // ------------------------------------------------------------ a lost claim

  /** A world that accepts one new observation a turn. */
  function ObservationOf(k: nat): string {
    seq(k, _ => 'o')
  }

  function GenerousTurn(k: nat): Turn {
    Turn(false, false, false, QueryResult(true, {ObservationOf(k)}), Accepted({ObservationOf(k)}, ""))
  }

  lemma GenerousWorld(world: nat -> Turn)
    requires forall k: nat :: world(k) == GenerousTurn(k)
    ensures IsAcceptingWorld(world, {})
  {
    forall k: nat ensures AcceptsAt(world, {}, k) {
      assert world(k) == GenerousTurn(k);
      forall j: nat | j < k ensures ObservationOf(k) !in world(j).result.rows {
        assert world(j) == GenerousTurn(j) && |ObservationOf(j)| == j;
      }
      assert IsNewAt(world, {}, k, ObservationOf(k));
    }
  }

  function Example(): Setting {
    Setting(Binder([], "", (e, source, target) => Some("lookup")), [], [], false, false)
  }

  function Budget(): S.Ledger {
    S.Ledger(9, 9, 9, 9, 0, 0, 0, 0, false)
  }

  lemma ExampleBinds(g: Graph)
    ensures BindsEverything(Example().binder, g)
  {
    FallbackBinds(Example().binder, g);
  }

  lemma PairIsNeverStuck(ds: seq<Draft>, g: Graph)
    requires WellNamed(ds) && Compiled(ds, g) && |ds| == 2 && ds[0].key == ds[1].key
    requires ds[0].reference == None && ds[1].reference == None
    ensures |g.edges| == 1 && NeverStuck(g)
  {
    OneEdge(ds, g);
    UnreferencedNeverStuck(ds, g);
  }

  lemma PairIsReady(set_: Setting, claims: seq<Claims.Claim>, s: State)
    requires IsFreshStart(claims, s) && IsUnblocked(set_, s) && HasRoom(s.ledger, 1) && BindsEverything(set_.binder, s.graph)
    requires |claims| == 2 && Drafts(claims)[0].key == Drafts(claims)[1].key
    requires Drafts(claims)[0].reference == None && Drafts(claims)[1].reference == None
    ensures IsReady(set_, claims, s)
  {
    DraftsAreWellNamed(claims);
    PairIsNeverStuck(Drafts(claims), s.graph);
  }

  lemma HostDrafts()
    ensures var ds := Drafts(TwoClaims(Host()));
      |ds| == 2 && ds[0].key == ds[1].key && ds[0].reference == None && ds[1].reference == None
  {
    Collide(Host());
    HostIsNoReference();
  }

  lemma ExampleIsReady(s: State)
    requires IsFreshStart(TwoClaims(Host()), s) && !s.incomplete && s.ledger == Budget()
    ensures IsReady(Example(), TwoClaims(Host()), s)
  {
    HostDrafts();
    ExampleBinds(s.graph);
    PairIsReady(Example(), TwoClaims(Host()), s);
  }

  lemma OnlySecondOwns(ds: seq<Draft>)
    requires |ds| == 2 && ds[0].key == ds[1].key && ds[0].id != ds[1].id
    requires Strip(ds[0].id) == ds[0].id && Strip(ds[1].id) == ds[1].id
    ensures !IsOwned(ds, 0) && IsOwned(ds, 1)
  {
    StrippedOwnership(ds, 0);
    StrippedOwnership(ds, 1);
  }

  lemma TwoClaimsOwnOne()
    ensures !IsOwned(Drafts(TwoClaims(Host())), 0) && IsOwned(Drafts(TwoClaims(Host())), 1)
  {
    Collide(Host());
    DotAndBlankCollide();
    StripIsTrimmed("a.b");
    StripIsTrimmed("a b");
    OnlySecondOwns(Drafts(TwoClaims(Host())));
  }

  lemma SettledLosesOne(claims: seq<Claims.Claim>, end: seq<Claims.Claim>)
    requires IsSettled(claims, end) && |claims| == 2 && !claims[0].optional && !claims[1].optional
    requires !IsOwned(Drafts(claims), 0) && IsOwned(Drafts(claims), 1)
    ensures |end| == 2 && end[0].status == Claims.Unproven && end[1].status == Claims.Supported
  {
  }

  /** A hunt in a world that accepts everything, for a plan that is ready however it is compiled. */
  method HuntGenerously(setting: Setting, claims: seq<Claims.Claim>, counters: S.Ledger)
    returns (decision: Option<S.Decision>, end: seq<Claims.Claim>)
    requires ValidIds(claims) && forall c :: c in claims ==> c.status == Claims.Unproven
    requires forall s :: IsFreshStart(claims, s) && !s.incomplete && s.ledger == counters ==> IsReady(setting, claims, s)
    ensures decision == Some(S.StopResolved) && IsSettled(claims, end)
  {
    var world := (k: nat) => GenerousTurn(k);
    GenerousWorld(world);
    var hunt, start, _ := HuntPlan(setting, claims, [], counters, {}, world);
    assert IsReady(setting, claims, start);
    decision, end := hunt.decision, hunt.claims;
  }

  method AcceptExample(isNative: string -> bool, plan: seq<Claims.Claim>) returns (verdict: Claims.PlanVerdict)
    requires !isNative("find") && Claims.DistinctIds(plan) && Claims.FromRequest("r", plan)
    requires Claims.KnownDependencies(plan) && Claims.NoCircularDependency(plan)
    ensures verdict.Accepted?
  {
    StripIsTrimmed("p");
    StripIsTrimmed("r");
    StripIsTrimmed("find");
    verdict := Claims.AcceptPlan(Claims.PlanText("p", "r", "find"), isNative, plan);
  }

  /**
   * From the text of the plan to the decision: the plan is accepted, every attempt succeeds, the hunt is resolved,
   * and the first mandatory claim is still UNPROVEN.
   */
  method LoseClaim(isNative: string -> bool) returns (verdict: Claims.PlanVerdict, decision: Option<S.Decision>, claims: seq<Claims.Claim>)
    requires !isNative("find")
    ensures verdict.Accepted? && decision == Some(S.StopResolved)
    ensures |claims| == 2 && claims[0].status == Claims.Unproven && claims[1].status == Claims.Supported
  {
    var plan := TwoClaims(Host());
    TwoClaimsAreValid(Host());
    verdict := AcceptExample(isNative, plan);
    forall s | IsFreshStart(plan, s) && !s.incomplete && s.ledger == Budget() ensures IsReady(Example(), plan, s) {
      ExampleIsReady(s);
    }
    decision, claims := HuntGenerously(Example(), plan, Budget());
    TwoClaimsOwnOne();
    SettledLosesOne(plan, claims);
  }
}
