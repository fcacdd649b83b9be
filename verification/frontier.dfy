/**
 * The five-stage progressive frontier over a source catalogue: which sources it examines,
 * and the account it gives of those it does not.
 */
module Frontier {
  import opened Text
  import B = Batching

  /** `roles`: the case-folded roles of the card's fields. */
  datatype Card = Card(sourceId: string, roles: set<string>, adjacent: seq<string>, fields: seq<string>)

  type Catalog = map<string, Card>

  class SourceCardStore {
    var cards: Catalog

    constructor ()
      ensures Valid() && cards == map[]
    {
      cards := map[];
    }

    ghost predicate Valid()
      reads this
    {
      IsKeyed(cards)
    }

    method RegisterCard(card: Card)
      requires Valid()
      modifies this
      ensures Valid() && cards == old(cards)[card.sourceId := card]
    {
      cards := cards[card.sourceId := card];
    }
  }

  ghost predicate IsKeyed(cards: Catalog) {
    forall k :: k in cards ==> cards[k].sourceId == k
  }

  // ------------------------------------------------------------ the catalogue index

  /**
   * What one search asks. `approved`: the relation has an approved proof contract.
   * `score` is opaque.
   */
  datatype Query = Query(approved: bool, requiredRoles: set<string>, score: Card -> real, threshold: real, exhaustive: bool)

  datatype Candidate = Candidate(card: Card, score: real, above: bool, missingRoles: bool)

  /** Blank role names are ignored by the index, though not by the certified stage. */
  function NamedRoles(q: Query): set<string> {
    set r | r in q.requiredRoles && Strip(r) != ""
  }

  predicate MissesRoles(named: set<string>, c: Card) {
    named != {} && named * c.roles == {}
  }

  predicate IsAbove(q: Query, named: set<string>, c: Card) {
    q.score(c) >= q.threshold && !MissesRoles(named, c)
  }

  function Score(q: Query, named: set<string>, c: Card): Candidate {
    Candidate(c, q.score(c), IsAbove(q, named, c), MissesRoles(named, c))
  }

  /** The card reaches the threshold and has a required role, unless no required role has a name. */
  ghost predicate IsMatch(q: Query, c: Card) {
    q.score(c) >= q.threshold && !LacksRoles(q, c)
  }

  ghost predicate LacksRoles(q: Query, c: Card) {
    && (exists r :: r in q.requiredRoles && Strip(r) != "")
    && forall r :: r in q.requiredRoles && Strip(r) != "" ==> r !in c.roles
  }

  lemma MatchIs(q: Query, c: Card)
    ensures MissesRoles(NamedRoles(q), c) <==> LacksRoles(q, c)
    ensures IsAbove(q, NamedRoles(q), c) <==> IsMatch(q, c)
  {
    var named := NamedRoles(q);
    assert forall r :: r in named <==> r in q.requiredRoles && Strip(r) != "";
    if named != {} {
      var r :| r in named;
    }
    if named * c.roles != {} {
      var r :| r in named * c.roles;
      assert r in named && r in c.roles;
    }
    if r :| r in named && r in c.roles {
      assert r in named * c.roles;
    }
  }

  ghost predicate DistinctSources(scored: seq<Candidate>) {
    forall i, j :: 0 <= i < j < |scored| ==> scored[i].card.sourceId != scored[j].card.sourceId
  }

  /** Every registered card, once, scored. */
  ghost predicate IsRanking(cards: Catalog, q: Query, named: set<string>, scored: seq<Candidate>) {
    && (forall c :: c in scored ==> c.card.sourceId in cards && c == Score(q, named, cards[c.card.sourceId]))
    && (forall k :: k in cards ==> Score(q, named, cards[k]) in scored)
    && DistinctSources(scored)
  }

  ghost function IdsOf(scored: seq<Candidate>): set<string> {
    set c | c in scored :: c.card.sourceId
  }

  lemma NextIsNew(scored: seq<Candidate>, i: nat)
    requires DistinctSources(scored) && i < |scored|
    ensures scored[i].card.sourceId !in IdsOf(scored[..i])
    ensures IdsOf(scored[..i + 1]) == IdsOf(scored[..i]) + {scored[i].card.sourceId}
  {
    assert scored[..i + 1] == scored[..i] + [scored[i]];
  }

  /** Every registered source is ranked. */
  lemma RankingIsComplete(cards: Catalog, q: Query, named: set<string>, scored: seq<Candidate>)
    requires IsKeyed(cards) && IsRanking(cards, q, named, scored)
    ensures IdsOf(scored[..|scored|]) == cards.Keys
  {
    assert scored[..|scored|] == scored;
    forall k | k in cards ensures k in IdsOf(scored) {
      assert Score(q, named, cards[k]) in scored;
    }
  }

  predicate HigherScore(a: Candidate, b: Candidate) { a.score >= b.score }

  lemma ScoreOrder()
    ensures B.IsTotalPreorder((a, b) => HigherScore(a, b))
  {
  }

  lemma SortKeepsRanking(cards: Catalog, q: Query, named: set<string>, found: seq<Candidate>, scored: seq<Candidate>)
    requires IsRanking(cards, q, named, found) && multiset(scored) == multiset(found)
    ensures IsRanking(cards, q, named, scored)
  {
    assert forall c :: c in scored <==> c in multiset(scored);
    assert forall c :: c in found <==> c in multiset(found);
    assert B.NoDuplicates(found);
    B.BagHasNoDuplicates(found);
    B.BagHasNoDuplicates(scored);
    forall i, j | 0 <= i < j < |scored| ensures scored[i].card.sourceId != scored[j].card.sourceId {
      assert scored[i] != scored[j] && scored[i] in scored && scored[j] in scored;
    }
  }

  /** Scores every card and sorts; no card is dropped. */
  method Search(cards: Catalog, q: Query, named: set<string>) returns (scored: seq<Candidate>)
    requires IsKeyed(cards)
    ensures IsRanking(cards, q, named, scored)
    ensures B.IsSorted((a, b) => HigherScore(a, b), scored)
    ensures forall i, j :: 0 <= i < j < |scored| ==> scored[i].score >= scored[j].score
  {
    var found: seq<Candidate> := [];
    var rest := cards.Keys;
    while rest != {}
      invariant rest <= cards.Keys
      invariant forall c :: c in found ==> c.card.sourceId in cards.Keys - rest && c == Score(q, named, cards[c.card.sourceId])
      invariant forall k :: k in cards.Keys - rest ==> Score(q, named, cards[k]) in found
      invariant DistinctSources(found)
    {
      var k :| k in rest;
      rest := rest - {k};
      found := found + [Score(q, named, cards[k])];
    }
    ScoreOrder();
    scored := B.Sort((a, b) => HigherScore(a, b), found);
    SortKeepsRanking(cards, q, named, found, scored);
  }

  // ------------------------------------------------------------ the stages, as sets

  ghost function Certified(cards: Catalog, q: Query): set<string> {
    set k | k in cards && q.approved && q.requiredRoles <= cards[k].roles
  }

  ghost function Matched(cards: Catalog, q: Query): set<string> {
    set k | k in cards && IsAbove(q, NamedRoles(q), cards[k])
  }

  /** Registered one-hop neighbours of some sources, other than those sources. */
  ghost function Neighbours(cards: Catalog, from: set<string>): set<string> {
    set k | k in cards && k !in from && exists s :: s in from && s in cards && k in cards[s].adjacent
  }

  /** What the first two stages examine. */
  ghost function Shortlist(cards: Catalog, q: Query): set<string> {
    Certified(cards, q) + Matched(cards, q)
  }

  ghost function Examined(cards: Catalog, q: Query): set<string> {
    if q.exhaustive then cards.Keys else Shortlist(cards, q) + Neighbours(cards, Shortlist(cards, q))
  }

  datatype Reason = MissingRoles | BelowThreshold(score: real)

  ghost function ReasonFor(q: Query, c: Card): Reason {
    if MissesRoles(NamedRoles(q), c) then MissingRoles else BelowThreshold(q.score(c))
  }

  // ------------------------------------------------------------ selected cards

  /** Registered cards, each once, for exactly these sources. */
  ghost predicate Picks(cards: Catalog, found: seq<Card>, ids: set<string>) {
    && (forall c :: c in found ==> c.sourceId in ids)
    && (forall k :: k in ids ==> k in cards && cards[k] in found)
    && (forall c :: c in found ==> c.sourceId in cards && cards[c.sourceId] == c)
    && forall i, j :: 0 <= i < j < |found| ==> found[i].sourceId != found[j].sourceId
  }

  lemma PickOne(cards: Catalog, found: seq<Card>, ids: set<string>, k: string)
    requires IsKeyed(cards) && Picks(cards, found, ids) && k in cards && k !in ids
    ensures Picks(cards, found + [cards[k]], ids + {k})
  {
  }

  lemma PicksConcat(cards: Catalog, a: seq<Card>, x: set<string>, b: seq<Card>, y: set<string>)
    requires Picks(cards, a, x) && Picks(cards, b, y) && x !! y
    ensures Picks(cards, a + b, x + y)
  {
    var all := a + b;
    forall i, j | 0 <= i < j < |all| ensures all[i].sourceId != all[j].sourceId {
      if i < |a| <= j {
        assert all[i] in a && all[j] in b;
      } else if j < |a| {
        assert all[i] == a[i] && all[j] == a[j];
      } else {
        assert all[i] == b[i - |a|] && all[j] == b[j - |a|];
      }
    }
  }

  // ------------------------------------------------------------ the stages, as they run

  method StageCertified(cards: Catalog, q: Query) returns (found: seq<Card>, examined: set<string>)
    requires IsKeyed(cards)
    ensures examined == Certified(cards, q) && Picks(cards, found, examined)
  {
    found, examined := [], {};
    var rest := cards.Keys;
    while rest != {}
      invariant rest <= cards.Keys && Picks(cards, found, examined)
      invariant examined == Certified(cards, q) - rest
    {
      var k :| k in rest;
      rest := rest - {k};
      if q.approved && q.requiredRoles <= cards[k].roles {
        PickOne(cards, found, examined, k);
        found, examined := found + [cards[k]], examined + {k};
      }
    }
  }

  /** The account kept of the ranked candidates seen so far. */
  ghost predicate IsAccount(cards: Catalog, q: Query, certified: set<string>, seen: set<string>, examined: set<string>,
                            rejected: map<string, Reason>)
  {
    && seen <= cards.Keys && certified <= examined <= certified + seen
    && (forall k :: k in seen && k !in certified ==> (k in examined <==> IsAbove(q, NamedRoles(q), cards[k])))
    && rejected.Keys == seen - examined
    && forall k :: k in rejected ==> rejected[k] == ReasonFor(q, cards[k])
  }

  lemma AccountIsComplete(cards: Catalog, q: Query, examined: set<string>, rejected: map<string, Reason>)
    requires IsAccount(cards, q, Certified(cards, q), cards.Keys, examined, rejected)
    ensures examined == Shortlist(cards, q) && rejected.Keys == cards.Keys - Shortlist(cards, q)
  {
  }

  /** One step of the metadata stage, for a candidate met for the first time. */
  method StepMetadata(cards: Catalog, q: Query, ghost certified: set<string>, ghost seen: set<string>, c: Candidate,
                      found: seq<Card>, examined: set<string>, rejected: map<string, Reason>)
    returns (found': seq<Card>, examined': set<string>, rejected': map<string, Reason>)
    requires IsKeyed(cards) && IsAccount(cards, q, certified, seen, examined, rejected)
    requires Picks(cards, found, examined - certified)
    requires c.card.sourceId in cards && c.card.sourceId !in seen
    requires c == Score(q, NamedRoles(q), cards[c.card.sourceId])
    ensures IsAccount(cards, q, certified, seen + {c.card.sourceId}, examined', rejected')
    ensures Picks(cards, found', examined' - certified)
  {
    var id := c.card.sourceId;
    found', examined', rejected' := found, examined, rejected;
    if id !in examined {
      if c.above {
        PickOne(cards, found, examined - certified, id);
        assert examined - certified + {id} == examined + {id} - certified;
        found', examined' := found + [c.card], examined + {id};
      } else if c.missingRoles {
        rejected' := rejected[id := MissingRoles];
      } else {
        rejected' := rejected[id := BelowThreshold(c.score)];
      }
    }
  }

  method StageMetadata(cards: Catalog, q: Query, scored: seq<Candidate>, certified: set<string>)
    returns (found: seq<Card>, examined: set<string>, considered: set<string>, rejected: map<string, Reason>)
    requires IsKeyed(cards) && IsRanking(cards, q, NamedRoles(q), scored) && certified == Certified(cards, q)
    ensures examined == Shortlist(cards, q) && Picks(cards, found, examined - certified)
    ensures considered == cards.Keys
    ensures rejected.Keys == cards.Keys - Shortlist(cards, q)
    ensures forall k :: k in rejected ==> rejected[k] == ReasonFor(q, cards[k])
  {
    found, examined, considered, rejected := [], certified, certified, map[];
    for i := 0 to |scored|
      invariant considered == certified + IdsOf(scored[..i])
      invariant IsAccount(cards, q, certified, IdsOf(scored[..i]), examined, rejected)
      invariant Picks(cards, found, examined - certified)
    {
      NextIsNew(scored, i);
      considered := considered + {scored[i].card.sourceId};
      assert scored[i] in scored;
      found, examined, rejected := StepMetadata(cards, q, certified, IdsOf(scored[..i]), scored[i], found, examined, rejected);
    }
    assert scored[..|scored|] == scored;
    RankingIsComplete(cards, q, NamedRoles(q), scored);
    AccountIsComplete(cards, q, examined, rejected);
  }

  method StageAdjacent(cards: Catalog, shortlist: set<string>) returns (found: seq<Card>, added: set<string>)
    requires IsKeyed(cards) && shortlist <= cards.Keys
    ensures added == Neighbours(cards, shortlist) && Picks(cards, found, added)
  {
    found, added := [], {};
    var rest := shortlist;
    while rest != {}
      invariant rest <= shortlist && Picks(cards, found, added)
      invariant added == Reached(cards, shortlist, shortlist - rest)
    {
      var s :| s in rest;
      ghost var done := shortlist - rest;
      var hops := cards[s].adjacent;
      for i := 0 to |hops|
        invariant Picks(cards, found, added)
        invariant added == Reached(cards, shortlist, done) + set k | k in hops[..i] && k in cards && k !in shortlist
      {
        assert hops[..i + 1] == hops[..i] + [hops[i]];
        if hops[i] in cards && hops[i] !in shortlist + added {
          PickOne(cards, found, added, hops[i]);
          found, added := found + [cards[hops[i]]], added + {hops[i]};
        }
      }
      assert hops[..|hops|] == hops;
      rest := rest - {s};
      assert shortlist - rest == done + {s};
    }
    assert shortlist - rest == shortlist;
  }

  /** The neighbours found after some of the shortlist has been visited. */
  ghost function Reached(cards: Catalog, shortlist: set<string>, done: set<string>): set<string> {
    set k | k in cards && k !in shortlist && exists s :: s in done && s in cards && k in cards[s].adjacent
  }

  predicate IsRemaining(c: Candidate, examined: set<string>, rejected: set<string>) {
    c.card.sourceId !in examined && c.card.sourceId !in rejected
  }

  /** The cards of the candidates that remain, in ranking order. */
  function Remaining(scored: seq<Candidate>, examined: set<string>, rejected: set<string>): (r: seq<Card>)
    ensures r == [] <==> !exists s :: s in scored && IsRemaining(s, examined, rejected)
  {
    if scored == [] then []
    else
      var r := Remaining(scored[..|scored| - 1], examined, rejected);
      var last := scored[|scored| - 1];
      assert scored == scored[..|scored| - 1] + [last];
      if IsRemaining(last, examined, rejected) then r + [last.card] else r
  }

  /** Bounded profiling: the first candidates neither examined nor rejected, and only if nothing was selected. */
  method StageProfiling(scored: seq<Candidate>, selected: seq<Card>, examined: set<string>, rejected: set<string>, limit: int)
    returns (found: seq<Card>)
    ensures found == if selected == [] then Take(Remaining(scored, examined, rejected), limit) else []
  {
    found := [];
    if selected == [] {
      for i := 0 to |scored|
        invariant found == Remaining(scored[..i], examined, rejected)
      {
        assert scored[..i + 1][..i] == scored[..i];
        if IsRemaining(scored[i], examined, rejected) {
          found := found + [scored[i].card];
        }
      }
      assert scored[..|scored|] == scored;
      found := Take(found, limit);
    }
  }

  method StageExhaustive(cards: Catalog, examined: set<string>) returns (found: seq<Card>, added: set<string>)
    requires IsKeyed(cards)
    ensures added == cards.Keys - examined && Picks(cards, found, added)
  {
    found, added := [], {};
    var rest := cards.Keys;
    while rest != {}
      invariant rest <= cards.Keys && added == cards.Keys - rest - examined && Picks(cards, found, added)
    {
      var k :| k in rest;
      rest := rest - {k};
      if k !in examined {
        PickOne(cards, found, added, k);
        found, added := found + [cards[k]], added + {k};
      }
    }
  }

  // ------------------------------------------------------------ the whole expansion

  /** `stages`: the cards each stage added. */
  datatype Manifest = Manifest(total: nat, considered: set<string>, examined: set<string>, rejected: map<string, Reason>,
                               unexamined: set<string>, stages: seq<seq<Card>>)

  /** What a manifest says of a catalogue and a query, whatever order the sources were visited in. */
  ghost predicate Accounts(cards: Catalog, q: Query, m: Manifest) {
    && m.total == |cards| && m.considered == cards.Keys
    && m.examined == Examined(cards, q) && m.unexamined == cards.Keys - m.examined
    && m.rejected.Keys == cards.Keys - Shortlist(cards, q)
    && forall k :: k in m.rejected ==> m.rejected[k] == ReasonFor(q, cards[k])
  }

  /** Which sources each stage adds. */
  ghost predicate StagesAre(cards: Catalog, q: Query, stages: seq<seq<Card>>) {
    && |stages| == (if q.exhaustive then 5 else 4)
    && Picks(cards, stages[0], Certified(cards, q))
    && Picks(cards, stages[1], Shortlist(cards, q) - Certified(cards, q))
    && Picks(cards, stages[2], Neighbours(cards, Shortlist(cards, q)))
    && stages[3] == []
    && (q.exhaustive ==> Picks(cards, stages[4], cards.Keys - Shortlist(cards, q) - Neighbours(cards, Shortlist(cards, q))))
  }

  /** Once every source is examined or rejected, nothing remains to profile. */
  lemma NothingRemains(cards: Catalog, q: Query, scored: seq<Candidate>, examined: set<string>, rejected: set<string>)
    requires IsKeyed(cards) && IsRanking(cards, q, NamedRoles(q), scored) && cards.Keys <= examined + rejected
    ensures Remaining(scored, examined, rejected) == []
  {
  }

  /** The stages before the exhaustive one, in turn. */
  lemma StagesJoin(cards: Catalog, q: Query, f0: seq<Card>, f1: seq<Card>, f2: seq<Card>)
    requires Picks(cards, f0, Certified(cards, q)) && Picks(cards, f1, Shortlist(cards, q) - Certified(cards, q))
    requires Picks(cards, f2, Neighbours(cards, Shortlist(cards, q)))
    ensures Picks(cards, f0 + f1 + f2, Shortlist(cards, q) + Neighbours(cards, Shortlist(cards, q)))
  {
    var a, s := Certified(cards, q), Shortlist(cards, q);
    PicksConcat(cards, f0, a, f1, s - a);
    assert a + (s - a) == s;
    PicksConcat(cards, f0 + f1, s, f2, Neighbours(cards, s));
  }

  /** The first three stages. */
  method ExpandShortlist(cards: Catalog, q: Query)
    returns (stages: seq<seq<Card>>, scored: seq<Candidate>, considered: set<string>, examined: set<string>, rejected: map<string, Reason>)
    requires IsKeyed(cards)
    ensures IsRanking(cards, q, NamedRoles(q), scored)
    ensures examined == Shortlist(cards, q) + Neighbours(cards, Shortlist(cards, q)) && considered == cards.Keys
    ensures rejected.Keys == cards.Keys - Shortlist(cards, q)
    ensures forall k :: k in rejected ==> rejected[k] == ReasonFor(q, cards[k])
    ensures |stages| == 3 && Picks(cards, stages[0], Certified(cards, q))
    ensures Picks(cards, stages[1], Shortlist(cards, q) - Certified(cards, q))
    ensures Picks(cards, stages[2], Neighbours(cards, Shortlist(cards, q)))
  {
    var f0, certified := StageCertified(cards, q);
    scored := Search(cards, q, NamedRoles(q));
    var f1, shortlist, c, r := StageMetadata(cards, q, scored, certified);
    var f2, added := StageAdjacent(cards, shortlist);
    stages, considered, examined, rejected := [f0, f1, f2], c + added, shortlist + added, r;
  }

  /** Profiling and, when allowed, the exhaustive stage. */
  method LastStages(cards: Catalog, exhaustive: bool, scored: seq<Candidate>, selected: seq<Card>, examined: set<string>,
                    rejected: set<string>, limit: int)
    returns (stages: seq<seq<Card>>, all: seq<Card>, seen: set<string>)
    requires IsKeyed(cards) && Picks(cards, selected, examined)
    requires Remaining(scored, examined, rejected) == []
    ensures |stages| == (if exhaustive then 2 else 1) && stages[0] == []
    ensures exhaustive ==> Picks(cards, stages[1], cards.Keys - examined)
    ensures seen == if exhaustive then cards.Keys else examined
    ensures all == selected + B.Flatten(stages) && Picks(cards, all, seen)
  {
    var f3 := StageProfiling(scored, selected, examined, rejected, limit);
    stages, all, seen := [f3], selected + f3, examined;
    B.FlattenAppend([], f3);
    assert [] + [f3] == [f3];
    if exhaustive {
      var f4, rest := StageExhaustive(cards, seen);
      PicksConcat(cards, all, seen, f4, rest);
      B.FlattenAppend(stages, f4);
      stages, all, seen := stages + [f4], all + f4, seen + rest;
    }
  }

  method Expand(store: SourceCardStore, q: Query, limit: int) returns (selected: seq<Card>, m: Manifest)
    requires store.Valid()
    ensures Picks(store.cards, selected, m.examined)
    ensures Accounts(store.cards, q, m)
    ensures StagesAre(store.cards, q, m.stages) && selected == B.Flatten(m.stages)
  {
    var cards := store.cards;
    var first, scored, considered, examined, rejected := ExpandShortlist(cards, q);
    StagesJoin(cards, q, first[0], first[1], first[2]);
    ThreeStages(first);
    NothingRemains(cards, q, scored, examined, rejected.Keys);
    var last, all, seen := LastStages(cards, q.exhaustive, scored, first[0] + first[1] + first[2], examined, rejected.Keys, limit);
    B.FlattenConcat(first, last);
    selected, m := all, Manifest(|cards|, considered, seen, rejected, cards.Keys - seen, first + last);
  }

  lemma ThreeStages(stages: seq<seq<Card>>)
    requires |stages| == 3
    ensures B.Flatten(stages) == stages[0] + stages[1] + stages[2]
  {
    assert stages == [] + [stages[0]] + [stages[1]] + [stages[2]];
    B.FlattenAppend([], stages[0]);
    B.FlattenAppend([] + [stages[0]], stages[1]);
    B.FlattenAppend([] + [stages[0]] + [stages[1]], stages[2]);
  }

  /** The examined and the unexamined partition the catalogue, and every gap carries its reason. */
  lemma NothingIsDropped(cards: Catalog, q: Query, selected: seq<Card>, m: Manifest)
    requires IsKeyed(cards) && Accounts(cards, q, m) && Picks(cards, selected, m.examined)
    ensures m.examined !! m.unexamined && m.examined + m.unexamined == cards.Keys
    ensures m.unexamined == m.rejected.Keys - m.examined
    ensures |selected| + |m.unexamined| == m.total
    ensures q.exhaustive ==> m.unexamined == {}
  {
    PicksCount(cards, selected, m.examined);
    ExaminedIsRegistered(cards, q);
    Partition(cards.Keys, m.examined, Shortlist(cards, q));
  }

  lemma Partition(all: set<string>, examined: set<string>, short: set<string>)
    requires short <= examined <= all
    ensures examined + (all - examined) == all && all - examined == all - short - examined
    ensures |examined| + |all - examined| == |all|
  {
    assert examined + (all - examined) == all;
  }

  lemma ExaminedIsRegistered(cards: Catalog, q: Query)
    ensures Shortlist(cards, q) <= Examined(cards, q) <= cards.Keys
  {
  }

  /** Which sources are left out: those neither certified, nor matched, nor one hop from one that is. */
  lemma GapsAre(cards: Catalog, q: Query, m: Manifest, k: string)
    requires Accounts(cards, q, m) && k in cards
    ensures k in m.unexamined <==>
      && !q.exhaustive && !IsMatch(q, cards[k]) && !(q.approved && q.requiredRoles <= cards[k].roles)
      && !exists s :: s in Shortlist(cards, q) && k in cards[s].adjacent
    ensures k in m.unexamined ==> m.rejected[k] == if LacksRoles(q, cards[k]) then MissingRoles else BelowThreshold(q.score(cards[k]))
    ensures forall s :: s in Shortlist(cards, q) <==>
      s in cards && (IsMatch(q, cards[s]) || (q.approved && q.requiredRoles <= cards[s].roles))
  {
    forall s | s in cards
      ensures IsAbove(q, NamedRoles(q), cards[s]) <==> IsMatch(q, cards[s])
      ensures MissesRoles(NamedRoles(q), cards[s]) <==> LacksRoles(q, cards[s])
    {
      MatchIs(q, cards[s]);
    }
    var short := Shortlist(cards, q);
    assert k in short <==> IsAbove(q, NamedRoles(q), cards[k]) || (q.approved && q.requiredRoles <= cards[k].roles);
    assert k in Neighbours(cards, short) <==> k !in short && exists s :: s in short && k in cards[s].adjacent;
  }

  lemma {:induction false} PicksCount(cards: Catalog, found: seq<Card>, ids: set<string>)
    requires IsKeyed(cards) && Picks(cards, found, ids)
    ensures |found| == |ids|
  {
    if found == [] {
      assert ids == {};
    } else {
      var k := found[0].sourceId;
      var rest := found[1..];
      assert found == [found[0]] + rest;
      forall j | j in ids - {k} ensures cards[j] in rest {
        assert cards[j] in found;
      }
      forall c | c in rest ensures c.sourceId in ids - {k} {
        assert c in found;
      }
      PicksCount(cards, rest, ids - {k});
    }
  }

  // ------------------------------------------------------------ cards packed into prompts

  datatype Summary = Summary(sourceId: string, total: nat, fields: seq<string>)

  function Summarise(c: Card, maxFields: int): Summary {
    Summary(c.sourceId, |c.fields|, Take(c.fields, maxFields))
  }

  function Summaries(cards: seq<Card>, maxFields: int): (r: seq<Summary>)
    ensures |r| == |cards|
  {
    seq(|cards|, i requires 0 <= i < |cards| => Summarise(cards[i], maxFields))
  }

  /** The first fields up to the limit, and how many there are in all. */
  lemma SummariesAre(cards: seq<Card>, maxFields: int, i: nat)
    requires i < |cards|
    ensures var c, s := cards[i], Summaries(cards, maxFields)[i];
      && s.sourceId == c.sourceId && s.total == |c.fields| && s.fields == c.fields[..|s.fields|]
      && |s.fields| == (if maxFields >= |c.fields| then |c.fields| else if maxFields >= 0 then maxFields
                        else if |c.fields| + maxFields >= 0 then |c.fields| + maxFields else 0)
  {
  }

  lemma NextSummary(cards: seq<Card>, maxFields: int, i: nat)
    requires i < |cards|
    ensures Summaries(cards[..i + 1], maxFields) == Summaries(cards[..i], maxFields) + [Summarise(cards[i], maxFields)]
  {
  }

  /** How the cards are packed: a limit below one starts with an empty batch and then packs singly. */
  ghost predicate ArePacked(items: seq<Summary>, maxCards: int, batches: seq<seq<Summary>>) {
    if maxCards >= 1 || items == [] then B.IsPacking(items, if maxCards >= 1 then maxCards else 1, batches)
    else batches != [] && batches[0] == [] && B.IsPacking(items, 1, batches[1..])
  }

  /** The loop's state after some cards. */
  ghost predicate ArePartial(items: seq<Summary>, maxCards: int, batches: seq<seq<Summary>>, current: seq<Summary>) {
    if maxCards >= 1 || items == [] then B.IsPartial(items, if maxCards >= 1 then maxCards else 1, batches, current)
    else batches != [] && batches[0] == [] && |current| == 1 && B.IsPartial(items, 1, batches[1..], current)
  }

  method PackCard(ghost items: seq<Summary>, maxCards: int, batches: seq<seq<Summary>>, current: seq<Summary>, item: Summary)
    returns (fuller: seq<seq<Summary>>, open: seq<Summary>)
    requires ArePartial(items, maxCards, batches, current)
    ensures ArePartial(items + [item], maxCards, fuller, open)
  {
    fuller, open := batches, current;
    if |open| >= maxCards {
      ClosingKeepsBatches(fuller, open);
      fuller, open := fuller + [open], [];
    }
    open := open + [item];
  }

  method PackCards(cards: seq<Card>, maxCards: int, maxFields: int) returns (batches: seq<seq<Summary>>)
    ensures ArePacked(Summaries(cards, maxFields), maxCards, batches)
  {
    batches := [];
    var current: seq<Summary> := [];
    for i := 0 to |cards|
      invariant ArePartial(Summaries(cards[..i], maxFields), maxCards, batches, current)
    {
      NextSummary(cards, maxFields, i);
      batches, current := PackCard(Summaries(cards[..i], maxFields), maxCards, batches, current, Summarise(cards[i], maxFields));
    }
    assert cards[..|cards|] == cards;
    ClosingKeepsBatches(batches, current);
    if current != [] {
      batches := batches + [current];
    }
  }

  lemma ClosingKeepsBatches(batches: seq<seq<Summary>>, current: seq<Summary>)
    ensures B.Flatten(batches + [current]) == B.Flatten(batches) + current
    ensures batches != [] ==> (batches + [current])[1..] == batches[1..] + [current]
    ensures batches != [] ==> B.Flatten(batches[1..] + [current]) == B.Flatten(batches[1..]) + current
  {
    B.FlattenAppend(batches, current);
    if batches != [] {
      B.FlattenAppend(batches[1..], current);
    }
  }

  function FieldTotal(batch: seq<Summary>): nat {
    if batch == [] then 0 else |batch[0].fields| + FieldTotal(batch[1..])
  }

  lemma {:induction false} FieldTotalBound(batch: seq<Summary>, cap: nat)
    requires forall s :: s in batch ==> |s.fields| <= cap
    ensures FieldTotal(batch) <= |batch| * cap
  {
    if batch != [] {
      assert batch == [batch[0]] + batch[1..];
      FieldTotalBound(batch[1..], cap);
    }
  }

  /**
   * Every card is summarised once and in order, and no prompt holds more than the limits allow; a
   * prompt is empty exactly when the card limit is below one and there is a card to pack.
   */
  lemma PromptsAreBounded(cards: seq<Card>, maxCards: int, maxFields: int, batches: seq<seq<Summary>>)
    requires ArePacked(Summaries(cards, maxFields), maxCards, batches)
    ensures B.Flatten(batches) == Summaries(cards, maxFields)
    ensures forall b :: b in batches ==> |b| <= if maxCards >= 1 then maxCards else 1
    ensures maxFields >= 0 ==> forall b :: b in batches ==> FieldTotal(b) <= (if maxCards >= 1 then maxCards else 1) * maxFields
    ensures [] in batches <==> maxCards < 1 && cards != []
  {
    var cap := if maxCards >= 1 then maxCards else 1;
    if [] in batches || maxCards >= 1 {
    }
    if !(maxCards >= 1 || cards == []) {
      assert batches == [batches[0]] + batches[1..];
    }
    forall b | b in batches ensures |b| <= cap {
    }
    if maxFields >= 0 {
      forall b | b in batches ensures FieldTotal(b) <= cap * maxFields {
        forall s | s in b ensures |s.fields| <= maxFields {
          B.InFlatten(batches, s);
          assert s in Summaries(cards, maxFields);
        }
        FieldTotalBound(b, maxFields);
        Monotone(|b|, cap, maxFields);
      }
    }
  }

  lemma Monotone(a: nat, b: nat, c: nat)
    requires a <= b
    ensures a * c <= b * c
  {
  }
}
