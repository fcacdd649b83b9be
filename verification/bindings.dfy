/** Candidate sets: when a semantic variable is bound without asking. */
module Bindings {
  import opened Text

  datatype Directness = Direct | Indirect | Heuristic

  datatype Confidence = High | Medium | Low | Ambiguous | Contradicted

  datatype Candidate = Candidate(
    value: string, facts: seq<string>, contract: string, directness: Directness,
    contradictions: seq<string>, confidence: Confidence)

  predicate IsValidProof(c: Candidate) {
    c.contract != "" && |c.facts| > 0 && |c.contradictions| == 0 && c.directness == Direct && c.confidence == High
  }

  predicate IsUncontradicted(c: Candidate) { c.contradictions == [] }

  /** The candidates without contradictions, in order. */
  function ValidCandidates(cs: seq<Candidate>): (r: seq<Candidate>)
    ensures forall c :: c in r <==> c in cs && IsUncontradicted(c)
  {
    if cs == [] then []
    else
      var r := ValidCandidates(cs[..|cs| - 1]);
      if IsUncontradicted(cs[|cs| - 1]) then r + [cs[|cs| - 1]] else r
  }

  predicate IsAmbiguous(cs: seq<Candidate>) { |ValidCandidates(cs)| > 1 }

  predicate CanAutobind(cs: seq<Candidate>) {
    |ValidCandidates(cs)| == 1 && IsValidProof(ValidCandidates(cs)[0])
  }

  predicate IsTaken(cs: seq<Candidate>, value: string) {
    exists c :: c in cs && Fold(c.value) == Fold(value)
  }

  datatype Status = Unresolved | AutoBound | NeedsDisambiguation

  datatype State = State(candidates: seq<Candidate>, status: Status, selected: Option<Candidate>)

  function Add(s: State, c: Candidate): State {
    if IsTaken(s.candidates, c.value) then s else s.(candidates := s.candidates + [c])
  }

  function Try(s: State): State {
    if CanAutobind(s.candidates) then s.(selected := Some(ValidCandidates(s.candidates)[0]), status := AutoBound)
    else if IsAmbiguous(s.candidates) then s.(status := NeedsDisambiguation)
    else if ValidCandidates(s.candidates) == [] then s.(status := Unresolved)
    else s
  }

  /** What a try returns. */
  function Bound(cs: seq<Candidate>): Option<Candidate> {
    if CanAutobind(cs) then Some(ValidCandidates(cs)[0]) else None
  }

  class CandidateSet {
    var candidates: seq<Candidate>
    var status: Status
    var selected: Option<Candidate>

    constructor ()
      ensures View() == Empty
    {
      candidates, status, selected := [], Unresolved, None;
    }

    function View(): State
      reads this
    {
      State(candidates, status, selected)
    }

    method AddCandidate(c: Candidate)
      modifies this`candidates
      ensures View() == Add(old(View()), c)
    {
      if !IsTaken(candidates, c.value) {
        candidates := candidates + [c];
      }
    }

    method TryAutobind() returns (binding: Option<Candidate>)
      modifies this`status, this`selected
      ensures View() == Try(old(View())) && binding == Bound(old(candidates))
    {
      var valid := ValidCandidates(candidates);
      if CanAutobind(candidates) {
        selected := Some(valid[0]);
        status := AutoBound;
        return selected;
      }
      if IsAmbiguous(candidates) {
        status := NeedsDisambiguation;
      } else if |valid| == 0 {
        status := Unresolved;
      }
      return None;
    }
  }

  // ------------------------------------------------------------ what a set of candidates decides

  /** A candidate with a contract and facts, direct, of high confidence, and contradicted by nothing. */
  ghost predicate Proves(c: Candidate) {
    c.contract != "" && c.facts != [] && c.contradictions == [] && c.directness.Direct? && c.confidence.High?
  }

  ghost predicate IsUniqueProof(cs: seq<Candidate>, c: Candidate) {
    c in cs && Proves(c) && forall d :: d in cs && d != c ==> d.contradictions != []
  }

  /** Two values that nothing contradicts. */
  ghost predicate HasRivals(cs: seq<Candidate>) {
    exists c, d :: c in cs && d in cs && c != d && c.contradictions == [] && d.contradictions == []
  }

  lemma RivalsAre(cs: seq<Candidate>)
    requires HasDistinctValues(cs)
    ensures IsAmbiguous(cs) <==> HasRivals(cs)
  {
    var valid := ValidCandidates(cs);
    ValidKeepsDistinct(cs);
    if |valid| > 1 {
      assert Fold(valid[0].value) != Fold(valid[1].value);
      assert valid[0] in valid && valid[1] in valid;
    }
    if c, d :| c in cs && d in cs && c != d && c.contradictions == [] && d.contradictions == [] {
      assert c in valid && d in valid;
    }
  }

  lemma ProofIs(s: State, c: Candidate)
    requires HasDistinctValues(s.candidates) && IsUniqueProof(s.candidates, c)
    ensures Try(s) == s.(selected := Some(c), status := AutoBound) && Bound(s.candidates) == Some(c)
  {
    AutobindIs(s.candidates);
    assert ValidCandidates(s.candidates)[0] in ValidCandidates(s.candidates);
  }

  /**
   * What a try does: it binds a unique proof; otherwise it asks for disambiguation if two values are uncontradicted, and
   * gives up what it asked for if none is. A binding that was selected stays.
   */
  lemma TryIs(s: State)
    requires HasDistinctValues(s.candidates)
    ensures forall c :: IsUniqueProof(s.candidates, c) ==>
      Try(s) == s.(selected := Some(c), status := AutoBound) && Bound(s.candidates) == Some(c)
    ensures (forall c :: !IsUniqueProof(s.candidates, c)) ==>
      && Bound(s.candidates) == None
      && Try(s) == if HasRivals(s.candidates) then s.(status := NeedsDisambiguation)
                   else if forall c :: c in s.candidates ==> c.contradictions != [] then s.(status := Unresolved) else s
  {
    forall c | IsUniqueProof(s.candidates, c)
      ensures Try(s) == s.(selected := Some(c), status := AutoBound) && Bound(s.candidates) == Some(c)
    {
      ProofIs(s, c);
    }
    AutobindIs(s.candidates);
    RivalsAre(s.candidates);
    var valid := ValidCandidates(s.candidates);
    assert valid != [] ==> valid[0] in valid;
  }

  /** A candidate is added unless its value is there already, up to case. */
  lemma AddIs(s: State, c: Candidate)
    ensures Add(s, c) == if exists i :: 0 <= i < |s.candidates| && Fold(s.candidates[i].value) == Fold(c.value) then s
                         else s.(candidates := s.candidates + [c])
  {
    if i :| 0 <= i < |s.candidates| && Fold(s.candidates[i].value) == Fold(c.value) {
      assert s.candidates[i] in s.candidates;
    }
  }

  /** Exactly one candidate is a proof, and every other one is contradicted. */
  lemma AutobindIs(cs: seq<Candidate>)
    requires HasDistinctValues(cs)
    ensures CanAutobind(cs) <==> exists c :: IsUniqueProof(cs, c)
    ensures CanAutobind(cs) ==> !IsAmbiguous(cs)
  {
    var valid := ValidCandidates(cs);
    ValidKeepsDistinct(cs);
    assert |valid| == 1 ==> forall d :: d in valid ==> d == valid[0];
    if CanAutobind(cs) {
      assert IsUniqueProof(cs, valid[0]);
    }
    if c :| IsUniqueProof(cs, c) {
      AnotherOne(valid, c);
      assert c in valid;
    }
  }

  lemma AnotherOne(cs: seq<Candidate>, c: Candidate)
    requires HasDistinctValues(cs)
    ensures |cs| > 1 ==> exists d :: d in cs && d != c
  {
    if |cs| > 1 {
      assert Fold(cs[0].value) != Fold(cs[1].value);
      assert cs[0] in cs && cs[1] in cs;
    }
  }

  ghost predicate HasDistinctValues(cs: seq<Candidate>) {
    forall i, j :: 0 <= i < j < |cs| ==> Fold(cs[i].value) != Fold(cs[j].value)
  }

  lemma {:induction false} ValidKeepsDistinct(cs: seq<Candidate>)
    requires HasDistinctValues(cs)
    ensures HasDistinctValues(ValidCandidates(cs))
  {
    if cs != [] {
      var n := |cs| - 1;
      ValidKeepsDistinct(cs[..n]);
      var r := ValidCandidates(cs[..n]);
      forall i | 0 <= i < |r| ensures Fold(r[i].value) != Fold(cs[n].value) {
        assert r[i] in r && r[i] in cs[..n];
        var k :| 0 <= k < n && cs[k] == r[i];
      }
    }
  }

  lemma {:induction false} ValidGrows(cs: seq<Candidate>, ds: seq<Candidate>)
    requires cs <= ds
    ensures ValidCandidates(cs) <= ValidCandidates(ds)
    decreases |ds|
  {
    if |cs| < |ds| {
      ValidGrows(cs, ds[..|ds| - 1]);
    } else {
      assert cs == ds;
    }
  }

  // ------------------------------------------------------------ runs

  datatype Operation = AddOne(candidate: Candidate) | TryOne

  const Empty: State := State([], Unresolved, None)

  function Apply(s: State, op: Operation): State {
    match op
    case AddOne(c) => Add(s, c)
    case TryOne => Try(s)
  }

  function After(s: State, ops: seq<Operation>): State
    decreases |ops|
  {
    if ops == [] then s else After(Apply(s, ops[0]), ops[1..])
  }

  /** Values distinct up to case; a selected binding is a proof, and the first candidate without contradictions. */
  ghost predicate IsCoherent(s: State) {
    && HasDistinctValues(s.candidates)
    && (s.selected != None ==>
          IsValidProof(s.selected.value) && ValidCandidates(s.candidates) != [] && ValidCandidates(s.candidates)[0] == s.selected.value)
    && (s.status == AutoBound ==> s.selected != None)
    && (s.status == NeedsDisambiguation ==> IsAmbiguous(s.candidates))
  }

  /** Candidates stay, a selected binding is never replaced, and ambiguity is permanent. */
  ghost predicate Extends(s: State, r: State) {
    && s.candidates <= r.candidates
    && (s.selected != None ==> r.selected == s.selected)
    && (IsAmbiguous(s.candidates) ==> IsAmbiguous(r.candidates) && r.selected == s.selected)
  }

  lemma ApplyExtends(s: State, op: Operation)
    requires IsCoherent(s)
    ensures IsCoherent(Apply(s, op)) && Extends(s, Apply(s, op))
  {
    var r := Apply(s, op);
    ValidGrows(s.candidates, r.candidates);
  }

  /** Over every sequence of insertions and tries. */
  lemma {:induction false} RunExtends(s: State, ops: seq<Operation>)
    requires IsCoherent(s)
    ensures IsCoherent(After(s, ops)) && Extends(s, After(s, ops))
    decreases |ops|
  {
    if ops != [] {
      ApplyExtends(s, ops[0]);
      RunExtends(Apply(s, ops[0]), ops[1..]);
    }
  }

  /** Once ambiguous, every later try fails and says so. */
  lemma AmbiguityBlocks(s: State, ops: seq<Operation>)
    requires IsCoherent(s) && IsAmbiguous(s.candidates)
    ensures Bound(After(s, ops).candidates) == None
    ensures Try(After(s, ops)).status == NeedsDisambiguation && Try(After(s, ops)).selected == s.selected
  {
    RunExtends(s, ops);
  }

  /** After a try the status is decided by the candidates alone. */
  lemma StatusAfterTry(s: State)
    requires IsCoherent(s)
    ensures Try(s).status ==
      if IsAmbiguous(s.candidates) then NeedsDisambiguation else if CanAutobind(s.candidates) then AutoBound else Unresolved
  {
  }

  /** A binding is selected exactly when some earlier try found a unique proof; a later ambiguity leaves it selected. */
  lemma {:induction false} SelectedMeansTried(s: State, ops: seq<Operation>)
    requires IsCoherent(s) && s.selected == None
    ensures After(s, ops).selected == None <==>
      forall k :: 0 <= k < |ops| && ops[k] == TryOne ==> !CanAutobind(After(s, ops[..k]).candidates)
    decreases |ops|
  {
    if ops != [] {
      var r := Apply(s, ops[0]);
      ApplyExtends(s, ops[0]);
      forall k | 0 < k <= |ops| ensures After(s, ops[..k]) == After(r, ops[1..][..k - 1]) {
        assert ops[..k][1..] == ops[1..][..k - 1];
      }
      assert After(s, ops[..0]) == s;
      if r.selected == None {
        SelectedMeansTried(r, ops[1..]);
        if After(s, ops).selected == None {
          forall k | 0 <= k < |ops| && ops[k] == TryOne ensures !CanAutobind(After(s, ops[..k]).candidates) {
            if k > 0 {
              assert ops[1..][k - 1] == TryOne;
            }
          }
        } else {
          var k :| 0 <= k < |ops[1..]| && ops[1..][k] == TryOne && CanAutobind(After(r, ops[1..][..k]).candidates);
          assert ops[k + 1] == TryOne && CanAutobind(After(s, ops[..k + 1]).candidates);
        }
      } else {
        RunExtends(r, ops[1..]);
        assert ops[0] == TryOne && CanAutobind(After(s, ops[..0]).candidates);
      }
    }
  }

  /** A second uncontradicted value after a binding: the status asks for disambiguation, the binding stays selected. */
  lemma BindingOutlivesAmbiguity(p: Candidate, q: Candidate)
    requires IsValidProof(p) && IsUncontradicted(q) && Fold(p.value) != Fold(q.value)
    ensures After(Empty, [AddOne(p), TryOne, AddOne(q), TryOne]) == State([p, q], NeedsDisambiguation, Some(p))
  {
    var s := Empty.(candidates := [p]);
    assert ValidCandidates([p]) == [p];
    assert [p, q][..1] == [p];
    assert ValidCandidates([p, q]) == [p, q];
    var bound := s.(status := AutoBound, selected := Some(p));
    assert Apply(Empty, AddOne(p)) == s && Apply(s, TryOne) == bound;
    var both := bound.(candidates := [p, q]);
    assert Apply(bound, AddOne(q)) == both;
    assert [AddOne(p), TryOne, AddOne(q), TryOne][1..] == [TryOne, AddOne(q), TryOne];
    assert [TryOne, AddOne(q), TryOne][1..] == [AddOne(q), TryOne];
    assert [AddOne(q), TryOne][1..] == [TryOne];
    assert [TryOne][1..] == [];
    assert After(both, [TryOne]) == Try(both);
    assert After(bound, [AddOne(q), TryOne]) == After(both, [TryOne]);
  }

  // ------------------------------------------------------------ insertion order

  function AddAll(s: State, cs: seq<Candidate>): State {
    if cs == [] then s else Add(AddAll(s, cs[..|cs| - 1]), cs[|cs| - 1])
  }

  /** Candidates whose values differ by more than case are all kept, in order. */
  lemma {:induction false} DistinctAreKept(cs: seq<Candidate>)
    requires HasDistinctValues(cs)
    ensures AddAll(Empty, cs) == Empty.(candidates := cs)
  {
    if cs != [] {
      var n := |cs| - 1;
      DistinctAreKept(cs[..n]);
      assert !IsTaken(cs[..n], cs[n].value);
      assert cs[..n] + [cs[n]] == cs;
    }
  }

  lemma {:induction false} ValidBag(cs: seq<Candidate>, c: Candidate)
    ensures multiset(ValidCandidates(cs))[c] == if IsUncontradicted(c) then multiset(cs)[c] else 0
  {
    if cs != [] {
      ValidBag(cs[..|cs| - 1], c);
      assert cs == cs[..|cs| - 1] + [cs[|cs| - 1]];
    }
  }

  /** For candidates distinct up to case the outcome does not depend on the order they came in. */
  lemma OutcomeIgnoresOrder(a: seq<Candidate>, b: seq<Candidate>)
    requires HasDistinctValues(a) && HasDistinctValues(b) && multiset(a) == multiset(b)
    ensures Bound(AddAll(Empty, a).candidates) == Bound(AddAll(Empty, b).candidates)
    ensures Try(AddAll(Empty, a)).status == Try(AddAll(Empty, b)).status
    ensures Try(AddAll(Empty, a)).selected == Try(AddAll(Empty, b)).selected
  {
    DistinctAreKept(a);
    DistinctAreKept(b);
    ValidBags(a, b);
  }

  lemma ValidBags(a: seq<Candidate>, b: seq<Candidate>)
    requires multiset(a) == multiset(b)
    ensures |ValidCandidates(a)| == |ValidCandidates(b)|
    ensures |ValidCandidates(a)| == 1 ==> ValidCandidates(a) == ValidCandidates(b)
  {
    var x, y := ValidCandidates(a), ValidCandidates(b);
    forall c ensures multiset(x)[c] == multiset(y)[c] {
      ValidBag(a, c);
      ValidBag(b, c);
    }
    SameBag(x, y);
  }

  lemma SameBag(x: seq<Candidate>, y: seq<Candidate>)
    requires forall c :: multiset(x)[c] == multiset(y)[c]
    ensures |x| == |y| && (|x| == 1 ==> x == y)
  {
    assert multiset(x) == multiset(y);
    assert |x| == |multiset(x)| && |y| == |multiset(y)|;
    if |x| == 1 {
      assert x[0] in multiset(y);
    }
  }

  /** Two candidates that differ only in case: the first shuts out the second, so the order decides. */
  lemma CollidingPair(c: Candidate, d: Candidate)
    requires Fold(c.value) == Fold(d.value)
    ensures Bound(AddAll(Empty, [c, d]).candidates) == (if IsValidProof(c) then Some(c) else None)
    ensures Bound(AddAll(Empty, [c, d]).candidates) == Bound(AddAll(Empty, [d, c]).candidates) <==>
      c == d || (!IsValidProof(c) && !IsValidProof(d))
  {
    FirstShutsOut(c, d);
    FirstShutsOut(d, c);
  }

  lemma FirstShutsOut(c: Candidate, d: Candidate)
    requires Fold(c.value) == Fold(d.value)
    ensures AddAll(Empty, [c, d]) == Empty.(candidates := [c])
    ensures Bound([c]) == if IsValidProof(c) then Some(c) else None
  {
    assert [c, d][..1] == [c] && [c][..0] == [];
    assert AddAll(Empty, [c]) == Empty.(candidates := [c]);
    assert IsTaken([c], d.value);
    assert ValidCandidates([c]) == if IsUncontradicted(c) then [c] else [];
  }
}
