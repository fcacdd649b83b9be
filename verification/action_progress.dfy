/**
 * When an expansion gets the action loop any further. An idle hunt either has something left to mint, and gets to
 * it in turn, or spins until a budget is exhausted.
 */
module ActionProgress {
  import opened Text
  import opened ActionLoop
  import opened ActionSoundness
  import S = Stopping

  /** Nothing is untested, no control waits, and some instance cell is unexplored. */
  ghost predicate IsIdle(s: State) {
    && s.tests.pending == [] && FirstUntested(s.tests.expectations) == |s.tests.expectations|
    && S.HasUnexploredInstance(s.cover.cells)
  }

  /** Everything but the turn counters, the queue and the decision is as it was. */
  ghost predicate IsUnmoved(s: State, r: State) {
    && r.tests == s.tests && r.cover == s.cover.(expand := r.cover.expand)
    && r.ledger == s.ledger.(turn := r.ledger.turn)
    && r.queryCount == s.queryCount && r.calls == s.calls && r.discovers == s.discovers
  }

  /** Some requirement is open for the entity, and its expectation's id is free. */
  predicate CanMint(m: Minting, es: seq<Expectation>, entity: string) {
    exists r :: r in m.requirements && IsOpen(m, es, r, entity) && !HasId(es, ExpectationFor(m, r, entity).id)
  }

  lemma {:induction false} AddsNothing(es: seq<Expectation>, minted: seq<Expectation>)
    ensures AddExpectations(es, minted) == es <==> forall m :: m in minted ==> HasId(es, m.id)
  {
    if minted != [] {
      var rest, last := minted[..|minted| - 1], minted[|minted| - 1];
      AddsNothing(es, rest);
      assert minted == rest + [last];
      assert |AddExpectations(es, minted)| >= |AddExpectations(es, rest)|;
    }
  }

  /** An expansion makes progress exactly when it can mint, and then the next turn has something to test. */
  lemma ExpansionProgresses(set_: Setting, s: State)
    requires s.cover.expand != []
    ensures Expand(set_, s).tests != s.tests <==> CanMint(set_.minting, s.tests.expectations, s.cover.expand[0])
    ensures Expand(set_, s).tests != s.tests ==>
      FirstUntested(Expand(set_, s).tests.expectations) < |Expand(set_, s).tests.expectations|
  {
    var m, es, entity := set_.minting, s.tests.expectations, s.cover.expand[0];
    var minted := MintsFor(m, m.requirements, es, entity);
    AddsNothing(es, minted);
    if r :| r in m.requirements && IsOpen(m, es, r, entity) && !HasId(es, ExpectationFor(m, r, entity).id) {
      assert ExpectationFor(m, r, entity) in minted;
    }
    var more := AddExpectations(es, minted);
    if more != es {
      assert |more| > |es| && more[|es|].status == S.Untested;
    }
  }

  lemma {:induction false} AddedHasId(es: seq<Expectation>, minted: seq<Expectation>, e: Expectation)
    requires e in minted
    ensures HasId(AddExpectations(es, minted), e.id)
  {
    var rest, last := minted[..|minted| - 1], minted[|minted| - 1];
    assert minted == rest + [last];
    var more := AddExpectations(es, rest);
    if e != last {
      AddedHasId(es, rest, e);
      var x :| x in more && x.id == e.id;
      assert x in AddExpectations(es, minted);
    } else if !HasId(more, e.id) {
      assert AddExpectations(es, minted)[|more|].id == e.id;
    }
  }

  /** An entity is expanded to effect at most once: afterwards nothing can be minted for it. */
  lemma ExpandedIsSpent(m: Minting, es: seq<Expectation>, entity: string)
    ensures !CanMint(m, AddExpectations(es, MintsFor(m, m.requirements, es, entity)), entity)
  {
    var minted := MintsFor(m, m.requirements, es, entity);
    var more := AddExpectations(es, minted);
    forall r | r in m.requirements && IsOpen(m, more, r, entity) ensures HasId(more, ExpectationFor(m, r, entity).id) {
      assert forall e :: e in es ==> e in more;
      assert IsOpen(m, es, r, entity);
      AddedHasId(es, minted, ExpectationFor(m, r, entity));
    }
  }

  /** And it stays so: later expectations describe more and take more ids. */
  lemma SpentStays(m: Minting, t: Tests, u: Tests, entity: string)
    requires Extends(t, u) && !CanMint(m, t.expectations, entity)
    ensures !CanMint(m, u.expectations, entity)
  {
    forall i | 0 <= i < |t.expectations|
      ensures u.expectations[i].id == t.expectations[i].id && u.expectations[i].entity == t.expectations[i].entity
      ensures u.expectations[i].text == t.expectations[i].text && u.expectations[i] in u.expectations
    {
    }
    forall r | r in m.requirements && IsOpen(m, u.expectations, r, entity)
      ensures HasId(u.expectations, ExpectationFor(m, r, entity).id)
    {
      assert !IsDescribed(t.expectations, entity, r.text);
      assert HasId(t.expectations, ExpectationFor(m, r, entity).id);
    }
  }

  lemma IdleExpands(s: State, t: Turn)
    requires IsIdle(s) && !S.IsExhausted(s.ledger, t.clock.atChoice)
    ensures ActionOf(Requeued(s), t) == EXPAND && Requeued(s).cover.expand != []
  {
    UnexploredCellBlocks(s, t);
  }

  /** A turn that expands an entity for which nothing can be minted moves nothing; it ends the hunt only on its budget. */
  lemma IdleStep(set_: Setting, s: State, t: Turn)
    requires IsState(set_, s) && s.decision == None && IsIdle(s) && IsTurn(t)
    requires var queue := Requeued(s).cover.expand; queue != [] ==> !CanMint(set_.minting, s.tests.expectations, queue[0])
    ensures IsUnmoved(s, Step(set_, s, t)) && Step(set_, s, t).ledger == Begin(s).ledger
    ensures Step(set_, s, t).decision != None <==> S.IsExhausted(Step(set_, s, t).ledger, t.clock.atChoice)
    ensures Step(set_, s, t).decision == None ==> Requeued(s).cover.expand != [] && Step(set_, s, t).cover.expand == Requeued(s).cover.expand[1..]
  {
    var q := Requeued(Begin(s));
    if !S.IsExhausted(Begin(s).ledger, t.clock.atChoice) {
      IdleExpands(Begin(s), t);
      ExpansionProgresses(set_, q);
    }
  }

  /** Nothing can be minted for an entity that is queued or will be. */
  ghost predicate IsSpent(set_: Setting, s: State) {
    forall x :: x in Requeued(s).cover.expand ==> !CanMint(set_.minting, s.tests.expectations, x)
  }

  lemma SpentStep(set_: Setting, s: State, t: Turn)
    requires IsState(set_, s) && s.decision == None && IsIdle(s) && IsTurn(t) && IsSpent(set_, s)
    ensures Step(set_, s, t).decision == None ==> IsIdle(Step(set_, s, t)) && IsSpent(set_, Step(set_, s, t))
  {
    var r := Step(set_, s, t);
    IdleStep(set_, s, t);
    if r.decision == None {
      forall x | x in Requeued(r).cover.expand ensures x in Requeued(s).cover.expand {
        var es, cells := s.tests.expectations, s.cover.cells;
        if x !in r.cover.expand {
          var c :| c in cells && NeedsExpansion(es, c) && c.entity.value == x;
        }
      }
    }
  }

  /**
   * Livelock. Once an idle hunt has nothing left to mint, then whatever the world answers, however many cells are
   * unexplored and whatever is queued, no run tests, sweeps, pivots or asks the provider, and none ends before a
   * budget is exhausted.
   */
  lemma {:induction false} ExpansionCanSpin(set_: Setting, s: State, turns: seq<Turn>)
    requires IsState(set_, s) && IsSound(s.tests) && s.decision == None && IsRun(set_, s, turns)
    requires IsIdle(s) && IsSpent(set_, s)
    ensures IsUnmoved(s, EndOf(set_, s, turns)) && EndOf(set_, s, turns).ledger.turn == s.ledger.turn + |turns|
    ensures EndOf(set_, s, turns).decision != None <==>
      turns != [] && S.IsExhausted(EndOf(set_, s, turns).ledger, turns[|turns| - 1].clock.atChoice)
    decreases |turns|
  {
    if turns != [] {
      var r := Step(set_, s, turns[0]);
      IdleStep(set_, s, turns[0]);
      SpentStep(set_, s, turns[0]);
      StepIsState(set_, s, turns[0]);
      StepKeepsTests(set_, s, turns[0]);
      if r.decision == None {
        ExpansionCanSpin(set_, r, turns[1..]);
        if turns[1..] != [] {
          assert turns[1..][|turns| - 2] == turns[|turns| - 1];
        } else {
          assert EndOf(set_, s, turns) == r;
        }
      } else {
        assert turns[1..] == [];
      }
    }
  }

  /** Entity n is the first in the queue of the coming turn for which something can be minted. */
  ghost predicate IsFirstToMint(set_: Setting, s: State, n: nat) {
    var queue := Requeued(s).cover.expand;
    && n < |queue| && CanMint(set_.minting, s.tests.expectations, queue[n])
    && forall k :: 0 <= k < n ==> !CanMint(set_.minting, s.tests.expectations, queue[k])
  }

  lemma MintingStep(set_: Setting, s: State, t: Turn)
    requires IsState(set_, s) && s.decision == None && IsIdle(s) && IsTurn(t) && IsFirstToMint(set_, s, 0)
    requires Step(set_, s, t).decision == None
    ensures var es := Step(set_, s, t).tests.expectations; s.tests.expectations < es && FirstUntested(es) < |es|
  {
    IdleExpands(Begin(s), t);
    ExpansionProgresses(set_, Requeued(Begin(s)));
  }

  lemma WaitingStep(set_: Setting, s: State, t: Turn, n: nat)
    requires IsState(set_, s) && s.decision == None && IsIdle(s) && IsTurn(t) && n > 0 && IsFirstToMint(set_, s, n)
    ensures var r := Step(set_, s, t);
      r.decision == None ==> r.tests == s.tests && IsIdle(r) && IsFirstToMint(set_, r, n - 1)
  {
    var r := Step(set_, s, t);
    IdleStep(set_, s, t);
    if r.decision == None {
      var queue, next := Requeued(s).cover.expand, Requeued(r).cover.expand;
      assert queue[1..] <= next;
      forall k | 0 <= k < n ensures k < |next| && next[k] == queue[k + 1] {
        assert queue[1..][k] == queue[k + 1];
      }
    }
  }

  lemma RunGoesOn(set_: Setting, s: State, turns: seq<Turn>)
    requires IsState(set_, s) && IsSound(s.tests) && IsRun(set_, s, turns) && turns != []
    ensures s.decision == None && IsTurn(turns[0])
    ensures IsState(set_, Step(set_, s, turns[0])) && IsSound(Step(set_, s, turns[0]).tests)
    ensures IsRun(set_, Step(set_, s, turns[0]), turns[1..])
    ensures EndOf(set_, s, turns) == EndOf(set_, Step(set_, s, turns[0]), turns[1..])
    ensures EndOf(set_, s, turns).decision == None ==> Step(set_, s, turns[0]).decision == None
  {
    StepIsState(set_, s, turns[0]);
    StepKeepsTests(set_, s, turns[0]);
    assert turns[1..] == [] ==> EndOf(set_, s, turns) == Step(set_, s, turns[0]);
  }

  /**
   * Otherwise it does not: the first queued entity for which something can be minted has its turn after those before
   * it, and unless a budget ends the hunt first, that turn mints something to test.
   */
  lemma {:induction false} ExpansionMints(set_: Setting, s: State, turns: seq<Turn>, n: nat)
    requires IsState(set_, s) && IsSound(s.tests) && IsRun(set_, s, turns)
    requires IsIdle(s) && IsFirstToMint(set_, s, n) && |turns| == n + 1 && EndOf(set_, s, turns).decision == None
    ensures var es := EndOf(set_, s, turns).tests.expectations; s.tests.expectations < es && FirstUntested(es) < |es|
    decreases n
  {
    var r := Step(set_, s, turns[0]);
    RunGoesOn(set_, s, turns);
    if n == 0 {
      MintingStep(set_, s, turns[0]);
      assert turns[1..] == [] && EndOf(set_, r, turns[1..]) == r;
    } else {
      WaitingStep(set_, s, turns[0], n);
      ExpansionMints(set_, r, turns[1..], n - 1);
    }
  }

  lemma {:induction false} FirstToMint(set_: Setting, s: State, k: nat) returns (n: nat)
    requires k < |Requeued(s).cover.expand| && CanMint(set_.minting, s.tests.expectations, Requeued(s).cover.expand[k])
    ensures IsFirstToMint(set_, s, n)
    decreases k
  {
    if l: nat :| l < k && CanMint(set_.minting, s.tests.expectations, Requeued(s).cover.expand[l]) {
      n := FirstToMint(set_, s, l);
    } else {
      n := k;
    }
  }

  /** One of the two is always the case. */
  lemma SpentIs(set_: Setting, s: State)
    ensures IsSpent(set_, s) <==> forall n: nat :: !IsFirstToMint(set_, s, n)
  {
    if !IsSpent(set_, s) {
      var queue := Requeued(s).cover.expand;
      var x :| x in queue && CanMint(set_.minting, s.tests.expectations, x);
      var k: nat :| k < |queue| && queue[k] == x;
      var n := FirstToMint(set_, s, k);
    }
  }
}
