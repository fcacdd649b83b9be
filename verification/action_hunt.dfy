/** The action loop over mutable state, proved to perform exactly the turns of its specification. */
module ActionHunting {
  import opened Text
  import opened ActionLoop
  import opened ActionSoundness
  import ActionCoverage
  import S = Stopping

  lemma Prefix<T>(s: seq<T>, i: nat)
    requires i < |s|
    ensures s[..i + 1] != [] && s[..i + 1][..|s[..i + 1]| - 1] == s[..i] && s[..i + 1][|s[..i + 1]| - 1] == s[i]
  {
  }

  lemma Appended<T>(s: seq<T>, x: T)
    ensures s + [x] != [] && (s + [x])[..|s + [x]| - 1] == s && (s + [x])[|s + [x]| - 1] == x
  {
  }

  lemma {:induction false} AppendTurn(set_: Setting, s: State, turns: seq<Turn>, t: Turn)
    requires IsState(set_, s) && IsSound(s.tests) && IsRun(set_, s, turns)
    requires EndOf(set_, s, turns).decision == None && IsTurn(t)
    requires IsState(set_, EndOf(set_, s, turns))
    ensures IsRun(set_, s, turns + [t]) && EndOf(set_, s, turns + [t]) == Step(set_, EndOf(set_, s, turns), t)
    decreases |turns|
  {
    if turns == [] {
      StepIsState(set_, s, t);
      StepKeepsTests(set_, s, t);
      assert [t][1..] == [] && turns + [t] == [t];
      assert IsRun(set_, Step(set_, s, t), []);
    } else {
      StepIsState(set_, s, turns[0]);
      StepKeepsTests(set_, s, turns[0]);
      assert (turns + [t])[1..] == turns[1..] + [t];
      AppendTurn(set_, Step(set_, s, turns[0]), turns[1..], t);
    }
  }

  /** The turns are the world's inputs, one after the other. */
  ghost predicate FollowsWorld(turns: seq<Turn>, world: nat -> Turn) {
    forall k :: 0 <= k < |turns| ==> turns[k] == world(k)
  }

  lemma FollowsOneMore(turns: seq<Turn>, world: nat -> Turn)
    requires FollowsWorld(turns, world)
    ensures FollowsWorld(turns + [world(|turns|)], world)
  {
  }

  class ActionHunt {
    const setting: Setting
    const ledger: S.HuntBudgetLedger
    var turn: int
    var queryCount: int
    var calls: nat
    var discovers: nat
    var expectations: seq<Expectation>
    var queries: seq<Query>
    var results: seq<Result>
    var pending: seq<Pending>
    var controls: seq<ControlRun>
    var observed: set<string>
    var cells: seq<S.Cell>
    var expand: seq<string>
    var pivots: seq<string>
    var pivotsExecuted: nat
    var decision: Option<S.Decision>

    /** Enters the loop with the results recorded before it, none of them for an expectation. */
    constructor (setting: Setting, ledger: S.HuntBudgetLedger, turn: int, earlier: seq<Result>,
                 expectations: seq<Expectation>, cells: seq<S.Cell>, observed: set<string>)
      requires forall e :: e in expectations ==> e.status == S.Untested
      requires setting.wildcard < |cells| && cells[setting.wildcard].entity == None
      ensures this.setting == setting && this.ledger == ledger && this.expectations == expectations && this.cells == cells
      ensures this.results == earlier && this.turn == turn && this.observed == observed
      ensures IsStart(setting, View()) && queryCount == |earlier| && expand == [] && pivots == []
    {
      this.setting, this.ledger, this.turn, this.results, this.observed := setting, ledger, turn, earlier, observed;
      this.expectations, this.cells := expectations, cells;
      queries, queryCount := seq(|earlier|, _ => Earlier), |earlier|;
      calls, discovers, pivotsExecuted := 0, 0, 0;
      pending, controls, expand, pivots, decision := [], [], [], [], None;
    }

    function TestsView(): Tests
      reads this`expectations, this`queries, this`results, this`pending, this`controls, this`observed
    {
      Tests(expectations, queries, results, pending, controls, observed)
    }

    function CoverView(): Coverage
      reads this`cells, this`expand, this`pivots, this`pivotsExecuted
    {
      Coverage(cells, expand, pivots, pivotsExecuted)
    }

    function View(): State
      reads this, ledger
    {
      State(ledger.counters, turn, queryCount, calls, discovers, TestsView(), CoverView(), decision)
    }

    // ---------------------------------------------------------- controller operations

    method AddExpectation(e: Expectation)
      modifies this`expectations
      ensures expectations == ActionLoop.AddExpectation(old(expectations), e)
    {
      if !HasId(expectations, e.id) {
        expectations := expectations + [e.(status := S.Untested)];
      }
    }

    method AddAllExpectations(minted: seq<Expectation>)
      modifies this`expectations
      ensures expectations == AddExpectations(old(expectations), minted)
    {
      for i := 0 to |minted|
        invariant expectations == AddExpectations(old(expectations), minted[..i])
      {
        Prefix(minted, i);
        AddExpectation(minted[i]);
      }
      assert minted[..|minted|] == minted;
    }

    method UpdateStatus(i: nat, status: S.TestStatus)
      requires i < |expectations|
      modifies this`expectations
      ensures expectations == SetStatus(old(expectations), i, status)
    {
      expectations := expectations[i := expectations[i].(status := status)];
    }

    method AddCell(entity: string)
      modifies this`cells
      ensures cells == ActionLoop.AddCell(old(cells), entity)
    {
      if !HasInstance(cells, entity) {
        cells := cells + [S.Cell(Some(entity), S.Unexplored)];
      }
    }

    method AddAllCells(hosts: seq<string>)
      modifies this`cells
      ensures cells == AddCells(old(cells), hosts)
    {
      for i := 0 to |hosts|
        invariant cells == AddCells(old(cells), hosts[..i])
      {
        Prefix(hosts, i);
        AddCell(hosts[i]);
      }
      assert hosts[..|hosts|] == hosts;
    }

    method AddAllHosts(hosts: seq<string>)
      modifies this`cells, this`expand
      ensures CoverView() == AddHosts(old(CoverView()), hosts)
    {
      for i := 0 to |hosts|
        invariant CoverView() == AddHosts(old(CoverView()), hosts[..i])
      {
        Prefix(hosts, i);
        if hosts[i] !in expand && !HasInstance(cells, hosts[i]) {
          expand := expand + [hosts[i]];
          AddCell(hosts[i]);
        }
      }
      assert hosts[..|hosts|] == hosts;
    }

    method AddAllPivots(found: seq<string>, cap: Option<nat>)
      modifies this`pivots
      ensures CoverView() == AddPivots(old(CoverView()), found, cap)
    {
      for i := 0 to |found|
        invariant CoverView() == AddPivots(old(CoverView()), found[..i], cap)
      {
        Prefix(found, i);
        if !(cap.Some? && |pivots| >= cap.value) && found[i] !in pivots && !HasInstance(cells, found[i]) {
          pivots := pivots + [found[i]];
        }
      }
      assert found[..|found|] == found;
    }

    method QueueUnexplored()
      modifies this`expand
      ensures expand == Requeue(cells, expectations, old(expand))
    {
      for i := 0 to |cells|
        invariant expand == Requeue(cells[..i], expectations, old(expand))
      {
        Prefix(cells, i);
        if NeedsExpansion(expectations, cells[i]) && cells[i].entity.value !in expand {
          expand := expand + [cells[i].entity.value];
        }
      }
      assert cells[..|cells|] == cells;
    }

    method FindUntested() returns (i: nat)
      ensures i == FirstUntested(expectations)
    {
      i := 0;
      while i < |expectations| && expectations[i].status != S.Untested
        invariant i <= |expectations| && forall k :: 0 <= k < i ==> expectations[k].status != S.Untested
      {
        i := i + 1;
      }
    }

    method FindCell(entity: Option<string>) returns (i: nat)
      ensures i == FirstCell(cells, entity)
    {
      i := 0;
      while i < |cells| && !(cells[i].entity == entity && (entity == None ==> cells[i].state == S.Unexplored))
        invariant i <= |cells|
        invariant forall k :: 0 <= k < i ==> !(cells[k].entity == entity && (entity == None ==> cells[k].state == S.Unexplored))
      {
        i := i + 1;
      }
    }

    method TransitionCell(i: nat, state: S.CellState)
      requires i < |cells|
      modifies this`cells
      ensures CoverView() == SetCell(old(CoverView()), i, state)
    {
      cells := cells[i := cells[i].(state := state)];
    }

    method RecordQuery(query: Query, result: Result)
      modifies this`queries, this`results, this`queryCount, ledger
      ensures queries == old(queries) + [query] && results == old(results) + [result] && queryCount == old(queryCount) + 1
      ensures ledger.counters == old(ledger.counters).(queries := old(ledger.counters).queries + 1)
    {
      queries := queries + [query];
      results := results + [result];
      queryCount := queryCount + 1;
      ledger.RecordQuery();
    }

    // ---------------------------------------------------------- actions

    /** Marks the covered cell and collects the entities that the rows bring up. */
    method CoverResult(i: nat, t: Turn, targeted: bool)
      requires i < |expectations| && setting.wildcard < |cells|
      modifies this`cells, this`expand, this`pivots
      ensures CoverView() == Covered(setting, old(CoverView()), old(TestsView()), i, t, targeted)
    {
      var entity := expectations[i].entity;
      var cell := FindCell(Some(entity));
      TransitionCell(if targeted && cell < |cells| then cell else setting.wildcard, StateFrom(t.result));
      if t.result.rows != {} {
        AddAllHosts(t.hosts);
        if t.matched && t.result.rows - observed != {} {
          if entity !in expand && !setting.isDomain(entity) {
            expand := expand + [entity];
          }
          AddAllPivots(t.pivots, Some(MAX_PIVOTS));
        }
      }
    }

    /** Records the query for an expectation and settles it, or queues it for its controls. */
    method RecordTest(i: nat, r: Result, matched: bool)
      requires i < |expectations|
      modifies this`queries, this`results, this`queryCount, this`expectations, this`pending, this`observed, ledger
      ensures TestsView() == Record(old(TestsView()), i, r, matched, setting.hasControls)
      ensures queryCount == old(queryCount) + 1
      ensures ledger.counters == old(ledger.counters).(queries := old(ledger.counters).queries + 1)
    {
      var confirmed := matched && r.rows - observed != {};
      RecordQuery(Targeted(i), r);
      observed := observed + r.rows;
      if r.rows != {} {
        UpdateStatus(i, if confirmed then S.Confirmed else if r.complete then S.TestStatus.Refuted else S.Inconclusive);
      } else {
        UpdateStatus(i, S.Inconclusive);
        if r.complete && setting.hasControls {
          pending := pending + [Pending(i, r)];
        }
      }
    }

    method QueryExpectation(i: nat, t: Turn, targeted: bool)
      requires i < |expectations| && setting.wildcard < |cells|
      modifies this`queries, this`results, this`queryCount, this`expectations, this`pending, this`observed
      modifies this`cells, this`expand, this`pivots, this`calls, ledger
      ensures TestsView() == Record(old(TestsView()), i, t.result, t.matched, setting.hasControls)
      ensures CoverView() == Covered(setting, old(CoverView()), old(TestsView()), i, t, targeted)
      ensures queryCount == old(queryCount) + 1 && calls == old(calls) + 1
      ensures ledger.counters == old(ledger.counters).(queries := old(ledger.counters).queries + 1)
    {
      CoverResult(i, t, targeted);
      RecordTest(i, t.result, t.matched);
      calls := calls + 1;
    }

    method TestExpectation(i: nat, t: Turn)
      requires i == FirstUntested(expectations) < |expectations| && setting.wildcard < |cells|
      modifies this, ledger
      ensures View() == Test(setting, old(View()), t)
    {
      match t.plan
      case NoPlan => UpdateStatus(i, S.TestStatus.Untestable);
      case Planned(targeted) => QueryExpectation(i, t, targeted);
    }

    method ControlExpectation(t: Turn)
      requires pending != [] && pending[0].expectation < |expectations|
      modifies this`pending, this`controls, this`expectations
      ensures View() == old(View()).(tests := RunControls(old(TestsView()), t.run))
    {
      var p := pending[0];
      pending := pending[1..];
      var r := t.run.(expectation := p.expectation);
      controls := controls + [r];
      UpdateStatus(p.expectation, if IsLicensed(p.result, r) then S.TestStatus.Refuted else S.Inconclusive);
    }

    /** Mints an expectation for each requirement that no expectation described before. */
    method MintAll(entity: string)
      modifies this`expectations
      ensures expectations == AddExpectations(
        old(expectations), MintsFor(setting.minting, setting.minting.requirements, old(expectations), entity))
    {
      var m, before := setting.minting, expectations;
      for i := 0 to |m.requirements|
        invariant expectations == AddExpectations(before, MintsFor(m, m.requirements[..i], before, entity))
      {
        var r := m.requirements[i];
        Prefix(m.requirements, i);
        if !IsDescribed(before, entity, r.text) && m.fits(entity, r.evidence) {
          Appended(MintsFor(m, m.requirements[..i], before, entity), ExpectationFor(m, r, entity));
          AddExpectation(ExpectationFor(m, r, entity));
        }
      }
      assert m.requirements[..|m.requirements|] == m.requirements;
    }

    method ExpandEntity()
      requires expand != []
      modifies this`expand, this`expectations
      ensures View() == Expand(setting, old(View()))
    {
      var entity := expand[0];
      expand := expand[1..];
      MintAll(entity);
    }

    /** Records a sweep and promotes what it found. */
    method RecordSweep(r: Result, minted: seq<Expectation>)
      modifies this`queries, this`results, this`queryCount, this`expectations, this`observed, ledger
      ensures TestsView() == Swept(old(TestsView()), r, minted) && queryCount == old(queryCount) + 1
      ensures ledger.counters == old(ledger.counters).(queries := old(ledger.counters).queries + 1)
    {
      RecordQuery(Sweep, r);
      observed := observed + r.rows;
      if r.rows != {} {
        AddAllExpectations(minted);
      }
    }

    method CoverSweep(cell: nat, r: Result, t: Turn)
      requires cell < |cells|
      modifies this`cells, this`pivots
      ensures CoverView() == SweptCover(old(CoverView()), cell, r, t)
    {
      TransitionCell(cell, StateFrom(r));
      if r.rows != {} {
        AddAllPivots(t.pivots, None);
        AddAllCells(t.hosts);
      }
    }

    /** Calls the provider for a sweep, and once more if the first call finds nothing. */
    method CallSweep(t: Turn) returns (r: Result)
      modifies this`calls
      ensures r == SweepResult(t) && calls == old(calls) + if IsRetried(t) then 2 else 1
    {
      r := t.result;
      calls := calls + 1;
      if r.rows == {} && t.retry.Some? {
        r := t.retry.value;
        calls := calls + 1;
      }
    }

    method SweepScope(cell: nat, t: Turn)
      requires cell < |cells|
      modifies this`queries, this`results, this`queryCount, this`expectations, this`observed
      modifies this`cells, this`pivots, this`calls, ledger
      ensures TestsView() == Swept(old(TestsView()), SweepResult(t), t.minted)
      ensures CoverView() == SweptCover(old(CoverView()), cell, SweepResult(t), t)
      ensures queryCount == old(queryCount) + 1 && calls == old(calls) + if IsRetried(t) then 2 else 1
      ensures ledger.counters == old(ledger.counters).(queries := old(ledger.counters).queries + 1)
    {
      var r := CallSweep(t);
      CoverSweep(cell, r, t);
      RecordSweep(r, t.minted);
    }

    method DiscoverPopulation(cell: nat, t: Turn)
      requires cell == FirstCell(cells, None) < |cells|
      modifies this, ledger
      ensures View() == Discover(old(View()), t)
    {
      ledger.RecordScanCell();
      discovers := discovers + 1;
      SweepScope(cell, t);
    }

    method AddPivotCell() returns (entity: string)
      requires pivots != []
      modifies this`pivots, this`pivotsExecuted, this`cells
      ensures entity == old(pivots)[0] && expand == old(expand)
      ensures pivots == old(pivots)[1..] && pivotsExecuted == old(pivotsExecuted) + 1
      ensures cells == ActionLoop.AddCell(old(cells), entity)
    {
      entity := pivots[0];
      pivots := pivots[1..];
      pivotsExecuted := pivotsExecuted + 1;
      AddCell(entity);
    }

    method PivotEntity(t: Turn)
      requires pivots != []
      modifies this`pivots, this`pivotsExecuted, this`cells, this`expectations
      ensures View() == Pivot(old(View()), t)
    {
      var entity := AddPivotCell();
      AddAllExpectations(Retarget(t.minted, entity));
    }

    method EvaluateStopping(t: Turn)
      modifies this`decision
      ensures View() == Stop(old(View()), t)
    {
      var d, _ := S.EvaluateStopping(t.view.(
        exhausted := S.IsExhausted(ledger.counters, t.clock.atStop), incomplete := SomeIncomplete(results),
        expectations := Statuses(expectations), cells := cells));
      decision := Some(d);
    }

    // ---------------------------------------------------------- the loop

    method Perform(t: Turn)
      requires IsState(setting, View())
      modifies this, ledger
      ensures View() == Act(setting, old(View()), t)
    {
      var i := FindUntested();
      var cell := FindCell(None);
      var action := Choose(
        S.IsExhausted(ledger.counters, t.clock.atChoice), i < |expectations|, pending != [], expand != [],
        cell < |cells|, pivots != [] && pivotsExecuted < MAX_PIVOTS, t.ambiguous);
      assert action == ActionOf(View(), t);
      match action
      case TEST => TestExpectation(i, t);
      case CONTROL =>
        assert pending[0] in View().tests.pending;
        ControlExpectation(t);
      case EXPAND => ExpandEntity();
      case DISCOVER => DiscoverPopulation(cell, t);
      case PIVOT => PivotEntity(t);
      case REFINE =>
        if t.countsCall {
          ledger.RecordLlmCall();
        }
      case STOP => EvaluateStopping(t);
    }

    method TakeTurn(t: Turn)
      requires IsState(setting, View())
      modifies this, ledger
      ensures View() == Step(setting, old(View()), t)
    {
      ghost var before := View();
      ledger.RecordTurn();
      turn := turn + 1;
      assert View() == Begin(before);
      if S.IsExhausted(ledger.counters, t.clock.atTurn) {
        decision := Some(S.StopExhausted);
      } else {
        QueueUnexplored();
        assert View() == Requeued(Begin(before));
        Perform(t);
      }
    }

    /** Runs to a decision, within the turn budget. The world supplies one turn's inputs at a time. */
    method Run(world: nat -> Turn) returns (ghost turns: seq<Turn>)
      requires IsState(setting, View()) && IsSound(TestsView())
      requires forall i :: IsTurn(world(i))
      modifies this, ledger
      ensures IsRun(setting, old(View()), turns) && View() == EndOf(setting, old(View()), turns)
      ensures FollowsWorld(turns, world)
      ensures decision != None
    {
      turns := [];
      var i: nat := 0;
      while decision == None
        invariant IsRun(setting, old(View()), turns) && View() == EndOf(setting, old(View()), turns)
        invariant IsState(setting, View()) && IsSound(TestsView())
        invariant |turns| == i && FollowsWorld(turns, world)
        decreases decision == None, ledger.counters.maxTurns - ledger.counters.turn
      {
        ghost var before := View();
        ghost var t := world(i);
        StepIsState(setting, before, t);
        StepKeepsTests(setting, before, t);
        StepIsPaid(setting, before, t);
        AppendTurn(setting, old(View()), turns, t);
        FollowsOneMore(turns, world);
        TakeTurn(world(i));
        turns := turns + [t];
        i := i + 1;
      }
    }
  }

  // ------------------------------------------------------------ the loop with its theorems

  /** What a run may have cost. */
  ghost predicate IsWithinBudget(start: State, end: State) {
    && (end.turn <= start.turn + 1 || end.ledger.turn <= start.ledger.maxTurns)
    && (start.ledger.queries <= start.ledger.maxQueries ==> end.ledger.queries <= start.ledger.maxQueries)
    && |end.tests.queries| - |start.tests.queries| == |end.tests.results| - |start.tests.results| == end.ledger.queries - start.ledger.queries
    && end.discovers <= WildcardsLeft(start.cover.cells) && end.cover.pivotsExecuted <= MAX_PIVOTS
    && end.calls <= (|end.tests.queries| - |start.tests.queries|) + (end.ledger.scanCells - start.ledger.scanCells)
  }

  lemma RunIsWithinBudget(set_: Setting, s: State, turns: seq<Turn>)
    requires IsStart(set_, s) && IsSound(s.tests) && IsRun(set_, s, turns)
    ensures IsWithinBudget(s, EndOf(set_, s, turns))
  {
    RunIsAffordable(set_, s, turns);
    ActionsAreBounded(set_, s, turns);
  }

  /** What the two terminal verdicts rest on when no claim plan is the authority; v is what the last turn saw. */
  ghost predicate IsVerdictEarned(end: State, v: S.Situation) {
    && (end.decision == Some(S.StopResolved) ==> IsEarnedResolution(end, v))
    && (end.decision == Some(S.StopRefuted) ==> IsEarnedVerdict(end.tests))
  }

  lemma RunVerdictIsEarned(set_: Setting, s: State, turns: seq<Turn>, world: nat -> Turn)
    requires IsStart(set_, s) && IsSound(s.tests) && IsRun(set_, s, turns) && FollowsWorld(turns, world) && turns != []
    requires forall k :: 0 <= k < |turns| ==> world(k).view.claims == None
    ensures IsVerdictEarned(EndOf(set_, s, turns), world(|turns| - 1).view)
  {
    assert forall t :: t in turns ==> t.view.claims == None;
    if EndOf(set_, s, turns).decision == Some(S.StopResolved) {
      ResolvedMeansExplored(set_, s, turns);
    }
    if EndOf(set_, s, turns).decision == Some(S.StopRefuted) {
      RefutedVerdictIsEarned(set_, s, turns);
    }
  }

  /**
   * Enters the loop and runs it to a decision. Whatever the world answers: every refutation is earned, a verdict
   * reached at any turn stands at the end, every cell's state rests on a recorded result, and the budgets hold;
   * without a claim plan the terminal verdicts are earned too.
   */
  method HuntTargets(setting: Setting, counters: S.Ledger, turn: int, earlier: seq<Result>, expectations: seq<Expectation>,
                     cells: seq<S.Cell>, observed: set<string>, world: nat -> Turn)
    returns (hunt: ActionHunt, ghost start: State, ghost turns: seq<Turn>)
    requires forall e :: e in expectations ==> e.status == S.Untested
    requires setting.wildcard < |cells| && cells[setting.wildcard].entity == None
    requires forall i :: IsTurn(world(i))
    ensures IsStart(setting, start) && start.ledger == counters && start.turn == turn && start.tests.results == earlier
    ensures start.tests.expectations == expectations && start.cover.cells == cells
    ensures IsSound(start.tests) && IsRun(setting, start, turns) && hunt.View() == EndOf(setting, start, turns)
    ensures hunt.decision != None && turns != [] && FollowsWorld(turns, world)
    ensures RefutationsAreEarned(hunt.TestsView()) && forall n :: 0 <= n <= |turns| ==> StandsFrom(setting, start, turns, n)
    ensures ActionCoverage.CellsAreBacked(setting, start, hunt.View())
    ensures IsWithinBudget(start, hunt.View())
    ensures (forall k: nat :: world(k).view.claims == None) ==> IsVerdictEarned(hunt.View(), world(|turns| - 1).view)
  {
    var ledger := new S.HuntBudgetLedger(counters);
    hunt := new ActionHunt(setting, ledger, turn, earlier, expectations, cells, observed);
    start := hunt.View();
    StartIsSound(setting, start);
    turns := hunt.Run(world);
    RunKeepsVerdicts(setting, start, turns);
    SoundIsEarned(hunt.TestsView());
    forall n | 0 <= n <= |turns| ensures StandsFrom(setting, start, turns, n) {
      VerdictsStand(setting, start, turns, n);
    }
    ActionCoverage.CoverageIsEarned(setting, start, turns);
    RunIsWithinBudget(setting, start, turns);
    if forall k: nat :: world(k).view.claims == None {
      RunVerdictIsEarned(setting, start, turns, world);
    }
  }
}
