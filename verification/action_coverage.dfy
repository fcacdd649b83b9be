/**
 * Coverage over runs: every state that a cell reaches rests on a recorded result of that kind, for a query that was made
 * for the cell.
 */
module ActionCoverage {
  import opened Text
  import opened ActionLoop
  import opened ActionSoundness
  import S = Stopping

  // ------------------------------------------------------------ what backs a cell's state

  /** The state that a result leaves in the cell it was asked for. */
  ghost predicate Leaves(r: Result, state: S.CellState) {
    match state
    case Explored => r.ok && r.complete
    case Partial => r.ok && !r.complete
    case Unqueryable => !r.ok
    case _ => false
  }

  /** Query k was made for cell i: a sweep for a wildcard, a test for its entity's cell or for the loop's own wildcard. */
  ghost predicate IsMadeFor(set_: Setting, s: State, k: nat, i: nat) {
    && k < |s.tests.queries| && i < |s.cover.cells|
    && match s.tests.queries[k]
       case Sweep => s.cover.cells[i].entity == None
       case Targeted(e) =>
         e < |s.tests.expectations| && (i == set_.wildcard || s.cover.cells[i].entity == Some(s.tests.expectations[e].entity))
       case Earlier => false
  }

  /** Some result recorded after the first n, of a query made for cell i, leaves it in its state. */
  ghost predicate IsBackedCell(set_: Setting, s: State, i: nat, n: nat)
    requires i < |s.cover.cells|
  {
    exists k: nat :: n <= k < |s.tests.results| && IsMadeFor(set_, s, k, i) && Leaves(s.tests.results[k], s.cover.cells[i].state)
  }

  /** Every cell has the state it had, or started with, or a backed one. */
  ghost predicate CellsAreBacked(set_: Setting, start: State, s: State) {
    && |start.cover.cells| <= |s.cover.cells|
    && forall i :: 0 <= i < |s.cover.cells| ==>
      || s.cover.cells[i].state == (if i < |start.cover.cells| then start.cover.cells[i].state else S.Unexplored)
      || IsBackedCell(set_, s, i, |start.tests.results|)
  }

  // ------------------------------------------------------------ one turn

  /** Only cell i is marked; cells that are added are unexplored instances. */
  ghost predicate MarksOnly(a: seq<S.Cell>, b: seq<S.Cell>, i: nat, r: Result) {
    && |a| <= |b| && i < |a|
    && (forall j :: 0 <= j < |a| && j != i ==> b[j] == a[j])
    && b[i].entity == a[i].entity && Leaves(r, b[i].state)
    && forall j :: |a| <= j < |b| ==> b[j].entity.Some? && b[j].state == S.Unexplored
  }

  /** The cell of a test: the first of its entity if the plan is targeted and it has one, or else the loop's wildcard. */
  ghost predicate IsCellOf(set_: Setting, cells: seq<S.Cell>, entity: string, targeted: bool, i: nat) {
    if targeted && exists j :: 0 <= j < |cells| && cells[j].entity == Some(entity) then
      i < |cells| && cells[i].entity == Some(entity) && forall j :: 0 <= j < i ==> cells[j].entity != Some(entity)
    else i == set_.wildcard
  }

  /** A test marks exactly the cell it was made for, with the state that its result leaves. */
  lemma TestMarks(set_: Setting, c: Coverage, tests: Tests, e: nat, t: Turn, targeted: bool) returns (i: nat)
    requires e < |tests.expectations| && set_.wildcard < |c.cells|
    ensures IsCellOf(set_, c.cells, tests.expectations[e].entity, targeted, i)
    ensures MarksOnly(c.cells, Covered(set_, c, tests, e, t, targeted).cells, i, t.result)
  {
    i := CellFor(set_, c.cells, tests.expectations[e].entity, targeted);
  }

  /** A sweep marks exactly the first unexplored wildcard. */
  lemma SweepMarks(c: Coverage, r: Result, t: Turn)
    requires FirstCell(c.cells, None) < |c.cells|
    ensures var i := FirstCell(c.cells, None);
      && c.cells[i] == S.Cell(None, S.Unexplored) && (forall j :: 0 <= j < i ==> c.cells[j] != S.Cell(None, S.Unexplored))
      && MarksOnly(c.cells, SweptCover(c, i, r, t).cells, i, r)
  {
  }

  lemma MadeForStays(set_: Setting, s: State, r: State, k: nat, i: nat)
    requires IsMadeFor(set_, s, k, i) && Extends(s.tests, r.tests) && CellsGrow(s.cover.cells, r.cover.cells)
    ensures IsMadeFor(set_, r, k, i)
  {
    assert r.tests.queries[k] == s.tests.queries[k];
  }

  lemma BackedStays(set_: Setting, s: State, r: State, i: nat, n: nat)
    requires i < |s.cover.cells| && IsBackedCell(set_, s, i, n)
    requires Extends(s.tests, r.tests) && CellsGrow(s.cover.cells, r.cover.cells) && r.cover.cells[i].state == s.cover.cells[i].state
    ensures IsBackedCell(set_, r, i, n)
  {
    var k: nat :| n <= k < |s.tests.results| && IsMadeFor(set_, s, k, i) && Leaves(s.tests.results[k], s.cover.cells[i].state);
    MadeForStays(set_, s, r, k, i);
    assert r.tests.results[k] == s.tests.results[k];
  }

  /** A turn that marks no cell. */
  lemma UnmarkedKeeps(set_: Setting, start: State, s: State, r: State)
    requires CellsAreBacked(set_, start, s) && Extends(s.tests, r.tests) && s.cover.cells <= r.cover.cells
    requires forall i :: |s.cover.cells| <= i < |r.cover.cells| ==> r.cover.cells[i].entity.Some? && r.cover.cells[i].state == S.Unexplored
    ensures CellsAreBacked(set_, start, r)
  {
    forall i | 0 <= i < |s.cover.cells| && IsBackedCell(set_, s, i, |start.tests.results|)
      ensures IsBackedCell(set_, r, i, |start.tests.results|)
    {
      BackedStays(set_, s, r, i, |start.tests.results|);
    }
  }

  /** A turn that marks one, and records the result last. */
  lemma MarkedKeeps(set_: Setting, start: State, s: State, r: State, i: nat, result: Result)
    requires CellsAreBacked(set_, start, s) && Extends(s.tests, r.tests) && MarksOnly(s.cover.cells, r.cover.cells, i, result)
    requires |s.tests.queries| == |s.tests.results| && |start.tests.results| <= |s.tests.results|
    requires r.tests.results == s.tests.results + [result] && IsMadeFor(set_, r, |s.tests.results|, i)
    ensures CellsAreBacked(set_, start, r)
  {
    var n := |start.tests.results|;
    assert IsBackedCell(set_, r, i, n) by {
      assert r.tests.results[|s.tests.results|] == result;
    }
    forall j | 0 <= j < |s.cover.cells| && j != i && IsBackedCell(set_, s, j, n) ensures IsBackedCell(set_, r, j, n) {
      BackedStays(set_, s, r, j, n);
    }
  }

  lemma TestKeepsCells(set_: Setting, start: State, s: State, t: Turn)
    requires IsState(set_, s) && IsSound(s.tests) && CellsAreBacked(set_, start, s) && |start.tests.results| <= |s.tests.results|
    requires FirstUntested(s.tests.expectations) < |s.tests.expectations|
    ensures CellsAreBacked(set_, start, Test(set_, s, t))
  {
    var e := FirstUntested(s.tests.expectations);
    var r := Test(set_, s, t);
    TestKeepsTests(set_, s, t);
    if t.plan.Planned? {
      var i := TestMarks(set_, s.cover, s.tests, e, t, t.plan.targeted);
      assert r.tests.queries[|s.tests.results|] == Targeted(e);
      MarkedKeeps(set_, start, s, r, i, t.result);
    } else {
      UnmarkedKeeps(set_, start, s, r);
    }
  }

  lemma DiscoverKeepsCells(set_: Setting, start: State, s: State, t: Turn)
    requires IsState(set_, s) && IsSound(s.tests) && CellsAreBacked(set_, start, s) && |start.tests.results| <= |s.tests.results|
    requires FirstCell(s.cover.cells, None) < |s.cover.cells|
    ensures CellsAreBacked(set_, start, Discover(s, t))
  {
    var r := Discover(s, t);
    var result := SweepResult(t);
    SweptIsSound(s.tests, result, t.minted);
    SweepMarks(s.cover, result, t);
    assert r.tests.queries[|s.tests.results|] == Sweep;
    MarkedKeeps(set_, start, s, r, FirstCell(s.cover.cells, None), result);
  }

  lemma ActKeepsCells(set_: Setting, start: State, s: State, t: Turn)
    requires IsState(set_, s) && IsSound(s.tests) && CellsAreBacked(set_, start, s) && |start.tests.results| <= |s.tests.results|
    ensures CellsAreBacked(set_, start, Act(set_, s, t))
  {
    match ActionOf(s, t)
    case TEST => TestKeepsCells(set_, start, s, t);
    case DISCOVER => DiscoverKeepsCells(set_, start, s, t);
    case _ =>
      ActKeepsTests(set_, s, t);
      UnmarkedKeeps(set_, start, s, Act(set_, s, t));
  }

  lemma StepKeepsCells(set_: Setting, start: State, s: State, t: Turn)
    requires IsState(set_, s) && IsSound(s.tests) && CellsAreBacked(set_, start, s) && |start.tests.results| <= |s.tests.results|
    ensures CellsAreBacked(set_, start, Step(set_, s, t)) && |start.tests.results| <= |Step(set_, s, t).tests.results|
  {
    var q := Requeued(Begin(s));
    StepKeepsTests(set_, s, t);
    UnmarkedKeeps(set_, start, s, q);
    if !S.IsExhausted(Begin(s).ledger, t.clock.atTurn) {
      ActKeepsCells(set_, start, q, t);
    } else {
      UnmarkedKeeps(set_, start, s, Step(set_, s, t));
    }
  }

  // ------------------------------------------------------------ whole runs

  lemma {:induction false} RunKeepsCells(set_: Setting, start: State, s: State, turns: seq<Turn>)
    requires IsState(set_, s) && IsSound(s.tests) && IsRun(set_, s, turns)
    requires CellsAreBacked(set_, start, s) && |start.tests.results| <= |s.tests.results|
    ensures CellsAreBacked(set_, start, EndOf(set_, s, turns))
    decreases |turns|
  {
    if turns != [] {
      StepIsState(set_, s, turns[0]);
      StepKeepsTests(set_, s, turns[0]);
      StepKeepsCells(set_, start, s, turns[0]);
      RunKeepsCells(set_, start, Step(set_, s, turns[0]), turns[1..]);
    }
  }

  /**
   * Over every run a cell that ends EXPLORED was so at the start or rests on a complete result recorded since for a
   * query made for it; a PARTIAL one rests on an incomplete result, and an UNQUERYABLE one on a query that failed.
   */
  lemma CoverageIsEarned(set_: Setting, s: State, turns: seq<Turn>)
    requires IsState(set_, s) && IsSound(s.tests) && IsRun(set_, s, turns)
    ensures CellsAreBacked(set_, s, EndOf(set_, s, turns))
  {
    RunKeepsCells(set_, s, s, turns);
  }
}
