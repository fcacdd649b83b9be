/** What every run of the action loop keeps, and what its verdicts and its decision rest on. */
module ActionSoundness {
  import opened Text
  import opened ActionLoop
  import CaseGraphs
  import S = Stopping

  // ------------------------------------------------------------ verdicts rest on records

  ghost predicate IsTest(t: Tests, k: nat, i: nat) {
    k < |t.queries| && k < |t.results| && t.queries[k] == Targeted(i)
  }

  /** Some controls run for expectation i license the empty result r. */
  ghost predicate WasLicensed(t: Tests, i: nat, r: Result) {
    exists c :: c in t.controls && c.expectation == i && IsLicensed(r, c)
  }

  /** An expectation was queried for at most once, and never while it is untested. */
  ghost predicate IsAskedOnce(t: Tests) {
    && |t.queries| == |t.results|
    && (forall j, k :: 0 <= j < k < |t.queries| && t.queries[j].Targeted? ==> t.queries[j] != t.queries[k])
    && forall k :: 0 <= k < |t.queries| && t.queries[k].Targeted? ==>
      t.queries[k].expectation < |t.expectations| && t.expectations[t.queries[k].expectation].status != S.Untested
  }

  /** What the record shows for a verdict on expectation i. */
  ghost predicate IsBacked(t: Tests, i: nat)
    requires i < |t.expectations|
  {
    match t.expectations[i].status
    case Untested => true
    case Untestable => forall k: nat :: !IsTest(t, k, i)
    case Inconclusive => exists k: nat :: IsTest(t, k, i) && (t.results[k].rows == {} || !t.results[k].complete)
    case Confirmed => exists k: nat :: IsTest(t, k, i) && t.results[k].rows != {}
    case Refuted => exists k: nat :: IsRefutation(t, k, i)
  }

  /** Query k came back complete for expectation i, and if it came back empty the controls licensed that. */
  ghost predicate IsRefutation(t: Tests, k: nat, i: nat) {
    && IsTest(t, k, i) && t.results[k].complete
    && (t.results[k].rows == {} ==> WasLicensed(t, i, t.results[k]))
  }

  ghost predicate AllBacked(t: Tests) {
    forall i :: 0 <= i < |t.expectations| ==> IsBacked(t, i)
  }

  /** A queued control: an inconclusive expectation and its complete, empty, recorded result. */
  ghost predicate IsWaiting(t: Tests, p: Pending) {
    && p.expectation < |t.expectations| && t.expectations[p.expectation].status == S.Inconclusive
    && p.result.complete && p.result.rows == {}
    && exists k: nat :: IsTest(t, k, p.expectation) && t.results[k] == p.result
  }

  ghost predicate QueueIsSound(t: Tests) {
    && (forall p :: p in t.pending ==> IsWaiting(t, p))
    && forall i, j :: 0 <= i < j < |t.pending| ==> t.pending[i].expectation != t.pending[j].expectation
  }

  ghost predicate IsSound(t: Tests) {
    IsAskedOnce(t) && AllBacked(t) && QueueIsSound(t)
  }

  /** Records only grow, and a verdict once reached stays. */
  ghost predicate Extends(t: Tests, u: Tests) {
    && t.queries <= u.queries && t.results <= u.results && t.controls <= u.controls && t.observed <= u.observed
    && |t.expectations| <= |u.expectations|
    && forall i :: 0 <= i < |t.expectations| ==>
      && u.expectations[i] == t.expectations[i].(status := u.expectations[i].status)
      && (t.expectations[i].status in {S.Confirmed, S.TestStatus.Refuted, S.TestStatus.Untestable} ==>
            u.expectations[i] == t.expectations[i])
      && (t.expectations[i].status == S.Inconclusive ==> u.expectations[i].status in {S.Inconclusive, S.TestStatus.Refuted})
  }

  lemma ExtendsIsTransitive(t: Tests, u: Tests, v: Tests)
    requires Extends(t, u) && Extends(u, v)
    ensures Extends(t, v)
  {
  }

  // ------------------------------------------------------------ each action keeps them

  lemma RecordExtends(t: Tests, i: nat, r: Result, matched: bool, hasControls: bool)
    requires i < |t.expectations| && t.expectations[i].status == S.Untested
    ensures Extends(t, Record(t, i, r, matched, hasControls))
  {
  }

  /** A verdict stays backed while no further query is made for its expectation. */
  lemma BackingStays(t: Tests, u: Tests, i: nat)
    requires i < |t.expectations| && i < |u.expectations| && u.expectations[i].status == t.expectations[i].status
    requires |t.queries| == |t.results| && |u.queries| == |u.results|
    requires t.queries <= u.queries && t.results <= u.results && t.controls <= u.controls
    requires forall k :: |t.queries| <= k < |u.queries| ==> u.queries[k] != Targeted(i)
    requires IsBacked(t, i)
    ensures IsBacked(u, i)
  {
    assert forall k: nat :: IsTest(t, k, i) <==> IsTest(u, k, i);
    assert forall c :: c in t.controls ==> c in u.controls;
    if t.expectations[i].status == S.TestStatus.Refuted {
      var k: nat :| IsRefutation(t, k, i);
      assert IsRefutation(u, k, i);
    }
  }

  lemma RecordIsBacked(t: Tests, i: nat, r: Result, matched: bool, hasControls: bool)
    requires IsSound(t) && i < |t.expectations| && t.expectations[i].status == S.Untested
    ensures IsAskedOnce(Record(t, i, r, matched, hasControls)) && AllBacked(Record(t, i, r, matched, hasControls))
  {
    var u := Record(t, i, r, matched, hasControls);
    var n := |t.queries|;
    assert IsTest(u, n, i) && u.results[n] == r;
    assert r.rows != {} && r.complete ==> IsRefutation(u, n, i);
    forall j | 0 <= j < |u.expectations| && j != i ensures IsBacked(u, j) {
      BackingStays(t, u, j);
    }
  }

  lemma RecordKeepsQueue(t: Tests, i: nat, r: Result, matched: bool, hasControls: bool)
    requires IsSound(t) && i < |t.expectations| && t.expectations[i].status == S.Untested
    ensures QueueIsSound(Record(t, i, r, matched, hasControls))
  {
    var u := Record(t, i, r, matched, hasControls);
    var n := |t.queries|;
    assert IsTest(u, n, i) && u.results[n] == r;
    forall p | p in u.pending ensures IsWaiting(u, p) {
      if p in t.pending {
        assert IsWaiting(t, p);
        var k: nat :| IsTest(t, k, p.expectation) && t.results[k] == p.result;
        assert IsTest(u, k, p.expectation) && u.results[k] == p.result;
      }
    }
    forall j | 0 <= j < |t.pending| ensures t.pending[j].expectation != i {
      assert t.pending[j] in t.pending && IsWaiting(t, t.pending[j]);
    }
  }

  lemma UntestableIsSound(t: Tests, i: nat)
    requires IsSound(t) && i < |t.expectations| && t.expectations[i].status == S.Untested
    ensures var u := t.(expectations := SetStatus(t.expectations, i, S.TestStatus.Untestable));
      IsSound(u) && Extends(t, u)
  {
    var u := t.(expectations := SetStatus(t.expectations, i, S.TestStatus.Untestable));
    SameRecords(t, u);
    forall j | 0 <= j < |u.expectations| && j != i ensures IsBacked(u, j) {
      BackingStays(t, u, j);
    }
    forall p | p in u.pending ensures IsWaiting(u, p) {
      assert IsWaiting(t, p);
    }
  }

  lemma SameRecords(t: Tests, u: Tests)
    requires u.queries == t.queries && u.results == t.results
    ensures forall k: nat, i: nat :: IsTest(t, k, i) <==> IsTest(u, k, i)
  {
  }

  lemma ControlsAreSound(t: Tests, run: ControlRun)
    requires IsSound(t) && t.pending != [] && t.pending[0].expectation < |t.expectations|
    ensures IsSound(RunControls(t, run)) && Extends(t, RunControls(t, run))
  {
    var u := RunControls(t, run);
    var p := t.pending[0];
    var r := run.(expectation := p.expectation);
    assert IsWaiting(t, p);
    SameRecords(t, u);
    assert r in u.controls;
    var k: nat :| IsTest(t, k, p.expectation) && t.results[k] == p.result;
    assert IsTest(u, k, p.expectation) && u.results[k] == p.result;
    assert IsLicensed(p.result, r) ==> IsRefutation(u, k, p.expectation);
    forall j | 0 <= j < |u.expectations| && j != p.expectation ensures IsBacked(u, j) {
      BackingStays(t, u, j);
    }
    forall q | q in u.pending ensures IsWaiting(u, q) {
      assert q in t.pending && IsWaiting(t, q);
    }
  }

  lemma SweptIsSound(t: Tests, r: Result, minted: seq<Expectation>)
    requires IsSound(t)
    ensures IsSound(Swept(t, r, minted)) && Extends(t, Swept(t, r, minted))
  {
    var u := t.(queries := t.queries + [Sweep], results := t.results + [r], observed := t.observed + r.rows);
    assert forall k: nat, i: nat :: IsTest(t, k, i) <==> IsTest(u, k, i);
    assert forall k: nat, i: nat :: IsTest(t, k, i) ==> u.results[k] == t.results[k];
    forall j | 0 <= j < |u.expectations| ensures IsBacked(u, j) {
      BackingStays(t, u, j);
    }
    forall p | p in u.pending ensures IsWaiting(u, p) {
      assert IsWaiting(t, p);
    }
    MintedIsSound(u, minted);
  }

  lemma MintedIsSound(t: Tests, minted: seq<Expectation>)
    requires IsSound(t)
    ensures IsSound(Minted(t, minted)) && Extends(t, Minted(t, minted))
  {
    var u := Minted(t, minted);
    SameRecords(t, u);
    forall j | 0 <= j < |u.expectations| ensures IsBacked(u, j) {
      if j < |t.expectations| {
        BackingStays(t, u, j);
      }
    }
    forall p | p in u.pending ensures IsWaiting(u, p) {
      assert IsWaiting(t, p);
    }
  }

  lemma TestKeepsTests(set_: Setting, s: State, t: Turn)
    requires IsState(set_, s) && IsSound(s.tests) && FirstUntested(s.tests.expectations) < |s.tests.expectations|
    ensures IsSound(Test(set_, s, t).tests) && Extends(s.tests, Test(set_, s, t).tests)
  {
    var i := FirstUntested(s.tests.expectations);
    if t.plan.NoPlan? {
      UntestableIsSound(s.tests, i);
    } else {
      RecordExtends(s.tests, i, t.result, t.matched, set_.hasControls);
      RecordIsBacked(s.tests, i, t.result, t.matched, set_.hasControls);
      RecordKeepsQueue(s.tests, i, t.result, t.matched, set_.hasControls);
    }
  }

  lemma ActKeepsTests(set_: Setting, s: State, t: Turn)
    requires IsState(set_, s) && IsSound(s.tests)
    ensures IsSound(Act(set_, s, t).tests) && Extends(s.tests, Act(set_, s, t).tests)
  {
    match ActionOf(s, t)
    case TEST => TestKeepsTests(set_, s, t);
    case CONTROL => ControlsAreSound(s.tests, t.run);
    case EXPAND => MintedIsSound(s.tests, MintsFor(set_.minting, set_.minting.requirements, s.tests.expectations, s.cover.expand[0]));
    case DISCOVER => SweptIsSound(s.tests, SweepResult(t), t.minted);
    case PIVOT => MintedIsSound(s.tests, Retarget(t.minted, s.cover.pivots[0]));
    case _ =>
  }

  /** Whatever the turn's inputs, a turn keeps the records sound and every verdict in place. */
  lemma StepKeepsTests(set_: Setting, s: State, t: Turn)
    requires IsState(set_, s) && IsSound(s.tests)
    ensures IsSound(Step(set_, s, t).tests) && Extends(s.tests, Step(set_, s, t).tests)
  {
    if !S.IsExhausted(Begin(s).ledger, t.clock.atTurn) {
      ActKeepsTests(set_, Requeued(Begin(s)), t);
    }
  }

  // ------------------------------------------------------------ coverage and counters

  function WildcardsLeft(cells: seq<S.Cell>): nat {
    if cells == [] then 0
    else WildcardsLeft(cells[..|cells| - 1]) + if cells[|cells| - 1] == S.Cell(None, S.Unexplored) then 1 else 0
  }

  lemma {:induction false} MarkedCell(cells: seq<S.Cell>, i: nat, state: S.CellState)
    requires i < |cells| && state != S.Unexplored
    ensures WildcardsLeft(cells[i := cells[i].(state := state)]) ==
      WildcardsLeft(cells) - if cells[i] == S.Cell(None, S.Unexplored) then 1 else 0
  {
    var n := |cells| - 1;
    var marked := cells[i := cells[i].(state := state)];
    if i == n {
      assert marked[..n] == cells[..n];
    } else {
      assert marked[..n] == cells[..n][i := cells[i].(state := state)];
      MarkedCell(cells[..n], i, state);
    }
  }

  lemma {:induction false} InstancesAreNoWildcards(cells: seq<S.Cell>, more: seq<S.Cell>)
    requires cells <= more && forall i :: |cells| <= i < |more| ==> more[i].entity.Some?
    ensures WildcardsLeft(more) == WildcardsLeft(cells)
    decreases |more|
  {
    if |more| == |cells| {
      assert more == cells;
    } else {
      InstancesAreNoWildcards(cells, more[..|more| - 1]);
    }
  }

  /** Cells are marked, or appended for instances; none becomes or ceases to be a wildcard. */
  ghost predicate CellsGrow(a: seq<S.Cell>, b: seq<S.Cell>) {
    && |a| <= |b| && (forall i :: 0 <= i < |a| ==> b[i].entity == a[i].entity)
    && forall i :: |a| <= i < |b| ==> b[i].entity.Some?
  }

  lemma CoveredCells(set_: Setting, c: Coverage, tests: Tests, i: nat, t: Turn, targeted: bool)
    requires i < |tests.expectations| && set_.wildcard < |c.cells|
    ensures var d := Covered(set_, c, tests, i, t, targeted);
      && CellsGrow(c.cells, d.cells) && WildcardsLeft(d.cells) <= WildcardsLeft(c.cells)
      && d.pivotsExecuted == c.pivotsExecuted && (|c.pivots| <= MAX_PIVOTS ==> |d.pivots| <= MAX_PIVOTS)
  {
    var j := CellFor(set_, c.cells, tests.expectations[i].entity, targeted);
    var marked := SetCell(c, j, StateFrom(t.result));
    MarkedCell(c.cells, j, StateFrom(t.result));
    InstancesAreNoWildcards(marked.cells, AddHosts(marked, t.hosts).cells);
  }

  /** A sweep uses up the wildcard cell it was made for. */
  lemma SweptCells(c: Coverage, r: Result, t: Turn)
    requires FirstCell(c.cells, None) < |c.cells|
    ensures var d := SweptCover(c, FirstCell(c.cells, None), r, t);
      && CellsGrow(c.cells, d.cells) && WildcardsLeft(d.cells) + 1 == WildcardsLeft(c.cells)
      && d.pivotsExecuted == c.pivotsExecuted
  {
    var i := FirstCell(c.cells, None);
    var marked := SetCell(c, i, StateFrom(r));
    MarkedCell(c.cells, i, StateFrom(r));
    InstancesAreNoWildcards(marked.cells, AddCells(marked.cells, t.hosts));
  }

  /** What one action may cost: at most one recorded query, and a second provider call only for a sweep. */
  ghost predicate IsPaid(s: State, r: State) {
    && r.turn == s.turn && r.ledger.turn == s.ledger.turn
    && r.ledger.maxTurns == s.ledger.maxTurns && r.ledger.maxQueries == s.ledger.maxQueries
    && var asked := r.queryCount - s.queryCount;
    && 0 <= asked <= 1 && r.ledger.queries == s.ledger.queries + asked
    && |r.tests.queries| == |s.tests.queries| + asked && |r.tests.results| == |s.tests.results| + asked
    && (asked == 1 ==> s.ledger.queries < s.ledger.maxQueries)
    && 0 <= r.ledger.scanCells - s.ledger.scanCells == r.discovers - s.discovers <= asked
    && s.calls <= r.calls && r.calls - s.calls <= asked + (r.discovers - s.discovers)
  }

  /** At most one sweep for each wildcard cell that is still unexplored, and at most three pivots. */
  ghost predicate IsCovered(s: State, r: State) {
    && CellsGrow(s.cover.cells, r.cover.cells)
    && r.discovers + WildcardsLeft(r.cover.cells) <= s.discovers + WildcardsLeft(s.cover.cells)
    && s.cover.pivotsExecuted <= r.cover.pivotsExecuted
    && (s.cover.pivotsExecuted <= MAX_PIVOTS ==> r.cover.pivotsExecuted <= MAX_PIVOTS)
  }

  lemma TestIsPaid(set_: Setting, s: State, t: Turn)
    requires IsState(set_, s) && FirstUntested(s.tests.expectations) < |s.tests.expectations|
    requires s.ledger.queries < s.ledger.maxQueries
    ensures IsPaid(s, Test(set_, s, t)) && Test(set_, s, t).decision == s.decision
  {
  }

  lemma DiscoverIsPaid(s: State, t: Turn)
    requires FirstCell(s.cover.cells, None) < |s.cover.cells| && s.ledger.queries < s.ledger.maxQueries
    ensures IsPaid(s, Discover(s, t)) && Discover(s, t).decision == s.decision
  {
  }

  lemma ActIsPaid(set_: Setting, s: State, t: Turn)
    requires IsState(set_, s) && s.decision == None
    ensures IsPaid(s, Act(set_, s, t))
    ensures S.IsExhausted(s.ledger, t.clock.atChoice) ==> Act(set_, s, t).decision != None
  {
    match ActionOf(s, t)
    case TEST => TestIsPaid(set_, s, t);
    case DISCOVER => DiscoverIsPaid(s, t);
    case _ =>
  }

  lemma StepIsPaid(set_: Setting, s: State, t: Turn)
    requires IsState(set_, s) && s.decision == None
    ensures IsPaid(Begin(s), Step(set_, s, t))
    ensures Step(set_, s, t).decision == None ==> Step(set_, s, t).ledger.turn < s.ledger.maxTurns
  {
    var q := Requeued(Begin(s));
    if !S.IsExhausted(Begin(s).ledger, t.clock.atTurn) {
      ActIsPaid(set_, q, t);
      assert IsPaid(q, Act(set_, q, t));
    }
  }

  lemma StepCovers(set_: Setting, s: State, t: Turn)
    requires IsState(set_, s)
    ensures IsCovered(s, Step(set_, s, t))
  {
    var q := Requeued(Begin(s));
    if !S.IsExhausted(Begin(s).ledger, t.clock.atTurn) {
      match ActionOf(q, t)
      case TEST =>
        if t.plan.Planned? {
          CoveredCells(set_, q.cover, s.tests, FirstUntested(s.tests.expectations), t, t.plan.targeted);
        }
      case DISCOVER => SweptCells(q.cover, SweepResult(t), t);
      case PIVOT => InstancesAreNoWildcards(q.cover.cells, AddCell(q.cover.cells, q.cover.pivots[0]));
      case _ =>
    }
  }

  lemma StepIsState(set_: Setting, s: State, t: Turn)
    requires IsState(set_, s) && IsSound(s.tests)
    ensures IsState(set_, Step(set_, s, t))
  {
    StepCovers(set_, s, t);
    StepKeepsTests(set_, s, t);
    var r := Step(set_, s, t);
    forall p | p in r.tests.pending ensures p.expectation < |r.tests.expectations| {
      assert IsWaiting(r.tests, p);
    }
  }

  // ------------------------------------------------------------ runs

  /** The turns of a run: each is taken while no decision is set. */
  ghost predicate IsRun(set_: Setting, s: State, turns: seq<Turn>)
    requires IsState(set_, s) && IsSound(s.tests)
    decreases |turns|
  {
    turns == [] ||
    (s.decision == None && IsTurn(turns[0]) && (StepIsState(set_, s, turns[0]); StepKeepsTests(set_, s, turns[0]);
      IsRun(set_, Step(set_, s, turns[0]), turns[1..])))
  }

  ghost function EndOf(set_: Setting, s: State, turns: seq<Turn>): State
    requires IsState(set_, s) && IsSound(s.tests)
    decreases |turns|
  {
    if turns == [] then s
    else
      StepIsState(set_, s, turns[0]);
      StepKeepsTests(set_, s, turns[0]);
      EndOf(set_, Step(set_, s, turns[0]), turns[1..])
  }

  /** How the loop starts: nothing tested, nothing queued, the record in step. */
  ghost predicate IsStart(set_: Setting, s: State) {
    && IsState(set_, s) && s.decision == None
    && s.tests.pending == [] && s.tests.controls == [] && |s.tests.queries| == |s.tests.results|
    && (forall k :: 0 <= k < |s.tests.queries| ==> s.tests.queries[k] == Earlier)
    && (forall e :: e in s.tests.expectations ==> e.status == S.Untested)
    && s.cover.pivotsExecuted == 0 && s.discovers == 0 && s.calls == 0
  }

  lemma StartIsSound(set_: Setting, s: State)
    requires IsStart(set_, s)
    ensures IsSound(s.tests)
  {
    forall i | 0 <= i < |s.tests.expectations| ensures IsBacked(s.tests, i) {
      assert s.tests.expectations[i] in s.tests.expectations;
    }
  }

  /** Over every run the records stay sound, and no verdict is ever taken back. */
  lemma {:induction false} RunKeepsVerdicts(set_: Setting, s: State, turns: seq<Turn>)
    requires IsState(set_, s) && IsSound(s.tests) && IsRun(set_, s, turns)
    ensures IsState(set_, EndOf(set_, s, turns)) && IsSound(EndOf(set_, s, turns).tests)
    ensures Extends(s.tests, EndOf(set_, s, turns).tests)
    decreases |turns|
  {
    if turns != [] {
      StepIsState(set_, s, turns[0]);
      StepKeepsTests(set_, s, turns[0]);
      var r := Step(set_, s, turns[0]);
      RunKeepsVerdicts(set_, r, turns[1..]);
      ExtendsIsTransitive(s.tests, r.tests, EndOf(set_, r, turns[1..]).tests);
    }
  }

  /** What a run of n turns may cost. */
  ghost predicate IsAffordable(s: State, r: State, n: nat) {
    && r.turn == s.turn + n && r.ledger.turn == s.ledger.turn + n
    && r.ledger.maxTurns == s.ledger.maxTurns && r.ledger.maxQueries == s.ledger.maxQueries
    && var asked := r.queryCount - s.queryCount;
    && 0 <= asked <= n && r.ledger.queries == s.ledger.queries + asked
    && |r.tests.queries| == |s.tests.queries| + asked && |r.tests.results| == |s.tests.results| + asked
    && (s.ledger.queries <= s.ledger.maxQueries ==> r.ledger.queries <= r.ledger.maxQueries)
    && 0 <= r.ledger.scanCells - s.ledger.scanCells == r.discovers - s.discovers
    && r.calls - s.calls <= asked + (r.discovers - s.discovers)
  }

  /** Queries, results, counters and ledger stay in step; the query budget is never overshot. */
  lemma {:induction false} RunIsAffordable(set_: Setting, s: State, turns: seq<Turn>)
    requires IsState(set_, s) && IsSound(s.tests) && IsRun(set_, s, turns)
    ensures IsAffordable(s, EndOf(set_, s, turns), |turns|)
    ensures |turns| > 1 ==> s.ledger.turn + |turns| <= s.ledger.maxTurns
    decreases |turns|
  {
    if turns != [] {
      StepIsState(set_, s, turns[0]);
      StepKeepsTests(set_, s, turns[0]);
      StepIsPaid(set_, s, turns[0]);
      RunIsAffordable(set_, Step(set_, s, turns[0]), turns[1..]);
    }
  }

  lemma CoveredIsTransitive(s: State, r: State, u: State)
    requires IsCovered(s, r) && IsCovered(r, u)
    ensures IsCovered(s, u)
  {
    forall i | |s.cover.cells| <= i < |u.cover.cells| ensures u.cover.cells[i].entity.Some? {
      if i < |r.cover.cells| {
        assert r.cover.cells[i].entity.Some?;
      }
    }
  }

  lemma {:induction false} RunCovers(set_: Setting, s: State, turns: seq<Turn>)
    requires IsState(set_, s) && IsSound(s.tests) && IsRun(set_, s, turns)
    ensures IsCovered(s, EndOf(set_, s, turns))
    decreases |turns|
  {
    if turns != [] {
      StepIsState(set_, s, turns[0]);
      StepKeepsTests(set_, s, turns[0]);
      StepCovers(set_, s, turns[0]);
      var r := Step(set_, s, turns[0]);
      RunCovers(set_, r, turns[1..]);
      CoveredIsTransitive(s, r, EndOf(set_, r, turns[1..]));
    }
  }

  // ------------------------------------------------------------ main results

  /**
   * Refutation safety. In every run from a fresh start an expectation is REFUTED only on the one query made
   * for it, which came back complete, and if that came back empty only after its controls licensed it.
   */
  lemma RefutationIsEarned(set_: Setting, s: State, turns: seq<Turn>, i: nat) returns (k: nat)
    requires IsStart(set_, s) && IsSound(s.tests) && IsRun(set_, s, turns)
    requires i < |EndOf(set_, s, turns).tests.expectations|
    requires EndOf(set_, s, turns).tests.expectations[i].status == S.TestStatus.Refuted
    ensures IsRefutation(EndOf(set_, s, turns).tests, k, i)
    ensures forall j: nat :: IsTest(EndOf(set_, s, turns).tests, j, i) ==> j == k
  {
    RunKeepsVerdicts(set_, s, turns);
    var u := EndOf(set_, s, turns).tests;
    assert IsBacked(u, i);
    k :| IsRefutation(u, k, i);
  }

  /** Sweeps are bounded by the wildcard cells unexplored at the start, pivots by three, provider calls by records. */
  lemma ActionsAreBounded(set_: Setting, s: State, turns: seq<Turn>)
    requires IsStart(set_, s) && IsSound(s.tests) && IsRun(set_, s, turns)
    ensures var r := EndOf(set_, s, turns);
      && r.discovers <= WildcardsLeft(s.cover.cells) && r.cover.pivotsExecuted <= MAX_PIVOTS
      && r.calls <= (|r.tests.queries| - |s.tests.queries|) + (r.ledger.scanCells - s.ledger.scanCells)
  {
    RunCovers(set_, s, turns);
    RunIsAffordable(set_, s, turns);
  }

  /**
   * An unexplored instance cell holds back every later action: while a budget is left the loop tests, runs
   * controls or expands, and never sweeps, pivots, refines or stops.
   */
  lemma UnexploredCellBlocks(s: State, t: Turn)
    requires S.HasUnexploredInstance(s.cover.cells)
    ensures ActionOf(Requeued(s), t) in {TEST, CONTROL, EXPAND} || S.IsExhausted(s.ledger, t.clock.atChoice)
  {
    var c :| c in s.cover.cells && c.entity.Some? && c.state == S.Unexplored;
    var es := s.tests.expectations;
    if HasActive(es, c.entity.value) {
      var e :| e in es && e.status == S.Untested;
      var k :| 0 <= k < |es| && es[k] == e;
      assert FirstUntested(es) < |es|;
    } else {
      assert NeedsExpansion(es, c);
      assert c.entity.value in Requeue(s.cover.cells, es, s.cover.expand);
    }
  }

  /** What STOP_RESOLVED means when no claim plan is the authority. */
  lemma ResolvedHasReason(v: S.Situation)
    requires S.Evaluate(v).0 == S.StopResolved && v.claims == None
    ensures !v.exhausted && !v.incomplete && (S.Concluded(v.expectations) || S.SettledByGraph(v))
  {
    if S.NothingUnproven(v.graph) && S.HasEdges(v.graph) && !S.SomethingRefuted(v.graph) {
      forall k | k in v.graph.value.edges ensures CaseGraphs.IsVerified(v.graph.value, k) {
        assert !CaseGraphs.IsUnproven(v.graph.value, k);
      }
    }
  }

  lemma RefutedIsConcluded(v: S.Situation)
    requires S.Evaluate(v).0 == S.StopRefuted && v.claims == None
    ensures S.Concluded(v.expectations) && !v.incomplete && !v.exhausted
  {
  }

  /** What the last turn of a run saw when it stopped the run. */
  ghost predicate EndsWith(set_: Setting, r: State, t: Turn) {
    && IsTurn(t) && r.decision == Some(S.Evaluate(SituationOf(r, t)).0)
    && (S.HasUnexploredInstance(r.cover.cells) ==> S.IsExhausted(r.ledger, t.clock.atStop))
  }

  lemma StopSeesTheEnd(set_: Setting, s: State, t: Turn)
    requires IsState(set_, s) && IsTurn(t) && s.decision == None
    requires Step(set_, s, t).decision !in {None, Some(S.StopExhausted)}
    ensures EndsWith(set_, Step(set_, s, t), t)
  {
    var b := Begin(s);
    var q := Requeued(b);
    assert ActionOf(q, t) == STOP;
    if S.HasUnexploredInstance(q.cover.cells) {
      UnexploredCellBlocks(b, t);
    }
  }

  lemma {:induction false} RunSeesTheEnd(set_: Setting, s: State, turns: seq<Turn>) returns (t: Turn)
    requires IsState(set_, s) && IsSound(s.tests) && IsRun(set_, s, turns) && s.decision == None
    requires EndOf(set_, s, turns).decision !in {None, Some(S.StopExhausted)}
    ensures turns != [] && t == turns[|turns| - 1] && EndsWith(set_, EndOf(set_, s, turns), t)
    decreases |turns|
  {
    StepIsState(set_, s, turns[0]);
    StepKeepsTests(set_, s, turns[0]);
    var r := Step(set_, s, turns[0]);
    if r.decision == None {
      t := RunSeesTheEnd(set_, r, turns[1..]);
    } else {
      assert turns[1..] == [];
      t := turns[0];
      StopSeesTheEnd(set_, s, t);
    }
  }

  /** Every expectation has its verdict, no control waits, every result is complete, and each refutation is earned. */
  ghost predicate IsEarnedVerdict(u: Tests) {
    && u.expectations != [] && u.pending == [] && !SomeIncomplete(u.results)
    && (forall e :: e in u.expectations ==> e.status in {S.Confirmed, S.TestStatus.Refuted, S.TestStatus.Untestable})
    && RefutationsAreEarned(u)
  }

  /** Each REFUTED expectation has its one query, which refutes it. */
  ghost predicate RefutationsAreEarned(u: Tests) {
    forall i :: 0 <= i < |u.expectations| && u.expectations[i].status == S.TestStatus.Refuted ==> IsRefutedOnce(u, i)
  }

  ghost predicate IsRefutedOnce(u: Tests, i: nat) {
    exists k: nat :: IsRefutation(u, k, i) && forall j: nat :: IsTest(u, j, i) ==> j == k
  }

  lemma SoundIsEarned(u: Tests)
    requires IsSound(u)
    ensures RefutationsAreEarned(u)
  {
    forall i | 0 <= i < |u.expectations| && u.expectations[i].status == S.TestStatus.Refuted ensures IsRefutedOnce(u, i) {
      assert IsBacked(u, i);
      var k: nat :| IsRefutation(u, k, i);
      forall j: nat | IsTest(u, j, i) ensures j == k {
        assert u.queries[j] == u.queries[k];
      }
    }
  }

  /** Concluded expectations and complete results make an earned verdict. */
  lemma ConcludedIsEarned(u: Tests)
    requires IsSound(u) && S.Concluded(Statuses(u.expectations)) && !SomeIncomplete(u.results)
    ensures IsEarnedVerdict(u)
  {
    assert u.pending != [] ==> IsWaiting(u, u.pending[0]);
    SoundIsEarned(u);
    var statuses := Statuses(u.expectations);
    forall i | 0 <= i < |u.expectations|
      ensures u.expectations[i].status in {S.Confirmed, S.TestStatus.Refuted, S.TestStatus.Untestable}
    {
      assert statuses[i] in statuses;
    }
  }

  /**
   * What a resolution rests on: no instance cell is unexplored, every result is complete, each refutation is earned,
   * and either every expectation has its verdict or the case graph that the evaluation saw is VERIFIED throughout.
   */
  ghost predicate IsEarnedResolution(r: State, v: S.Situation) {
    && !S.HasUnexploredInstance(r.cover.cells) && !SomeIncomplete(r.tests.results) && RefutationsAreEarned(r.tests)
    && (IsEarnedVerdict(r.tests) || S.SettledByGraph(v))
  }

  /** No hunt without a claim plan ends STOP_RESOLVED in this loop unless the resolution is earned. */
  lemma ResolvedMeansExplored(set_: Setting, s: State, turns: seq<Turn>)
    requires IsStart(set_, s) && IsSound(s.tests) && IsRun(set_, s, turns)
    requires forall t :: t in turns ==> t.view.claims == None
    requires EndOf(set_, s, turns).decision == Some(S.StopResolved)
    ensures turns != [] && IsEarnedResolution(EndOf(set_, s, turns), turns[|turns| - 1].view)
  {
    var r := EndOf(set_, s, turns);
    RunKeepsVerdicts(set_, s, turns);
    var t := RunSeesTheEnd(set_, s, turns);
    assert t in turns;
    ResolvedHasReason(SituationOf(r, t));
    SoundIsEarned(r.tests);
    if S.Concluded(Statuses(r.tests.expectations)) {
      ConcludedIsEarned(r.tests);
    }
  }

  /** No hunt without a claim plan ends STOP_REFUTED unless the verdict is earned. */
  lemma RefutedVerdictIsEarned(set_: Setting, s: State, turns: seq<Turn>)
    requires IsStart(set_, s) && IsSound(s.tests) && IsRun(set_, s, turns)
    requires forall t :: t in turns ==> t.view.claims == None
    requires EndOf(set_, s, turns).decision == Some(S.StopRefuted)
    ensures IsEarnedVerdict(EndOf(set_, s, turns).tests)
  {
    RunKeepsVerdicts(set_, s, turns);
    var t := RunSeesTheEnd(set_, s, turns);
    assert t in turns;
    RefutedIsConcluded(SituationOf(EndOf(set_, s, turns), t));
    ConcludedIsEarned(EndOf(set_, s, turns).tests);
  }

  /** The turn's inputs can confirm an expectation exactly when some returned row was not observed before. */
  lemma OnlyNewRowsConfirm(t: Tests, r: Result)
    ensures (exists matched :: Outcome(t, r, matched) == S.Confirmed) <==> !(r.rows <= t.observed)
    ensures r.rows != {} && r.rows <= t.observed && r.complete ==> forall matched :: Outcome(t, r, matched) == S.TestStatus.Refuted
  {
    if !(r.rows <= t.observed) {
      var x :| x in r.rows && x !in t.observed;
      assert x in r.rows - t.observed;
      assert Outcome(t, r, true) == S.Confirmed;
    }
  }

  /**
   * Two expectations answered by the same rows, complete and new at first: the first is CONFIRMED, and the second is
   * REFUTED although the evaluator finds it satisfied too.
   */
  lemma SecondAnswerRefutes(t: Tests, i: nat, j: nat, r: Result, hasControls: bool)
    requires i < |t.expectations| && j < |t.expectations| && i != j && r.complete && !(r.rows <= t.observed)
    ensures var u := Record(Record(t, i, r, true, hasControls), j, r, true, hasControls);
      u.expectations[i].status == S.Confirmed && u.expectations[j].status == S.TestStatus.Refuted
  {
    var x :| x in r.rows && x !in t.observed;
    assert x in r.rows - t.observed;
  }

  // ------------------------------------------------------------ verdicts along a run

  /** What was recorded, and every verdict reached, after the first n turns still stands at the end. */
  ghost predicate StandsFrom(set_: Setting, s: State, turns: seq<Turn>, n: nat)
    requires IsState(set_, s) && IsSound(s.tests) && n <= |turns|
  {
    Extends(EndOf(set_, s, turns[..n]).tests, EndOf(set_, s, turns).tests)
  }

  lemma {:induction false} VerdictsStand(set_: Setting, s: State, turns: seq<Turn>, n: nat)
    requires IsState(set_, s) && IsSound(s.tests) && IsRun(set_, s, turns) && n <= |turns|
    ensures IsRun(set_, s, turns[..n]) && StandsFrom(set_, s, turns, n)
    decreases |turns|
  {
    if n == 0 {
      RunKeepsVerdicts(set_, s, turns);
    } else {
      StepIsState(set_, s, turns[0]);
      StepKeepsTests(set_, s, turns[0]);
      VerdictsStand(set_, Step(set_, s, turns[0]), turns[1..], n - 1);
      assert turns[..n][1..] == turns[1..][..n - 1];
    }
  }
}
