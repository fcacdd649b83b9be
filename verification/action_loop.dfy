/**
 * The central action loop: TEST, CONTROL, EXPAND, DISCOVER, PIVOT, REFINE, STOP, in that priority.
 * What the provider, the evaluator, the planner and the clock answer is an input of each turn.
 */
module ActionLoop {
  import opened Text
  import S = Stopping

  // ------------------------------------------------------------ what is recorded of the tests

  /** `rows`: the observation ids of the returned rows. */
  datatype Result = Result(ok: bool, complete: bool, rows: set<string>)

  /** What a recorded query was made for: an expectation, a broad sweep, or something before the loop. */
  datatype Query = Targeted(expectation: nat) | Sweep | Earlier

  /** `text`: what it predicts, the description of the requirement it was minted for. */
  datatype Expectation = Expectation(id: string, entity: string, text: string, status: S.TestStatus)

  /** `observable`: the predicate control says outright that the predicate is observable. */
  datatype Control = Control(ok: bool, count: int, observable: bool)

  /** The health, any-record and predicate controls run for an expectation. */
  datatype ControlRun = ControlRun(expectation: nat, health: Control, anyRecord: Control, observability: Control)

  /** An expectation that waits for its controls, with the result that queued it. */
  datatype Pending = Pending(expectation: nat, result: Result)

  datatype Tests = Tests(
    expectations: seq<Expectation>, queries: seq<Query>, results: seq<Result>,
    pending: seq<Pending>, controls: seq<ControlRun>, observed: set<string>)

  /** Does an empty outcome license a valid negative? */
  predicate IsLicensed(r: Result, run: ControlRun) {
    && r.ok && r.complete && r.rows == {}
    && run.health.ok && run.anyRecord.ok && run.anyRecord.count > 0
    && run.observability.ok && run.observability.observable
  }

  predicate HasId(es: seq<Expectation>, id: string) {
    exists e :: e in es && e.id == id
  }

  /** Appends a new untested expectation, unless its id is taken. */
  function AddExpectation(es: seq<Expectation>, e: Expectation): seq<Expectation> {
    if HasId(es, e.id) then es else es + [e.(status := S.Untested)]
  }

  function AddExpectations(es: seq<Expectation>, minted: seq<Expectation>): (r: seq<Expectation>)
    ensures es <= r && forall i :: |es| <= i < |r| ==> r[i].status == S.Untested
  {
    if minted == [] then es
    else AddExpectation(AddExpectations(es, minted[..|minted| - 1]), minted[|minted| - 1])
  }

  /** An evidence requirement of the hunt. They do not change while it runs. */
  datatype Requirement = Requirement(id: string, text: string, evidence: string)

  predicate IsDescribed(es: seq<Expectation>, entity: string, text: string) {
    exists e :: e in es && e.entity == entity && e.text == text
  }

  /** `fits`: the entity can show this kind of evidence. `nameOf`: the name of an entity in an id. */
  datatype Minting = Minting(requirements: seq<Requirement>, fits: (string, string) -> bool, nameOf: string -> string)

  function ExpectationFor(m: Minting, r: Requirement, entity: string): Expectation {
    Expectation("exp-expand-" + r.id + "-" + m.nameOf(entity), entity, r.text, S.Untested)
  }

  /** The requirement fits the entity, and no expectation describes it for the entity yet. */
  predicate IsOpen(m: Minting, es: seq<Expectation>, r: Requirement, entity: string) {
    !IsDescribed(es, entity, r.text) && m.fits(entity, r.evidence)
  }

  /** What an expansion of the entity mints: one expectation for each requirement that is open for it. */
  function MintsFor(m: Minting, reqs: seq<Requirement>, es: seq<Expectation>, entity: string): (minted: seq<Expectation>)
    ensures forall e :: e in minted <==> exists r :: r in reqs && IsOpen(m, es, r, entity) && e == ExpectationFor(m, r, entity)
  {
    if reqs == [] then []
    else
      var before := MintsFor(m, reqs[..|reqs| - 1], es, entity);
      var r := reqs[|reqs| - 1];
      assert reqs == reqs[..|reqs| - 1] + [r];
      if IsOpen(m, es, r, entity) then before + [ExpectationFor(m, r, entity)] else before
  }

  function Retarget(minted: seq<Expectation>, entity: string): seq<Expectation> {
    seq(|minted|, i requires 0 <= i < |minted| => minted[i].(entity := entity))
  }

  function SetStatus(es: seq<Expectation>, i: nat, status: S.TestStatus): seq<Expectation>
    requires i < |es|
  {
    es[i := es[i].(status := status)]
  }

  /** The first expectation that is still untested. */
  function FirstUntested(es: seq<Expectation>): (i: nat)
    ensures i <= |es| && (i < |es| ==> es[i].status == S.Untested)
    ensures forall k :: 0 <= k < i ==> es[k].status != S.Untested
  {
    if es == [] then 0
    else
      var i := FirstUntested(es[..|es| - 1]);
      if i < |es| - 1 then i else if es[|es| - 1].status == S.Untested then |es| - 1 else |es|
  }

  // ------------------------------------------------------------ coverage

  datatype Coverage = Coverage(cells: seq<S.Cell>, expand: seq<string>, pivots: seq<string>, pivotsExecuted: nat)

  predicate HasInstance(cells: seq<S.Cell>, entity: string) {
    exists c :: c in cells && c.entity == Some(entity)
  }

  function AddCell(cells: seq<S.Cell>, entity: string): seq<S.Cell> {
    if HasInstance(cells, entity) then cells else cells + [S.Cell(Some(entity), S.Unexplored)]
  }

  function AddCells(cells: seq<S.Cell>, hosts: seq<string>): (r: seq<S.Cell>)
    ensures cells <= r && forall i :: |cells| <= i < |r| ==> r[i].entity.Some? && r[i].state == S.Unexplored
  {
    if hosts == [] then cells else AddCell(AddCells(cells, hosts[..|hosts| - 1]), hosts[|hosts| - 1])
  }

  function AddHost(c: Coverage, host: string): Coverage {
    if host in c.expand || HasInstance(c.cells, host) then c
    else c.(expand := c.expand + [host], cells := AddCell(c.cells, host))
  }

  /** Hosts seen in a result, each with a cell and a place in the queue unless it has one already. */
  function AddHosts(c: Coverage, hosts: seq<string>): (r: Coverage)
    ensures c.cells <= r.cells && forall i :: |c.cells| <= i < |r.cells| ==> r.cells[i].entity.Some? && r.cells[i].state == S.Unexplored
    ensures r.pivots == c.pivots && r.pivotsExecuted == c.pivotsExecuted
  {
    if hosts == [] then c else AddHost(AddHosts(c, hosts[..|hosts| - 1]), hosts[|hosts| - 1])
  }

  /** Appends the entities that are neither candidates nor cells; with a cap, stops at the cap. */
  function AddPivots(c: Coverage, found: seq<string>, cap: Option<nat>): (r: Coverage)
    ensures r == c.(pivots := r.pivots) && c.pivots <= r.pivots
    ensures cap.Some? && |c.pivots| <= cap.value ==> |r.pivots| <= cap.value
  {
    if found == [] then c
    else
      var r := AddPivots(c, found[..|found| - 1], cap);
      var x := found[|found| - 1];
      if (cap.Some? && |r.pivots| >= cap.value) || x in r.pivots || HasInstance(c.cells, x) then r
      else r.(pivots := r.pivots + [x])
  }

  predicate HasActive(es: seq<Expectation>, entity: string) {
    exists e :: e in es && e.entity == entity && e.status == S.Untested
  }

  predicate NeedsExpansion(es: seq<Expectation>, c: S.Cell) {
    c.entity.Some? && c.state == S.Unexplored && !HasActive(es, c.entity.value)
  }

  /** Every unexplored instance cell without an untested expectation is queued for expansion again. */
  function Requeue(cells: seq<S.Cell>, es: seq<Expectation>, queue: seq<string>): (r: seq<string>)
    ensures queue <= r
    ensures forall c :: c in cells && NeedsExpansion(es, c) ==> c.entity.value in r
    ensures forall x :: x in r ==> x in queue || exists c :: c in cells && NeedsExpansion(es, c) && c.entity.value == x
  {
    if cells == [] then queue
    else
      var r := Requeue(cells[..|cells| - 1], es, queue);
      var c := cells[|cells| - 1];
      if NeedsExpansion(es, c) && c.entity.value !in r then r + [c.entity.value] else r
  }

  function StateFrom(r: Result): S.CellState {
    if !r.ok then S.Unqueryable else if r.complete then S.Explored else S.Partial
  }

  /** The first cell of an entity; no entity means an unexplored wildcard cell. */
  function FirstCell(cells: seq<S.Cell>, entity: Option<string>): (i: nat)
    ensures i <= |cells|
    ensures i < |cells| ==> cells[i].entity == entity && (entity == None ==> cells[i].state == S.Unexplored)
    ensures forall k :: 0 <= k < i ==> !(cells[k].entity == entity && (entity == None ==> cells[k].state == S.Unexplored))
  {
    if cells == [] then 0
    else
      var i := FirstCell(cells[..|cells| - 1], entity);
      var c := cells[|cells| - 1];
      if i < |cells| - 1 then i
      else if c.entity == entity && (entity == None ==> c.state == S.Unexplored) then |cells| - 1
      else |cells|
  }

  function SetCell(c: Coverage, i: nat, state: S.CellState): Coverage
    requires i < |c.cells|
  {
    c.(cells := c.cells[i := c.cells[i].(state := state)])
  }

  // ------------------------------------------------------------ state and inputs

  /** `hasControls`: the adapter offers the controls. `wildcard`: the index of the loop's own wildcard cell. */
  datatype Setting = Setting(hasControls: bool, isDomain: string -> bool, wildcard: nat, minting: Minting)

  const MAX_PIVOTS: nat := 3

  /** `calls`: provider calls so far. `discovers`: sweeps so far. */
  datatype State = State(
    ledger: S.Ledger, turn: int, queryCount: int, calls: nat, discovers: nat,
    tests: Tests, cover: Coverage, decision: Option<S.Decision>)

  datatype PlanOutcome = NoPlan | Planned(targeted: bool)

  datatype Clock = Clock(atTurn: bool, atChoice: bool, atStop: bool)

  /**
   * One turn's inputs. `clock`: run time or external tracker exhausted at the turn's start, at the choice and
   * at the stopping evaluation. `ambiguous`: some card matches no expectation and can be sent for refinement.
   * `retry`: the sweep's operation is not the scan, so that an empty result is retried with it.
   * `matched`: some new card satisfies the expectation. `hosts`, `pivots`: entities read off the rows. `minted`: the
   * expectations of a sweep or a pivot.
   * `view`: hypotheses, claims and graph as the stopping evaluation finds them.
   */
  datatype Turn = Turn(
    clock: Clock, ambiguous: bool, plan: PlanOutcome, result: Result, retry: Option<Result>, matched: bool,
    hosts: seq<string>, pivots: seq<string>, minted: seq<Expectation>, run: ControlRun, countsCall: bool, view: S.Situation)

  /** Budgets never come back: once the clock is exhausted it stays so. */
  predicate IsTurn(t: Turn) {
    (t.clock.atTurn ==> t.clock.atChoice) && (t.clock.atChoice ==> t.clock.atStop)
  }

  // ------------------------------------------------------------ the choice

  datatype Action = TEST | CONTROL | EXPAND | DISCOVER | PIVOT | REFINE | STOP

  /** The first action, in the order of priority, that has something to do. */
  function Choose(exhausted: bool, untested: bool, pending: bool, expand: bool, discover: bool, pivot: bool, ambiguous: bool): Action {
    if exhausted then STOP
    else if untested then TEST
    else if pending then CONTROL
    else if expand then EXPAND
    else if discover then DISCOVER
    else if pivot then PIVOT
    else if ambiguous then REFINE
    else STOP
  }

  function Begin(s: State): State {
    s.(turn := s.turn + 1, ledger := s.ledger.(turn := s.ledger.turn + 1))
  }

  function Requeued(s: State): State {
    s.(cover := s.cover.(expand := Requeue(s.cover.cells, s.tests.expectations, s.cover.expand)))
  }

  /** What a turn does once its queue is filled. */
  function ActionOf(s: State, t: Turn): Action {
    Choose(
      S.IsExhausted(s.ledger, t.clock.atChoice),
      FirstUntested(s.tests.expectations) < |s.tests.expectations|,
      s.tests.pending != [],
      s.cover.expand != [],
      FirstCell(s.cover.cells, None) < |s.cover.cells|,
      s.cover.pivots != [] && s.cover.pivotsExecuted < MAX_PIVOTS,
      t.ambiguous)
  }

  // ------------------------------------------------------------ TEST

  /** Only a row that was not observed before makes a card that can satisfy an expectation. */
  predicate IsMatch(tests: Tests, r: Result, matched: bool) {
    matched && r.rows - tests.observed != {}
  }

  function Outcome(tests: Tests, r: Result, matched: bool): S.TestStatus {
    if r.rows == {} then S.Inconclusive
    else if IsMatch(tests, r, matched) then S.Confirmed
    else if r.complete then S.TestStatus.Refuted
    else S.Inconclusive
  }

  function Record(tests: Tests, i: nat, r: Result, matched: bool, hasControls: bool): Tests
    requires i < |tests.expectations|
  {
    Tests(
      SetStatus(tests.expectations, i, Outcome(tests, r, matched)),
      tests.queries + [Targeted(i)],
      tests.results + [r],
      if r.rows == {} && r.complete && hasControls then tests.pending + [Pending(i, r)] else tests.pending,
      tests.controls,
      tests.observed + r.rows)
  }

  /** A targeted plan covers the entity's first cell if it has one; any other plan covers the wildcard. */
  function CellFor(set_: Setting, cells: seq<S.Cell>, entity: string, targeted: bool): nat {
    var i := FirstCell(cells, Some(entity));
    if targeted && i < |cells| then i else set_.wildcard
  }

  function Covered(set_: Setting, c: Coverage, tests: Tests, i: nat, t: Turn, targeted: bool): Coverage
    requires i < |tests.expectations| && set_.wildcard < |c.cells|
  {
    var entity := tests.expectations[i].entity;
    var marked := SetCell(c, CellFor(set_, c.cells, entity, targeted), StateFrom(t.result));
    if t.result.rows == {} then marked
    else
      var seen := AddHosts(marked, t.hosts);
      if !IsMatch(tests, t.result, t.matched) then seen
      else
        var queued := if entity in seen.expand || set_.isDomain(entity) then seen else seen.(expand := seen.expand + [entity]);
        AddPivots(queued, t.pivots, Some(MAX_PIVOTS))
  }

  function Test(set_: Setting, s: State, t: Turn): State
    requires set_.wildcard < |s.cover.cells| && FirstUntested(s.tests.expectations) < |s.tests.expectations|
  {
    var i := FirstUntested(s.tests.expectations);
    match t.plan
    case NoPlan => s.(tests := s.tests.(expectations := SetStatus(s.tests.expectations, i, S.TestStatus.Untestable)))
    case Planned(targeted) =>
      State(s.ledger.(queries := s.ledger.queries + 1), s.turn, s.queryCount + 1, s.calls + 1, s.discovers,
            Record(s.tests, i, t.result, t.matched, set_.hasControls),
            Covered(set_, s.cover, s.tests, i, t, targeted), s.decision)
  }

  // ------------------------------------------------------------ the other actions

  /** Runs the controls of the expectation that has waited longest. */
  function RunControls(tests: Tests, run: ControlRun): Tests
    requires tests.pending != [] && tests.pending[0].expectation < |tests.expectations|
  {
    var p := tests.pending[0];
    var r := run.(expectation := p.expectation);
    tests.(
      pending := tests.pending[1..],
      controls := tests.controls + [r],
      expectations := SetStatus(tests.expectations, p.expectation,
                                if IsLicensed(p.result, r) then S.TestStatus.Refuted else S.Inconclusive))
  }

  function Minted(tests: Tests, minted: seq<Expectation>): Tests {
    tests.(expectations := AddExpectations(tests.expectations, minted))
  }

  function Expand(set_: Setting, s: State): State
    requires s.cover.expand != []
  {
    var m := set_.minting;
    s.(cover := s.cover.(expand := s.cover.expand[1..]),
       tests := Minted(s.tests, MintsFor(m, m.requirements, s.tests.expectations, s.cover.expand[0])))
  }

  predicate IsRetried(t: Turn) {
    t.result.rows == {} && t.retry.Some?
  }

  function SweepResult(t: Turn): Result {
    if IsRetried(t) then t.retry.value else t.result
  }

  function Swept(tests: Tests, r: Result, minted: seq<Expectation>): Tests {
    var recorded := tests.(queries := tests.queries + [Sweep], results := tests.results + [r], observed := tests.observed + r.rows);
    if r.rows == {} then recorded else Minted(recorded, minted)
  }

  function SweptCover(c: Coverage, i: nat, r: Result, t: Turn): Coverage
    requires i < |c.cells|
  {
    var marked := SetCell(c, i, StateFrom(r));
    if r.rows == {} then marked
    else
      var pivoted := AddPivots(marked, t.pivots, None);
      pivoted.(cells := AddCells(pivoted.cells, t.hosts))
  }

  function Discover(s: State, t: Turn): State
    requires FirstCell(s.cover.cells, None) < |s.cover.cells|
  {
    var r := SweepResult(t);
    State(s.ledger.(queries := s.ledger.queries + 1, scanCells := s.ledger.scanCells + 1),
          s.turn, s.queryCount + 1, s.calls + (if IsRetried(t) then 2 else 1), s.discovers + 1,
          Swept(s.tests, r, t.minted), SweptCover(s.cover, FirstCell(s.cover.cells, None), r, t), s.decision)
  }

  function Pivot(s: State, t: Turn): State
    requires s.cover.pivots != []
  {
    var entity := s.cover.pivots[0];
    s.(tests := Minted(s.tests, Retarget(t.minted, entity)),
       cover := s.cover.(pivots := s.cover.pivots[1..], pivotsExecuted := s.cover.pivotsExecuted + 1,
                         cells := AddCell(s.cover.cells, entity)))
  }

  function Refine(s: State, t: Turn): State {
    if t.countsCall then s.(ledger := s.ledger.(llmCalls := s.ledger.llmCalls + 1)) else s
  }

  function Statuses(es: seq<Expectation>): (r: seq<S.TestStatus>)
    ensures |r| == |es| && forall i :: 0 <= i < |es| ==> r[i] == es[i].status
  {
    seq(|es|, i requires 0 <= i < |es| => es[i].status)
  }

  predicate SomeIncomplete(results: seq<Result>) {
    exists r :: r in results && !r.complete
  }

  /** What the stopping evaluation looks at. */
  function SituationOf(s: State, t: Turn): S.Situation {
    t.view.(exhausted := S.IsExhausted(s.ledger, t.clock.atStop), incomplete := SomeIncomplete(s.tests.results),
            expectations := Statuses(s.tests.expectations), cells := s.cover.cells)
  }

  function Stop(s: State, t: Turn): State {
    s.(decision := Some(S.Evaluate(SituationOf(s, t)).0))
  }

  // ------------------------------------------------------------ one turn

  /** What every state of the loop has: the loop's wildcard cell, and waiting expectations that exist. */
  predicate IsState(set_: Setting, s: State) {
    && set_.wildcard < |s.cover.cells| && s.cover.cells[set_.wildcard].entity == None
    && forall p :: p in s.tests.pending ==> p.expectation < |s.tests.expectations|
  }

  function Act(set_: Setting, s: State, t: Turn): State
    requires IsState(set_, s)
  {
    match ActionOf(s, t)
    case TEST => Test(set_, s, t)
    case CONTROL => s.(tests := RunControls(s.tests, t.run))
    case EXPAND => Expand(set_, s)
    case DISCOVER => Discover(s, t)
    case PIVOT => Pivot(s, t)
    case REFINE => Refine(s, t)
    case STOP => Stop(s, t)
  }

  function Step(set_: Setting, s: State, t: Turn): State
    requires IsState(set_, s)
  {
    var begun := Begin(s);
    if S.IsExhausted(begun.ledger, t.clock.atTurn) then begun.(decision := Some(S.StopExhausted))
    else Act(set_, Requeued(begun), t)
  }
}
