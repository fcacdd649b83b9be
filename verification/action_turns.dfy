/** What each action of the loop does, in terms of what is recorded and of the turn's inputs. */
module ActionTurns {
  import opened Text
  import opened ActionLoop
  import CaseGraphs
  import Claims
  import S = Stopping

  // ------------------------------------------------------------ the choice

  /** Some budget is used up, or the clock says so. */
  ghost predicate IsOver(l: S.Ledger, outside: bool) {
    || l.turn >= l.maxTurns || l.queries >= l.maxQueries || l.scanCells >= l.maxScanCells
    || (!l.tracked && l.llmCalls >= l.maxLlmCalls) || outside
  }

  /** A turn is counted before anything else, and may be the one that uses the budget up. */
  lemma TurnBegins(set_: Setting, s: State, t: Turn)
    requires IsState(set_, s)
    ensures var l := s.ledger.(turn := s.ledger.turn + 1);
      if IsOver(l, t.clock.atTurn) then Step(set_, s, t) == s.(turn := s.turn + 1, ledger := l, decision := Some(S.StopExhausted))
      else Step(set_, s, t) == Act(set_, Requeued(s.(turn := s.turn + 1, ledger := l)), t)
  {
  }

  /** The entity's cell waits to be explored, and no expectation is about to be tested for it. */
  ghost predicate WaitsForExpansion(s: State, entity: string) {
    && (exists c :: c in s.cover.cells && c.entity == Some(entity) && c.state == S.Unexplored)
    && forall e :: e in s.tests.expectations && e.entity == entity ==> e.status != S.Untested
  }

  lemma NeedsExpansionIs(s: State, c: S.Cell)
    requires c in s.cover.cells && c.entity.Some?
    ensures NeedsExpansion(s.tests.expectations, c) ==> WaitsForExpansion(s, c.entity.value)
    ensures c.state == S.Unexplored && WaitsForExpansion(s, c.entity.value) ==> NeedsExpansion(s.tests.expectations, c)
  {
  }

  /** The queue of a turn: what was queued, then each entity that waits for expansion and is not queued yet, once. */
  lemma QueueIs(s: State)
    ensures var queue := Requeued(s).cover.expand;
      && Requeued(s) == s.(cover := s.cover.(expand := queue)) && s.cover.expand <= queue
      && (forall x :: x in queue <==> x in s.cover.expand || WaitsForExpansion(s, x))
      && AddsOnce(s.cover.expand, queue)
  {
    RequeueAddsOnce(s.cover.cells, s.tests.expectations, s.cover.expand);
    var queue := Requeued(s).cover.expand;
    forall x | x in queue && x !in s.cover.expand ensures WaitsForExpansion(s, x) {
      var c :| c in s.cover.cells && NeedsExpansion(s.tests.expectations, c) && c.entity.value == x;
      NeedsExpansionIs(s, c);
    }
    forall x | WaitsForExpansion(s, x) ensures x in queue {
      var c :| c in s.cover.cells && c.entity == Some(x) && c.state == S.Unexplored;
      NeedsExpansionIs(s, c);
    }
  }

  /** What the longer list adds to the shorter is not repeated. */
  ghost predicate AddsOnce(queue: seq<string>, longer: seq<string>) {
    forall i, j :: |queue| <= i < |longer| && 0 <= j < i ==> longer[j] != longer[i]
  }

  lemma {:induction false} RequeueAddsOnce(cells: seq<S.Cell>, es: seq<Expectation>, queue: seq<string>)
    ensures AddsOnce(queue, Requeue(cells, es, queue))
  {
    if cells != [] {
      RequeueAddsOnce(cells[..|cells| - 1], es, queue);
    }
  }

  ghost predicate SomethingUntested(s: State) {
    exists e :: e in s.tests.expectations && e.status == S.Untested
  }

  ghost predicate SomeWildcardLeft(s: State) {
    exists c :: c in s.cover.cells && c.entity == None && c.state == S.Unexplored
  }

  ghost predicate CanPivot(s: State) {
    |s.cover.pivots| > 0 && s.cover.pivotsExecuted < 3
  }

  /** Untested expectations come first, then controls, expansions, sweeps, pivots and refinement; otherwise the loop stops. */
  ghost predicate IsChoice(s: State, t: Turn, a: Action) {
    var free := !IsOver(s.ledger, t.clock.atChoice);
    var tested := free && !SomethingUntested(s);
    var controlled := tested && |s.tests.pending| == 0;
    var expanded := controlled && |s.cover.expand| == 0;
    var swept := expanded && !SomeWildcardLeft(s);
    match a
    case TEST => free && SomethingUntested(s)
    case CONTROL => tested && |s.tests.pending| > 0
    case EXPAND => controlled && |s.cover.expand| > 0
    case DISCOVER => expanded && SomeWildcardLeft(s)
    case PIVOT => swept && CanPivot(s)
    case REFINE => swept && !CanPivot(s) && t.ambiguous
    case STOP => !free || (swept && !CanPivot(s) && !t.ambiguous)
  }

  lemma UntestedIs(es: seq<Expectation>)
    ensures FirstUntested(es) < |es| <==> exists e :: e in es && e.status == S.Untested
  {
    if e :| e in es && e.status == S.Untested {
      var i :| 0 <= i < |es| && es[i] == e;
    }
  }

  lemma WildcardIs(cells: seq<S.Cell>)
    ensures FirstCell(cells, None) < |cells| <==> exists c :: c in cells && c.entity == None && c.state == S.Unexplored
  {
    if c :| c in cells && c.entity == None && c.state == S.Unexplored {
      var i :| 0 <= i < |cells| && cells[i] == c;
    }
  }

  lemma ChoiceIs(s: State, t: Turn)
    ensures forall a :: ActionOf(s, t) == a <==> IsChoice(s, t, a)
  {
    UntestedIs(s.tests.expectations);
    WildcardIs(s.cover.cells);
  }

  // ------------------------------------------------------------ TEST

  /** The rows hold one that was not observed before, and a card minted from them satisfies the expectation. */
  ghost predicate Satisfies(tests: Tests, t: Turn) {
    t.matched && exists x :: x in t.result.rows && x !in tests.observed
  }

  /** What a result says about the expectation it was asked for. */
  ghost predicate IsVerdict(tests: Tests, t: Turn, status: S.TestStatus) {
    match status
    case Confirmed => Satisfies(tests, t)
    case Refuted => !Satisfies(tests, t) && t.result.complete && exists x :: x in t.result.rows
    case Inconclusive => !Satisfies(tests, t) && (t.result.complete ==> t.result.rows == {})
    case _ => false
  }

  lemma OutcomeIs(tests: Tests, t: Turn)
    ensures forall status :: Outcome(tests, t.result, t.matched) == status <==> IsVerdict(tests, t, status)
  {
    if x :| x in t.result.rows && x !in tests.observed {
      assert x in t.result.rows - tests.observed;
    }
    if t.result.rows != {} {
      var x :| x in t.result.rows;
    }
  }

  /** Only expectation i changes, and only its status. */
  ghost predicate OnlyDecides(es: seq<Expectation>, later: seq<Expectation>, i: nat, status: S.TestStatus) {
    && i < |es| == |later| && later[i] == es[i].(status := status)
    && forall j :: 0 <= j < |es| && j != i ==> later[j] == es[j]
  }

  /** The first untested expectation is tested, and its verdict, query, result and rows are recorded. */
  ghost predicate TestRecords(set_: Setting, s: State, t: Turn, i: nat, r: State) {
    && i < |s.tests.expectations| && s.tests.expectations[i].status == S.Untested
    && (forall j :: 0 <= j < i ==> s.tests.expectations[j].status != S.Untested)
    && r.turn == s.turn && r.discovers == s.discovers && r.decision == s.decision && r.tests.controls == s.tests.controls
    && if t.plan == NoPlan then
         && OnlyDecides(s.tests.expectations, r.tests.expectations, i, S.TestStatus.Untestable)
         && r == s.(tests := s.tests.(expectations := r.tests.expectations))
       else
         && (exists status :: IsVerdict(s.tests, t, status) && OnlyDecides(s.tests.expectations, r.tests.expectations, i, status))
         && r.tests.queries == s.tests.queries + [Targeted(i)] && r.tests.results == s.tests.results + [t.result]
         && (forall x :: x in r.tests.observed <==> x in s.tests.observed || x in t.result.rows)
         && r.tests.pending == s.tests.pending
            + (if t.result.complete && t.result.rows == {} && set_.hasControls then [Pending(i, t.result)] else [])
         && r.queryCount == s.queryCount + 1 && r.calls == s.calls + 1
         && r.ledger == s.ledger.(queries := s.ledger.queries + 1)
  }

  lemma TestIs(set_: Setting, s: State, t: Turn)
    requires set_.wildcard < |s.cover.cells| && FirstUntested(s.tests.expectations) < |s.tests.expectations|
    ensures TestRecords(set_, s, t, FirstUntested(s.tests.expectations), Test(set_, s, t))
  {
    var i := FirstUntested(s.tests.expectations);
    OutcomeIs(s.tests, t);
    if t.plan.Planned? {
      var status := Outcome(s.tests, t.result, t.matched);
      assert IsVerdict(s.tests, t, status) && OnlyDecides(s.tests.expectations, Test(set_, s, t).tests.expectations, i, status);
    }
  }

  /** The entity has a cell of its own. */
  ghost predicate HasCell(cells: seq<S.Cell>, entity: string) {
    exists i :: 0 <= i < |cells| && cells[i].entity == Some(entity)
  }

  lemma HasCellIs(cells: seq<S.Cell>, entity: string)
    ensures HasInstance(cells, entity) <==> HasCell(cells, entity)
  {
    if i :| 0 <= i < |cells| && cells[i].entity == Some(entity) {
      assert cells[i] in cells;
    }
  }

  lemma CellAdded(cells: seq<S.Cell>, host: string, entity: string)
    ensures HasCell(AddCell(cells, host), entity) <==> HasCell(cells, entity) || entity == host
    ensures HasCell(cells, host) ==> AddCell(cells, host) == cells
  {
    HasCellIs(cells, host);
    var r := AddCell(cells, host);
    if !HasInstance(cells, host) {
      assert r[|cells|].entity == Some(host);
      if i :| 0 <= i < |cells| && cells[i].entity == Some(entity) {
        assert r[i].entity == Some(entity);
      }
    }
  }

  /** Each host that has neither a cell nor a place in the queue gets both; nothing else changes. */
  lemma {:induction false} HostsAre(c: Coverage, hosts: seq<string>, x: string)
    ensures x in AddHosts(c, hosts).expand <==> x in c.expand || (x in hosts && !HasCell(c.cells, x))
    ensures HasCell(AddHosts(c, hosts).cells, x) <==> HasCell(c.cells, x) || (x in hosts && x !in c.expand)
    ensures c.expand <= AddHosts(c, hosts).expand
  {
    if hosts != [] {
      var rest, host := hosts[..|hosts| - 1], hosts[|hosts| - 1];
      assert hosts == rest + [host];
      HostsAre(c, rest, x);
      HostsAre(c, rest, host);
      var r := AddHosts(c, rest);
      HasCellIs(r.cells, host);
      CellAdded(r.cells, host, x);
    }
  }

  lemma {:induction false} CellsAre(cells: seq<S.Cell>, hosts: seq<string>, x: string)
    ensures HasCell(AddCells(cells, hosts), x) <==> HasCell(cells, x) || x in hosts
  {
    if hosts != [] {
      var rest, host := hosts[..|hosts| - 1], hosts[|hosts| - 1];
      assert hosts == rest + [host];
      CellsAre(cells, rest, x);
      CellAdded(AddCells(cells, rest), host, x);
    }
  }

  /** The list has room for one more candidate. */
  ghost predicate HasRoom(pivots: seq<string>, cap: Option<nat>) {
    cap == None || |pivots| < cap.value
  }

  /**
   * Candidates are appended from what was found, each once and none with a cell of its own; unless the list is full,
   * all of those are on it.
   */
  lemma {:induction false} PivotsAre(c: Coverage, found: seq<string>, cap: Option<nat>)
    ensures var r := AddPivots(c, found, cap).pivots;
      && c.pivots <= r && (forall i :: |c.pivots| <= i < |r| ==> r[i] in found && !HasCell(c.cells, r[i]) && r[i] !in r[..i])
      && (HasRoom(r, cap) ==> forall x :: x in found && !HasCell(c.cells, x) ==> x in r)
  {
    if found != [] {
      var rest, x := found[..|found| - 1], found[|found| - 1];
      assert found == rest + [x];
      PivotsAre(c, rest, cap);
      HasCellIs(c.cells, x);
      var before, r := AddPivots(c, rest, cap).pivots, AddPivots(c, found, cap).pivots;
      assert forall i :: 0 <= i < |before| ==> r[i] == before[i] && r[..i] == before[..i];
      assert |r| > |before| ==> r[..|before|] == before;
    }
  }

  /** What a test adds to the queue, the cells and the pivot candidates. */
  ghost predicate TestFinds(set_: Setting, s: State, t: Turn, entity: string, d: Coverage) {
    && d.pivotsExecuted == s.cover.pivotsExecuted && s.cover.pivots <= d.pivots && s.cover.expand <= d.expand
    && (forall x :: x in d.expand <==>
          || x in s.cover.expand
          || (t.result.rows != {} && x in t.hosts && !HasCell(s.cover.cells, x))
          || (x == entity && Satisfies(s.tests, t) && !set_.isDomain(entity)))
    && (forall x :: HasCell(d.cells, x) <==>
          HasCell(s.cover.cells, x) || (t.result.rows != {} && x in t.hosts && x !in s.cover.expand))
    && (forall x :: x in d.pivots ==> x in s.cover.pivots || (Satisfies(s.tests, t) && x in t.pivots && !HasCell(d.cells, x)))
    && (Satisfies(s.tests, t) && |d.pivots| < 3 ==> forall x :: x in t.pivots && !HasCell(d.cells, x) ==> x in d.pivots)
    && (|s.cover.pivots| <= 3 ==> |d.pivots| <= 3)
  }

  lemma MarkedHasCell(c: Coverage, i: nat, state: S.CellState, x: string)
    requires i < |c.cells|
    ensures HasCell(SetCell(c, i, state).cells, x) <==> HasCell(c.cells, x)
  {
    var cells := SetCell(c, i, state).cells;
    assert forall j :: 0 <= j < |cells| ==> cells[j].entity == c.cells[j].entity;
  }

  lemma SatisfiesIs(tests: Tests, t: Turn)
    ensures IsMatch(tests, t.result, t.matched) <==> Satisfies(tests, t)
    ensures Satisfies(tests, t) ==> t.result.rows != {}
  {
    if x :| x in t.result.rows && x !in tests.observed {
      assert x in t.result.rows - tests.observed;
    }
  }

  lemma SeenHosts(c: Coverage, hosts: seq<string>)
    ensures forall x :: x in AddHosts(c, hosts).expand <==> x in c.expand || (x in hosts && !HasCell(c.cells, x))
    ensures forall x :: HasCell(AddHosts(c, hosts).cells, x) <==> HasCell(c.cells, x) || (x in hosts && x !in c.expand)
    ensures c.expand <= AddHosts(c, hosts).expand
  {
    forall x
      ensures x in AddHosts(c, hosts).expand <==> x in c.expand || (x in hosts && !HasCell(c.cells, x))
      ensures HasCell(AddHosts(c, hosts).cells, x) <==> HasCell(c.cells, x) || (x in hosts && x !in c.expand)
    {
      HostsAre(c, hosts, x);
    }
    HostsAre(c, hosts, "");
  }

  lemma CoveredFinds(set_: Setting, s: State, t: Turn, i: nat, targeted: bool)
    requires i < |s.tests.expectations| && set_.wildcard < |s.cover.cells|
    ensures TestFinds(set_, s, t, s.tests.expectations[i].entity, Covered(set_, s.cover, s.tests, i, t, targeted))
  {
    var entity := s.tests.expectations[i].entity;
    var j := CellFor(set_, s.cover.cells, entity, targeted);
    var marked := SetCell(s.cover, j, StateFrom(t.result));
    forall x ensures HasCell(marked.cells, x) <==> HasCell(s.cover.cells, x) {
      MarkedHasCell(s.cover, j, StateFrom(t.result), x);
    }
    SatisfiesIs(s.tests, t);
    if t.result.rows != {} {
      SeenHosts(marked, t.hosts);
      var seen := AddHosts(marked, t.hosts);
      if Satisfies(s.tests, t) {
        var queued := if entity in seen.expand || set_.isDomain(entity) then seen else seen.(expand := seen.expand + [entity]);
        PivotsAre(queued, t.pivots, Some(MAX_PIVOTS));
        var r := AddPivots(queued, t.pivots, Some(MAX_PIVOTS)).pivots;
        forall x | x in r && x !in s.cover.pivots ensures x in t.pivots && !HasCell(queued.cells, x) {
          var n :| 0 <= n < |r| && r[n] == x;
        }
      }
    }
  }

  // ------------------------------------------------------------ CONTROL

  /** The controls show that the scope was healthy, that it held records, and that the predicate could be observed. */
  ghost predicate Licenses(run: ControlRun) {
    run.health.ok && run.anyRecord.ok && run.anyRecord.count >= 1 && run.observability.ok && run.observability.observable
  }

  /** The oldest waiting expectation is settled: REFUTED if its complete, empty result is licensed, or left INCONCLUSIVE. */
  ghost predicate ControlSettles(tests: Tests, run: ControlRun, r: Tests) {
    && |tests.pending| > 0
    && var p := tests.pending[0];
    && OnlyDecides(
         tests.expectations, r.expectations, p.expectation,
         if p.result.ok && p.result.complete && p.result.rows == {} && Licenses(run) then S.TestStatus.Refuted else S.Inconclusive)
    && r.pending == tests.pending[1..] && r.queries == tests.queries && r.results == tests.results && r.observed == tests.observed
    && r.controls == tests.controls + [ControlRun(p.expectation, run.health, run.anyRecord, run.observability)]
  }

  lemma ControlIs(tests: Tests, run: ControlRun)
    requires tests.pending != [] && tests.pending[0].expectation < |tests.expectations|
    ensures ControlSettles(tests, run, RunControls(tests, run))
  {
  }

  // ------------------------------------------------------------ what is minted

  ghost predicate IsIdTaken(es: seq<Expectation>, id: string) {
    exists i :: 0 <= i < |es| && es[i].id == id
  }

  /** The expectations grow by untested ones from the list: those whose ids are not taken, each id once. */
  ghost predicate Mints(es: seq<Expectation>, minted: seq<Expectation>, r: seq<Expectation>) {
    && es <= r
    && (forall i :: |es| <= i < |r| ==>
          IsMintedFrom(minted, r[i]) && !IsIdTaken(r[..i], r[i].id))
    && forall e :: e in minted ==> IsIdTaken(r, e.id)
  }

  lemma TakenIs(es: seq<Expectation>, id: string)
    ensures HasId(es, id) <==> IsIdTaken(es, id)
  {
    if i :| 0 <= i < |es| && es[i].id == id {
      assert es[i] in es;
    }
  }

  ghost predicate IsMintedFrom(minted: seq<Expectation>, x: Expectation) {
    exists e :: e in minted && x == e.(status := S.Untested)
  }

  lemma MintsOne(es: seq<Expectation>, rest: seq<Expectation>, x: Expectation, before: seq<Expectation>)
    requires Mints(es, rest, before)
    ensures Mints(es, rest + [x], AddExpectation(before, x))
  {
    var r, all := AddExpectation(before, x), rest + [x];
    TakenIs(before, x.id);
    forall i | |es| <= i < |r| ensures IsMintedFrom(all, r[i]) && !IsIdTaken(r[..i], r[i].id) {
      if i < |before| {
        assert r[i] == before[i] && r[..i] == before[..i] && IsMintedFrom(rest, before[i]);
        var e :| e in rest && before[i] == e.(status := S.Untested);
        assert e in all;
      } else {
        assert r[..i] == before && x in all;
      }
    }
    forall e | e in all ensures IsIdTaken(r, e.id) {
      if e in rest {
        TakenStays(before, r, e.id);
      } else if IsIdTaken(before, x.id) {
        TakenStays(before, r, x.id);
      } else {
        assert r[|before|].id == x.id;
      }
    }
  }

  lemma TakenStays(es: seq<Expectation>, more: seq<Expectation>, id: string)
    requires es <= more && IsIdTaken(es, id)
    ensures IsIdTaken(more, id)
  {
    var i :| 0 <= i < |es| && es[i].id == id;
    assert more[i].id == id;
  }

  lemma {:induction false} MintsAre(es: seq<Expectation>, minted: seq<Expectation>)
    ensures Mints(es, minted, AddExpectations(es, minted))
  {
    if minted != [] {
      var rest, x := minted[..|minted| - 1], minted[|minted| - 1];
      assert minted == rest + [x];
      MintsAre(es, rest);
      MintsOne(es, rest, x, AddExpectations(es, rest));
    }
  }

  // ------------------------------------------------------------ EXPAND

  /** The requirement can be shown by the entity, and none of the expectations predicts it for the entity. */
  ghost predicate IsMissing(m: Minting, es: seq<Expectation>, entity: string, r: Requirement) {
    && r in m.requirements && m.fits(entity, r.evidence)
    && forall i :: 0 <= i < |es| ==> es[i].entity != entity || es[i].text != r.text
  }

  /** The list that an expansion mints from: an expectation for each missing requirement. */
  ghost predicate ListsMissing(m: Minting, es: seq<Expectation>, entity: string, minted: seq<Expectation>) {
    forall e :: e in minted <==>
      exists r :: IsMissing(m, es, entity, r) && e == Expectation("exp-expand-" + r.id + "-" + m.nameOf(entity), entity, r.text, S.Untested)
  }

  lemma OpenIs(m: Minting, es: seq<Expectation>, r: Requirement, entity: string)
    requires r in m.requirements
    ensures IsOpen(m, es, r, entity) <==> IsMissing(m, es, entity, r)
  {
    if i :| 0 <= i < |es| && es[i].entity == entity && es[i].text == r.text {
      assert es[i] in es;
    }
  }

  lemma MissingIs(m: Minting, es: seq<Expectation>, entity: string)
    ensures ListsMissing(m, es, entity, MintsFor(m, m.requirements, es, entity))
  {
    forall r | r in m.requirements ensures IsOpen(m, es, r, entity) <==> IsMissing(m, es, entity, r) {
      OpenIs(m, es, r, entity);
    }
  }

  /** The first in the queue is expanded: its missing requirements are minted, and nothing else changes. */
  ghost predicate ExpandMints(set_: Setting, s: State, r: State) {
    && |s.cover.expand| > 0 && r.cover == s.cover.(expand := s.cover.expand[1..])
    && r == s.(cover := r.cover, tests := s.tests.(expectations := r.tests.expectations))
    && exists minted :: ListsMissing(set_.minting, s.tests.expectations, s.cover.expand[0], minted)
                        && Mints(s.tests.expectations, minted, r.tests.expectations)
  }

  lemma ExpandIs(set_: Setting, s: State)
    requires s.cover.expand != []
    ensures ExpandMints(set_, s, Expand(set_, s))
  {
    var minted := MintsFor(set_.minting, set_.minting.requirements, s.tests.expectations, s.cover.expand[0]);
    MissingIs(set_.minting, s.tests.expectations, s.cover.expand[0]);
    MintsAre(s.tests.expectations, minted);
  }

  // ------------------------------------------------------------ DISCOVER

  /** The sweep is repeated once, with the scan, if another operation found nothing. */
  ghost predicate IsSweepOf(t: Turn, r: Result, calls: nat) {
    if t.result.rows == {} && t.retry != None then r == t.retry.value && calls == 2 else r == t.result && calls == 1
  }

  /** What a sweep records and finds. An empty one finds nothing. */
  ghost predicate SweepRecords(s: State, t: Turn, r: State) {
    exists result, calls :: IsSweepOf(t, result, calls) && SweepHas(s, t, r, result, calls)
  }

  ghost predicate SweepHas(s: State, t: Turn, r: State, result: Result, calls: nat) {
    && r.turn == s.turn && r.decision == s.decision
    && r.calls == s.calls + calls && r.discovers == s.discovers + 1 && r.queryCount == s.queryCount + 1
    && r.ledger == s.ledger.(queries := s.ledger.queries + 1, scanCells := s.ledger.scanCells + 1)
    && r.tests.queries == s.tests.queries + [Sweep] && r.tests.results == s.tests.results + [result]
    && r.tests.pending == s.tests.pending && r.tests.controls == s.tests.controls
    && (forall x :: x in r.tests.observed <==> x in s.tests.observed || x in result.rows)
    && Mints(s.tests.expectations, if result.rows == {} then [] else t.minted, r.tests.expectations)
    && r.cover.expand == s.cover.expand && r.cover.pivotsExecuted == s.cover.pivotsExecuted && s.cover.pivots <= r.cover.pivots
    && (forall x :: x in r.cover.pivots <==> x in s.cover.pivots || (result.rows != {} && x in t.pivots && !HasCell(s.cover.cells, x)))
    && forall x :: HasCell(r.cover.cells, x) <==> HasCell(s.cover.cells, x) || (result.rows != {} && x in t.hosts)
  }

  lemma SweptFinds(c: Coverage, i: nat, r: Result, t: Turn)
    requires i < |c.cells|
    ensures var d := SweptCover(c, i, r, t);
      && d.expand == c.expand && d.pivotsExecuted == c.pivotsExecuted && c.pivots <= d.pivots
      && (forall x :: x in d.pivots <==> x in c.pivots || (r.rows != {} && x in t.pivots && !HasCell(c.cells, x)))
      && forall x :: HasCell(d.cells, x) <==> HasCell(c.cells, x) || (r.rows != {} && x in t.hosts)
  {
    var marked := SetCell(c, i, StateFrom(r));
    forall x ensures HasCell(marked.cells, x) <==> HasCell(c.cells, x) {
      MarkedHasCell(c, i, StateFrom(r), x);
    }
    if r.rows != {} {
      var pivoted := AddPivots(marked, t.pivots, None);
      PivotsAre(marked, t.pivots, None);
      forall x ensures HasCell(AddCells(marked.cells, t.hosts), x) <==> HasCell(c.cells, x) || x in t.hosts {
        CellsAre(marked.cells, t.hosts, x);
      }
      forall x ensures x in pivoted.pivots <==> x in c.pivots || (x in t.pivots && !HasCell(c.cells, x)) {
        if x in pivoted.pivots && x !in c.pivots {
          var n :| 0 <= n < |pivoted.pivots| && pivoted.pivots[n] == x;
        }
      }
    }
  }

  lemma DiscoverIs(s: State, t: Turn)
    requires FirstCell(s.cover.cells, None) < |s.cover.cells|
    ensures SweepRecords(s, t, Discover(s, t))
  {
    var result := SweepResult(t);
    var calls := if t.result.rows == {} && t.retry != None then 2 else 1;
    assert IsSweepOf(t, result, calls);
    SweptFinds(s.cover, FirstCell(s.cover.cells, None), result, t);
    MintsAre(s.tests.expectations, if result.rows == {} then [] else t.minted);
    assert AddExpectations(s.tests.expectations, []) == s.tests.expectations;
    assert SweepHas(s, t, Discover(s, t), result, calls);
  }

  // ------------------------------------------------------------ PIVOT, REFINE, STOP

  /** The first candidate gets a cell of its own, and the turn's expectations, for that entity. */
  ghost predicate PivotMints(s: State, t: Turn, r: State) {
    && |s.cover.pivots| > 0
    && var x := s.cover.pivots[0];
    && r == s.(cover := r.cover, tests := s.tests.(expectations := r.tests.expectations))
    && r.cover == s.cover.(pivots := s.cover.pivots[1..], pivotsExecuted := s.cover.pivotsExecuted + 1, cells := r.cover.cells)
    && r.cover.cells == (if HasCell(s.cover.cells, x) then s.cover.cells else s.cover.cells + [S.Cell(Some(x), S.Unexplored)])
    && Mints(s.tests.expectations, seq(|t.minted|, i requires 0 <= i < |t.minted| => t.minted[i].(entity := x)), r.tests.expectations)
  }

  lemma PivotIs(s: State, t: Turn)
    requires s.cover.pivots != []
    ensures PivotMints(s, t, Pivot(s, t))
  {
    var x := s.cover.pivots[0];
    HasCellIs(s.cover.cells, x);
    MintsAre(s.tests.expectations, Retarget(t.minted, x));
    assert Retarget(t.minted, x) == seq(|t.minted|, i requires 0 <= i < |t.minted| => t.minted[i].(entity := x));
  }

  /** A refinement costs a call at most. */
  lemma RefineIs(s: State, t: Turn)
    ensures Refine(s, t) == (if t.countsCall then s.(ledger := s.ledger.(llmCalls := s.ledger.llmCalls + 1)) else s)
  {
  }

  /** What the evaluation sees: the turn's hypotheses, claims and graph, and what the loop has recorded. */
  ghost predicate IsSeen(s: State, t: Turn, v: S.Situation) {
    && v.hypotheses == t.view.hypotheses && v.claims == t.view.claims && v.graph == t.view.graph
    && v.identityBlocked == t.view.identityBlocked && v.cells == s.cover.cells
    && (v.exhausted <==> IsOver(s.ledger, t.clock.atStop))
    && (v.incomplete <==> exists k :: 0 <= k < |s.tests.results| && !s.tests.results[k].complete)
    && |v.expectations| == |s.tests.expectations|
    && forall i :: 0 <= i < |v.expectations| ==> v.expectations[i] == s.tests.expectations[i].status
  }

  /** Stopping sets the decision that the evaluation reaches on what it sees. */
  lemma StopIs(s: State, t: Turn)
    ensures IsSeen(s, t, SituationOf(s, t)) && Stop(s, t) == s.(decision := Stop(s, t).decision)
    ensures Stop(s, t).decision.Some? && S.IsDecision(SituationOf(s, t), Stop(s, t).decision.value)
  {
    S.EvaluationDecides(SituationOf(s, t));
    if k :| 0 <= k < |s.tests.results| && !s.tests.results[k].complete {
      assert s.tests.results[k] in s.tests.results;
    }
  }

  // ------------------------------------------------------------ one turn

  /** What the chosen action does. */
  ghost predicate ActsAs(set_: Setting, s: State, t: Turn, r: State) {
    && (IsChoice(s, t, TEST) ==> exists i: nat ::
          TestRecords(set_, s, t, i, r) && (t.plan.Planned? ==> TestFinds(set_, s, t, s.tests.expectations[i].entity, r.cover)))
    && (IsChoice(s, t, CONTROL) ==> ControlSettles(s.tests, t.run, r.tests) && r == s.(tests := r.tests))
    && (IsChoice(s, t, EXPAND) ==> ExpandMints(set_, s, r))
    && (IsChoice(s, t, DISCOVER) ==> SweepRecords(s, t, r))
    && (IsChoice(s, t, PIVOT) ==> PivotMints(s, t, r))
    && (IsChoice(s, t, REFINE) ==> r == if t.countsCall then s.(ledger := s.ledger.(llmCalls := s.ledger.llmCalls + 1)) else s)
    && (IsChoice(s, t, STOP) ==>
          r.decision.Some? && r == s.(decision := r.decision) && exists v :: IsSeen(s, t, v) && S.IsDecision(v, r.decision.value))
  }

  lemma ActIs(set_: Setting, s: State, t: Turn)
    requires IsState(set_, s)
    ensures ActsAs(set_, s, t, Act(set_, s, t))
  {
    ChoiceIs(s, t);
    match ActionOf(s, t)
    case TEST =>
      var i := FirstUntested(s.tests.expectations);
      TestIs(set_, s, t);
      if t.plan.Planned? {
        CoveredFinds(set_, s, t, i, t.plan.targeted);
      }
    case CONTROL =>
      assert s.tests.pending[0] in s.tests.pending;
      ControlIs(s.tests, t.run);
    case EXPAND => ExpandIs(set_, s);
    case DISCOVER => DiscoverIs(s, t);
    case PIVOT => PivotIs(s, t);
    case REFINE => RefineIs(s, t);
    case STOP => StopIs(s, t);
  }
}
