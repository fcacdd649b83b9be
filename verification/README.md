# Verified model of the hunting engine

This project models the deterministic core of an autonomous threat-hunting engine and proves what
its results rest on. The engine turns a request into a plan of claims, compiles the plan into an
evidence graph, asks a data provider for observations, lets a deterministic verifier accept or reject
each relation, and stops with a verdict. Around that core it splits large source catalogues into
bounded batches, relaxes search queries, batches observations for a language model, and binds
variables to candidate values. The thread through all of it is one promise: nothing is reported as
proved unless it was proved, and nothing unexamined is silently dropped.

Provider results, verifier verdicts, language-model replies, scores, plans of the query planner and
the clock are inputs of the model, quantified over in every theorem. Everything else follows the code
branch by branch.

## What is proved

- **Claim plans.** The depth-first check with its shared `visited` and `in_stack` sets accepts a plan
  exactly when the dependency relation is acyclic, for every order in which the ids are visited.
- **Proven paths.** The recursive path search with one shared `visited` set returns a simple chain of
  KNOWN edges exactly when a chain exists, although failed branches leave their marks behind.
- **Compiled cases.** The builder is proved against a specification that covers colliding identifiers. In every
  compiled case any two maximal runs of promotions have the same length and end with the same statuses, and they verify
  every edge if and only if no ring of references in the plan leaves all its objects open. With distinct derived keys
  there is no ring: the graph is a forest ordered by claim position, some unproven edge is always actionable, and a
  maximal run takes one promotion per claim. Over every run, what is KNOWN or VERIFIED is grounded in the request. What
  each node and edge carries is stated in terms of the claim's own text.
- **Claim-graph loop.** At the end of every run from a fresh case, whatever the provider and the verifier answer and
  however the run ends, a claim is SUPPORTED if and only if its own edge is VERIFIED and reports back to it, on a chain of
  VERIFIED edges from the request. A resolved hunt has a mandatory claim SUPPORTED if and only if the builder gave it an
  edge that reports back to it; with distinct keys and ids without surrounding white space that is every mandatory claim.
  The object of a SUPPORTED claim has the value that the accepting turn reported, and its proof names both ends.
  Conversely, when every attempt is accepted such a hunt resolves after exactly one turn per claim and one more, with
  every claim SUPPORTED.
- **Stopping.** For every situation each decision is reached if and only if its condition on statuses, claims, results,
  cells and edges holds; the conditions exclude each other.
- **Action loop.** Over every run of TEST, CONTROL, EXPAND, DISCOVER, PIVOT, REFINE and STOP, a REFUTED
  expectation rests on its one recorded, complete query, licensed by controls if that came back empty;
  what was decided after any turn stands at the end; every cell that is marked rests on a recorded result of its kind;
  queries, results and ledger stay in step and within budget; a hunt
  without a claim plan ends STOP_RESOLVED only over complete results and explored instance cells. An idle hunt mints
  something to test in turn, or spins until its budget ends, and which of the two is decided by its state.
- **Batches and frontier.** Batching keeps every field of every source and meets exact bounds; the
  five-stage frontier accounts for every source.
- **Search terms.** At every level the groups that are asked for hold exactly the anchors and terms of the spec that the
  level allows.
- **Epochs, candidates, relaxation, constraint text.** Conservation over every interleaving, permanence of
  ambiguity, and exact conditions for the round trips and relaxations that hold only sometimes.

## Where the code and its documentation disagree

The model follows the code.

- A resolved hunt can leave a mandatory claim UNPROVEN. The builder derives edge names from claim ids, and two ids
  such as `a.b` and `a b` derive the same name, although the plan passes every check: the later claim takes the
  edge over, the earlier one has none, and the hunt ends STOP_RESOLVED through the verified graph. An id with
  surrounding white space is lost in the same way, because it is stripped before it is looked up
  (`src/hunting/engine.py:2122`); the plan parser strips ids, so that takes a plan built in code.
  `ClaimSoundness.ResolvedRuns` gives the exact condition, `LostClaims.UnownedClaimStaysUnproven` a resolving run
  for every claim that fails it, and `CollidingPlans.LoseClaim` takes the two ids above from the text of the plan to
  the decision.
- The comment at `src/hunting/controller/controller.py:274` says that a hunt cannot be resolved while an
  instance cell is unexplored; the guard covers one of the branches that resolve.
  `Stopping.UnexploredCellsGuardOneBranch` says exactly when the others do. In the action loop without a
  claim plan the promise holds after all, because such a cell keeps the loop from stopping.
- Relaxation level 3 is documented as the most relaxed (`src/hunting/contracts/hunt_spec.py:217`). It
  drops alternatives, so it is wider only under the condition in `Relaxation.LevelThreeRelaxes`.
- Re-normalising the text `k:exists` gives `k=exists`, which queries read as an equality
  (`ConstraintText.ExistsComesBackEqual`, `ConstraintText.MeaningKept`).
- The abduction epoch drops an empty reply without recording anything, so the same batch is sent again and
  no cap counts it (`Abduction.EpochMovesUnlessEmpty`, `Abduction.EmptyReplyIsRepeated`).
- A complete query whose rows were all observed before refutes its expectation, whatever the rows say
  (`ActionSoundness.OnlyNewRowsConfirm`); so of two expectations that the same rows satisfy the second is REFUTED
  (`ActionSoundness.SecondAnswerRefutes`).
- The docstring of auto-binding asks for exactly one candidate with a proof; the code also refuses when any
  other candidate is merely uncontradicted (`Bindings.AutobindIs`). A binding stays selected after the set
  becomes ambiguous (`Bindings.BindingOutlivesAmbiguity`).
- `InvestigationGraph.extract_subgraph_for_claim` never consults the claim id: its evidence is the claim's own exactly
  when every VERIFIED edge carries that id (`CaseGraphs.ProjectionIsOwn`).
- A `claim:` reference makes an edge wait exactly when it names an earlier claim whose object value is open
  (`CaseTheory.ReferenceHoldsBack`); a reference to a later claim becomes a literal KNOWN entity.
- Expansion can repeat without end: once only unexplored instance cells are left for which no requirement can be minted,
  the loop spins until a budget is exhausted, whatever the world answers (`ActionProgress.ExpansionCanSpin`).
- Two claims with colliding ids, the second of which names the first as its subject, pass every check and compile to one
  edge that starts and ends at the same open node: nothing can be tested (`CollidingPlans.SelfReferenceIsStuck`).
  `CaseTheory.DeadlockFreedom` gives the exact condition on the plan.
- A card limit below one makes the first prompt batch empty (`Frontier.PromptsAreBounded`).

## Files

| file | subject |
|---|---|
| `text.dfy` | string operations |
| `claim.dfy` | claim plans and the cycle check |
| `relation_graph.dfy` | the path search |
| `case_graph.dfy`, `case_runs.dfy`, `case_builder.dfy`, `case_theory.dfy`, `case_contents.dfy` | the evidence graph, runs of promotions on any graph, its compilation, the theory of compiled graphs, and what their nodes and edges carry |
| `planner.dfy`, `stopping.dfy` | action choice, budgets and stopping decision |
| `claim_loop.dfy`, `claim_soundness.dfy`, `claim_values.dfy`, `claim_records.dfy`, `claim_completeness.dfy`, `lost_claims.dfy`, `claim_hunt.dfy`, `colliding_plans.dfy` | the claim-graph loop as a transition system, soundness, the values it finds, what it records and how it ends, completeness, the claims it loses, the loop over mutable state, and two concrete plans |
| `action_loop.dfy`, `action_turns.dfy`, `action_coverage.dfy`, `action_soundness.dfy`, `action_progress.dfy`, `action_hunt.dfy` | the same for the action loop: its turns, what backs the state of a cell, soundness, and when expansion gets it further |
| `batching.dfy`, `frontier.dfy` | batches and the source frontier |
| `abduction.dfy`, `bindings.dfy`, `relaxation.dfy`, `search_terms.dfy`, `constraint_text.dfy` | epochs, candidate sets, query relaxation, the terms it asks for, constraint text |

Run `dafny verify dfyconfig.toml` in this directory.

## Model

| member | source | states |
|---|---|---|
| Claims.CycleValidator.Dfs | src/hunting/contracts/claim.py:340-351 | raises only with a real cycle through the named node; otherwise every node below is finished and the stack is restored |
| Claims.CycleValidator.Validate | src/hunting/contracts/claim.py:335-355 | returns normally if and only if the relation is acyclic, with a topological order as certificate, for any order of the ids; a raised node lies on a cycle |
| Claims.TopologicalOrderExcludesCycles | src/hunting/contracts/claim.py:335-355 | a topological order covering every node with dependencies rules out cycles |
| Claims.StackClosesCycle | src/hunting/contracts/claim.py:341-344 | meeting a node still on the stack closes a cycle |
| Claims.AdjacencyIsDependency | src/hunting/contracts/claim.py:336 | cycles of the adjacency table are exactly circular dependencies between claims |
| Claims.CheckOrigins | src/hunting/contracts/claim.py:311-323 | passes if and only if ids are distinct and every claim that is no prerequisite originates from the request |
| Claims.CheckDependencies | src/hunting/contracts/claim.py:325-331 | passes if and only if every dependency names a claim of the plan |
| Claims.CheckText | src/hunting/contracts/claim.py:302-309 | passes if and only if no text of the plan is blank and the objective holds no provider syntax |
| Claims.AcceptPlan | src/hunting/contracts/claim.py:302-333 | a plan is accepted if and only if its texts are readable, ids distinct, origins and dependencies known and no dependency circular; a cyclic verdict names a claim on a circular walk |
| RelationPaths.RelationGraph.AddNode | src/hunting/contracts/investigation_model.py:156-158 | replaces the node with that id in its place or appends it; every other node stays as it was |
| RelationPaths.RelationGraph.AddEdge | src/hunting/contracts/investigation_model.py:160-162 | replaces the edge with that id in its place or appends it; every other edge stays as it was |
| RelationPaths.RelationGraph.Search | src/hunting/contracts/investigation_model.py:181-198 | the recursion: a result is a simple KNOWN chain through unvisited nodes; a failure has closed what it visited off from the end |
| RelationPaths.RelationGraph.FindPath | src/hunting/contracts/investigation_model.py:181-198 | a simple chain of stored KNOWN edges from start to end is returned if and only if some KNOWN chain exists, targets missing from the nodes included |
| RelationPaths.ClosedSetTrapsChains | src/hunting/contracts/investigation_model.py:181-198 | no chain leaves a set that its KNOWN edges stay in |
| RelationPaths.RelationGraph.CriterionMet | src/hunting/controller/action_planner.py:211-223 | a criterion is met if and only if its two entity types have different first KNOWN nodes joined by KNOWN edges; one naming the same type at both ends never is |
| RelationPaths.RelationGraph.AllCriteriaMet | src/hunting/controller/action_planner.py:209-225 | all are met if and only if every criterion that names a path is proven |
| CaseGraphs.InvestigationGraph.GetUnprovenEdges | src/hunting/contracts/case_graph.py:445-456 | exactly the unproven edges, or exactly the actionable ones, each once |
| CaseGraphs.InvestigationGraph.PromoteEdgeToVerified | src/hunting/contracts/case_graph.py:458-483 | verifies the edge, makes its target KNOWN and stores the proof; an unknown edge is reported and changes nothing |
| CaseGraphs.InvestigationGraph.ApplyVerification | src/hunting/evidence/relation_verifier.py:1263-1280 | the new edges, proofs and nodes after an accepted verification |
| CaseGraphs.InvestigationGraph.ExtractSubgraph | src/hunting/contracts/case_graph.py:485-498 | every node, exactly the VERIFIED edges, every proof, and exactly the observations that proofs cite |
| CaseGraphs.ProjectionIsOwn | src/hunting/contracts/case_graph.py:485-498 | the projection is the claim's own evidence if and only if every VERIFIED edge carries that claim id |
| CaseGraphs.ProjectionIsCited | src/hunting/contracts/case_graph.py:489-497 | each observation it cites is carried by one of its edges |
| CaseGraphs.PromoteKeeps | src/hunting/contracts/case_graph.py:458-483 | a promotion keeps the skeleton of the graph and takes nothing back |
| CaseGraphs.RunKeeps | src/hunting/contracts/case_graph.py:458-483 | over a whole run no node or edge is lost and nothing KNOWN or VERIFIED is taken back |
| CaseGraphs.PromoteProves | src/hunting/contracts/case_graph.py:470-483 | after a promotion every VERIFIED edge again has exactly one proof whose citations it carries |
| CaseGraphs.PromoteGrounds | src/hunting/contracts/case_graph.py:458-483 | a promotion from a KNOWN source keeps provenance |
| CaseGraphs.RunHasProvenance | src/hunting/contracts/case_graph.py:458-483 | over every run of known-source promotions: KNOWN nodes and VERIFIED edges are grounded in the start, and each VERIFIED edge has exactly one proof within its citations |
| CaseBuilder.KeysInjective | src/hunting/contracts/case_graph.py:622-667 | derived edge and node names identify the derived key, and subject and object names never coincide |
| Text.SafeIdIs | src/hunting/contracts/case_graph.py:614-615 | a derived key is the text between its first and its last letter, digit or underscore, with a dash for every other character, or a fixed word if there is none |
| Text.StripIs | src/hunting/contracts/case_graph.py:589 | stripping drops exactly the white space at both ends |
| Text.SpaceIs | src/hunting/contracts/case_graph.py:589 | white space is what Python counts as such |
| Text.FoldIs | src/hunting/contracts/case_graph.py:592 | folding makes upper-case ASCII letters lower-case and keeps every other character |
| Text.ContainsIs | src/hunting/engine.py:2195 | one text contains another if and only if it stands at some place in it |
| CaseBuilder.ReadContract | src/hunting/contracts/case_graph.py:648-658 | collects fact kinds, required roles and the completeness demand of all requirements and the acceptance rule |
| CaseBuilder.LinkNodes | src/hunting/contracts/case_graph.py:617-646 | finds or creates the source node: the object of the last earlier claim with the referenced id, else the first subject node with the key |
| CaseBuilder.LinkDraft | src/hunting/contracts/case_graph.py:617-731 | one claim's contribution to nodes, edges and the table of object nodes |
| CaseBuilder.BuildCase | src/hunting/contracts/case_graph.py:568-750 | compiles any plan, colliding identifiers included: which claim decides each edge and node, the unknowns and the goals; the specification it meets fixes what they carry by the lemmas that follow |
| CaseContents.SubjectCarries | src/hunting/contracts/case_graph.py:585-633 | in the compiled graph the first claim with a derived key, among those that refer to no earlier claim, decides the subject node: it is KNOWN, its value is the stripped text after the first colon of the subject and its kind the alias of the folded word before it, or the whole text and entity if there is no colon |
| CaseContents.NameIsUnique | src/hunting/contracts/case_graph.py:585-589 | a subject text names one word and one value |
| CaseContents.ObjectCarries | src/hunting/contracts/case_graph.py:635-646 | the last claim with a derived key decides the object node: KNOWN with its value, or open with the value `?` if it gives none; the kind is that of the value type |
| CaseContents.EdgeCarries | src/hunting/contracts/case_graph.py:648-710 | and the edge: it carries the id of that claim, leads to its object node, starts at the object node of the last earlier claim that it refers to or else at its own subject node, is unproven, and asks for exactly the fact kinds, roles and completeness of the requirements and the acceptance rule |
| CaseContents.NamesAre | src/hunting/contracts/case_graph.py:617-710 | every stored edge and node is that of some claim, subject nodes only of claims that refer to no earlier one |
| CaseContents.ReferenceIs | src/hunting/contracts/case_graph.py:585-620 | a claim refers to another if and only if its subject names the word claim; the value is the id referred to |
| CaseContents.ListsAre | src/hunting/contracts/case_graph.py:712-731 | the unknowns are exactly the objects without a value, and there is one goal per claim, in order |
| CaseTheory.OneEdgePerClaim | src/hunting/contracts/case_graph.py:617-731 | one edge per claim if and only if the derived keys are distinct |
| CaseTheory.DeciderStands | src/hunting/contracts/case_graph.py:617-731 | the last claim with a key decides the edge and the object node of every claim with that key |
| CaseTheory.EveryDraftStands | src/hunting/contracts/case_graph.py:617-731 | with distinct keys every claim decides its own edge, object node and subject node |
| CaseTheory.InDegrees | src/hunting/contracts/case_graph.py:617-731 | object nodes have in-degree one, subject nodes in-degree zero, colliding keys included |
| CaseTheory.ContinuesLater | src/hunting/contracts/case_graph.py:617-646 | an edge starts where another ends if and only if the claim that decides it refers to an earlier claim with the key of the other; with distinct keys it belongs to a later claim |
| CaseTheory.CyclesAreRings | src/hunting/contracts/case_graph.py:617-731 | the compiled graph has a cycle if and only if the plan has a ring of references between claims with equal keys |
| CaseTheory.CompiledIsAcyclic | src/hunting/contracts/case_graph.py:617-731 | with distinct keys it has none, whatever references the plan holds |
| CaseRuns.FindActionable | src/hunting/contracts/case_graph.py:445-456 | on any graph whose open sources are fed by edges, following sources back from an unproven edge leads to an actionable edge or into a ring of edges that wait for each other |
| CaseRuns.NeverStuckIs | src/hunting/contracts/case_graph.py:445-483 | some edge is actionable in every later state with an unproven edge if and only if no such ring exists |
| CaseTheory.DeadlockFreedom | src/hunting/contracts/case_graph.py:445-456 | a compiled case always has an actionable edge while one is unproven, if and only if no reference ring of its plan leaves all its objects open; distinct keys are enough |
| CaseTheory.ReferenceHoldsBack | src/hunting/contracts/case_graph.py:618-646 | an edge is actionable from the start if and only if the claim that decides it names no earlier claim, or one whose object node is given; colliding keys included |
| CaseTheory.ForwardReferenceIsActionable | src/hunting/contracts/case_graph.py:618-633 | a claim that decides its edge and refers to no earlier claim is actionable from the start, a forward reference included |
| CaseRuns.RunConsumes | src/hunting/contracts/case_graph.py:458-483 | on any graph a run uses up exactly the edges it names, each once |
| CaseRuns.MaximalRunsComplete | src/hunting/contracts/case_graph.py:445-483 | a run that cannot go on leaves nothing unproven if and only if no ring is blocked at its start |
| CaseTheory.CompiledRunsComplete | src/hunting/contracts/case_graph.py:445-483 | for a compiled case: it has verified every edge if and only if the plan has no deadlock |
| CaseTheory.CompleteRunsAre | src/hunting/contracts/case_graph.py:445-483 | then every node is KNOWN too, with exactly one promotion per edge |
| CaseTheory.MaximalRunsComplete | src/hunting/contracts/case_graph.py:445-483 | with distinct keys that is exactly one promotion per claim |
| CaseRuns.Confluence | src/hunting/contracts/case_graph.py:445-483 | on any graph two maximal runs, in any order, have the same length and end with the same statuses |
| CaseTheory.Confluence | src/hunting/contracts/case_graph.py:445-483 | so they do in every compiled case, colliding keys included |
| Planning.SelectOperation | src/hunting/capabilities/binder.py:135-200 | selects an eligible operation that is least by overlap, missing cost, cost and id, or none if none is eligible |
| Planning.SelectionIs | src/hunting/capabilities/binder.py:135-200 | selected is the operation that can test the edge and is preferred to every other one that can: greater overlap with the fact kinds, roles and target kind, then a known cost, the lower cost, the smaller id |
| Planning.SelectionIsUnique | src/hunting/capabilities/binder.py:199-200 | the selection is determined by the published operations |
| Planning.CostIsFound | src/hunting/capabilities/binder.py:250-261 | the cost comes from the first operation of that name the provider publishes |
| Planning.CreateCandidate | src/hunting/capabilities/binder.py:202-286 | the candidate operation of an actionable edge, or none if there is none |
| Planning.SelectAction | src/hunting/controller/action_planner.py:76-146 | chooses a candidate that is least by priority, missing cost, cost and edge id, or halts when there is no candidate |
| Planning.PlanIs | src/hunting/controller/action_planner.py:76-146 | the plan tests the edge that comes before every other one that can be tested, prerequisites first, then a known cost, the lower cost, the smaller edge id; it halts if and only if none can be tested |
| Planning.PlanIsUnique | src/hunting/controller/action_planner.py:89-98 | the choice does not depend on the order of the stored edges |
| Planning.PlanIgnoresOperationOrder | src/hunting/capabilities/binder.py:146-200 | publishing the same operations in another order changes neither edge nor operation |
| Planning.SelectionExists | src/hunting/capabilities/binder.py:135-200 | the published operations always have a selection |
| Planning.PlanExists | src/hunting/controller/action_planner.py:76-146 | every graph has a plan that the planner may return |
| Stopping.EvaluateStopping | src/hunting/controller/controller.py:162-364 | computes the decision and the hypothesis statuses of the specification, hypothesis by hypothesis; which they are is stated by the lemmas that follow |
| Stopping.EvaluationDecides | src/hunting/controller/controller.py:180-311 | for every situation and every decision, the evaluation returns it if and only if its condition on statuses, claims, results, cells, expectations and edges holds: STOP_RESOLVED if the claims settle it, or nothing is open and an unweakened hypothesis is SUPPORTED with all expectations concluded and no instance cell unexplored, or an unblocked graph is VERIFIED throughout; STOP_REFUTED if all mandatory claims are REFUTED, or no hypothesis is SUPPORTED, one is REFUTED and nothing is open; likewise for each of the others |
| Stopping.DecisionIsUnique | src/hunting/controller/controller.py:180-311 | the conditions exclude each other, so every situation has one decision |
| Stopping.OutcomesAre | src/hunting/controller/controller.py:312-352 | the status that each hypothesis has after the evaluation, from its required relations and the statuses of the edges |
| Stopping.ConcludeEach | src/hunting/controller/controller.py:312-352 | the status that a finished graph gives each hypothesis |
| Stopping.UnexploredCellsGuardOneBranch | src/hunting/controller/controller.py:180-311 | with an unexplored instance cell the decision is STOP_RESOLVED if and only if the claims settle it or an unblocked, fully VERIFIED graph does |
| Stopping.SupportIsEarned | src/hunting/controller/controller.py:199-352 | exactly when a hypothesis is SUPPORTED after the evaluation: if every edge is VERIFIED or REFUTED and the graph decides, it is no benign baseline, its required relations are VERIFIED and its mechanism is not uncorroborated; otherwise it was SUPPORTED before, on an unbroken chain if the evaluation looks at the chains |
| ClaimLoop.VerifiedKeepsGraph | src/hunting/engine.py:2098-2128 | an accepted attempt keeps provenance, proofs and fresh evidence |
| ClaimLoop.RejectedKeepsGraph | src/hunting/engine.py:2098-2118 | a rejected attempt, which only replaces citations, keeps them too |
| ClaimLoop.VerifiedKeepsClaims | src/hunting/engine.py:2120-2128 | after an accepted attempt SUPPORTED and VERIFIED still agree for every claim, and the others are UNPROVEN |
| ClaimLoop.RejectedKeepsClaims | src/hunting/engine.py:2178-2187 | after a rejected attempt SUPPORTED and VERIFIED still agree for every claim |
| ClaimSoundness.StepKeeps | src/hunting/engine.py:1955-2241 | whatever the provider, verifier and clock answer and whatever is decided, a turn keeps the agreement of SUPPORTED claims and VERIFIED edges and the graph invariant |
| ClaimSoundness.ResolutionHasTwoReasons | src/hunting/controller/controller.py:180-364 | in such a hunt STOP_RESOLVED means all mandatory claims SUPPORTED or every edge VERIFIED |
| ClaimSoundness.RunHolds | src/hunting/engine.py:1954-2244 | the invariants hold after every run |
| ClaimSoundness.SupportedMeansProved | src/hunting/engine.py:1954-2244 | at the end of every run, however it ends, a claim is SUPPORTED if and only if its own edge is VERIFIED and reports back to it, and then on a grounded chain; VERIFIED edges rest on disjoint non-empty observations; unless an attempt was rejected every other claim is UNPROVEN |
| ClaimValues.VerifiedIsReported | src/hunting/engine.py:2098-2128 | at the end of every run an edge that a turn of it verified still has what that turn reported: the non-empty reported value, or else the value it had, in its object node; a proof with its own source and target, the values they had and that value; and the new observations of the attempt as citations |
| ClaimValues.FreshIsReported | src/hunting/evidence/relation_verifier.py:1263-1280 | in a run from a fresh case that holds for every VERIFIED edge |
| ClaimValues.SupportedIsReported | src/hunting/engine.py:1954-2244 | and so for the edge of every SUPPORTED claim |
| ClaimRecords.RunRecords | src/hunting/engine.py:1973-2128 | after any number of turns the ledger holds exactly the rows of the attempts so far, a result is noted as incomplete if and only if one was, and the identity is resolved if and only if an attempt succeeded on an address |
| ClaimRecords.RunEnds | src/hunting/engine.py:1955-2241 | each turn: with a budget used up the hunt ends exhausted; without an edge to test it ends with the decision and the statuses that the stopping rules give for what is recorded; a failed attempt marks its claim UNKNOWN after a complete result and INCONCLUSIVE otherwise and ends the hunt with the decision of its target kind; only a successful one goes on |
| ClaimSoundness.ResolvedRuns | src/hunting/engine.py:1954-2244 | after STOP_RESOLVED a mandatory claim is SUPPORTED if and only if some edge reports back to it, else still UNPROVEN |
| ClaimSoundness.TrimmedOwnership | src/hunting/engine.py:2122-2123 | among trimmed distinct ids a claim owns its edge if and only if no later claim derives the same key |
| ClaimSoundness.EndToEndSoundness | src/hunting/engine.py:1954-2244 | with distinct keys and trimmed ids every mandatory claim of a resolved hunt is SUPPORTED on a grounded VERIFIED chain |
| ClaimSoundness.RunIsBounded | src/hunting/engine.py:1955-1971 | at most one turn per unproven edge plus one, within the turn budget; queries and ledger stay in step and never overshoot |
| ClaimSoundness.StepProgresses | src/hunting/engine.py:1955-2014 | a turn that lets the hunt go on leaves fewer unproven edges |
| ClaimCompleteness.UnreferencedNeverStuck | src/hunting/contracts/case_graph.py:617-731 | without claim references some edge is actionable while any is unproven, even if keys collide |
| ClaimCompleteness.AcceptedHuntResolves | src/hunting/engine.py:1954-2244 | from a ready case with every attempt accepted the hunt ends after exactly one turn per edge and one more, STOP_RESOLVED |
| ClaimCompleteness.AcceptedRunExists | src/hunting/engine.py:1954-2244 | such a run exists |
| ClaimCompleteness.OwnedClaimSupported | src/hunting/engine.py:1954-2244 | after a full accepted run every claim that an edge reports back to is SUPPORTED, optional ones too |
| ClaimCompleteness.EveryClaimSupported | src/hunting/engine.py:1954-2244 | with distinct keys, after one accepted turn per claim and one more, every claim with a trimmed id is SUPPORTED |
| ClaimCompleteness.FallbackBinds | src/hunting/capabilities/binder.py:57-133 | a mapping that names an operation for every edge can test every actionable relation, whatever operations are published |
| LostClaims.UnownedClaimStaysUnproven | src/hunting/engine.py:2120-2128 | for every ready plan and every mandatory claim without an edge that reports back, some run ends STOP_RESOLVED and leaves it UNPROVEN |
| LostClaims.CollidingClaimStaysUnproven | src/hunting/contracts/case_graph.py:614-667 | in particular the earlier of two claims whose trimmed ids derive one key |
| LostClaims.PaddedClaimStaysUnproven | src/hunting/engine.py:2122-2125 | and a claim whose id has white space around it |
| LostClaims.UnreferencedIsReady | src/hunting/contracts/case_graph.py:617-731 | a plan without claim references is ready, colliding keys included |
| CollidingPlans.DotAndBlankCollide | src/hunting/contracts/case_graph.py:614-615 | the ids `a.b` and `a b` are trimmed and different and derive one key |
| CollidingPlans.TwoClaimsAreValid | src/hunting/contracts/claim.py:311-333 | a plan of two claims with these ids passes the checks on ids, origins and dependencies, whatever the second is about |
| CollidingPlans.LoseClaim | src/hunting/engine.py:1938-2244 | a plan of two such claims, from its text to the decision: accepted, every attempt successful, STOP_RESOLVED, the first claim UNPROVEN |
| CollidingPlans.SelfReferenceIsStuck | src/hunting/contracts/case_graph.py:617-731 | if the second names the first as its subject, the case is one edge that nothing can ever make actionable |
| ClaimHunting.ClaimHunt.TestEdge | src/hunting/engine.py:1973-2241 | one attempt on an edge, field by field, is the specified step |
| ClaimHunting.ClaimHunt.TakeTurn | src/hunting/engine.py:1955-1973 | one iteration performs a legal move of the specification |
| ClaimHunting.ClaimHunt.Run | src/hunting/engine.py:1954-2244 | the loop performs exactly a legal run on the world's inputs in turn and ends with a decision |
| ClaimHunting.ResolvedIsSettled | src/hunting/engine.py:1954-2244 | a run from a fresh case that ends STOP_RESOLVED leaves exactly the owned mandatory claims SUPPORTED and the others UNPROVEN |
| ClaimHunting.HuntPlan | src/hunting/engine.py:1938-2244 | compiling any validated plan and running the loop, entered only with an edge to test, ends with a decision; whatever the world answers and whatever is decided, a claim is SUPPORTED if and only if its own edge is VERIFIED on a grounded chain, and then the object node, the proof and the citations are what the accepting turn reported; every turn ends as the stopping rules say; evidence is fresh, a resolved hunt is settled, turns and queries are bounded; a world that accepts everything resolves |
| ActionLoop.FirstUntested | src/hunting/engine.py:2254-2296 | finds the first untested expectation |
| ActionLoop.Requeue | src/hunting/engine.py:2258-2266 | keeps the queue and adds exactly the unexplored instance cells without an untested expectation |
| ActionLoop.AddPivots | src/hunting/engine.py:2535-2597 | only appends pivot candidates, and never beyond the cap |
| ActionLoop.AddExpectations | src/hunting/controller/controller.py:62-65 | keeps the stored expectations and appends untested ones only |
| ActionTurns.TurnBegins | src/hunting/engine.py:2246-2252 | a turn is counted first; if that uses a budget up the hunt ends exhausted and nothing else changes |
| ActionTurns.QueueIs | src/hunting/engine.py:2258-2266 | then exactly the entities that wait for expansion and are not queued yet are queued, each once |
| ActionTurns.ChoiceIs | src/hunting/controller/controller.py:128-160 | an action is chosen if and only if its condition holds: untested expectations, then waiting controls, expansions, wildcard cells, pivots within the cap, refinement, and stopping if none is left or a budget is used up |
| ActionTurns.ActIs | src/hunting/engine.py:2294-3054 | what the chosen action records, from the inputs of the turn: the verdict of a test and what it finds, when controls refute, which expectation an expansion mints for each open requirement, the sweep with its retry, the pivot, and the decision of the stopping rules on what the loop has recorded |
| ActionSoundness.RecordIsBacked | src/hunting/engine.py:2393-2636 | after a TEST every verdict is backed by the record and every expectation was asked for at most once |
| ActionSoundness.RecordKeepsQueue | src/hunting/engine.py:2623-2627 | queued controls refer to distinct INCONCLUSIVE expectations with complete empty results |
| ActionSoundness.ControlsAreSound | src/hunting/engine.py:2645-2666 | running controls keeps the records sound and refutes only with a license |
| ActionSoundness.SweptIsSound | src/hunting/engine.py:2779-2800 | a sweep keeps the records sound |
| ActionSoundness.StepKeepsTests | src/hunting/engine.py:2246-3054 | any turn keeps the records sound, extends them, and leaves CONFIRMED and REFUTED as they are |
| ActionSoundness.RefutationIsEarned | src/hunting/engine.py:2296-2672 | over every run a REFUTED expectation rests on its only query, complete, and licensed if it came back empty |
| ActionSoundness.RunKeepsVerdicts | src/hunting/engine.py:2246-3054 | over every run records are sound and no verdict that stood at its start is taken back |
| ActionSoundness.VerdictsStand | src/hunting/engine.py:2246-3054 | whatever was recorded or decided for an expectation after the first n turns of a run, for any n, still stands at its end |
| ActionSoundness.RunIsAffordable | src/hunting/engine.py:2246-2294 | turns, queries, results and ledger stay in step, the query budget is never overshot, and a run fits the remaining turns |
| ActionSoundness.ActionsAreBounded | src/hunting/engine.py:2708-2967 | sweeps are at most the wildcard cells unexplored at the start, pivots at most three, provider calls at most recorded queries plus recorded scan cells |
| ActionSoundness.SweptCells | src/hunting/engine.py:2708-2808 | a sweep uses up exactly one unexplored wildcard cell |
| ActionCoverage.TestMarks | src/hunting/engine.py:2400-2413 | a test marks exactly one cell: the first of its entity if the plan is targeted and it has one, else the wildcard; EXPLORED after a complete result, PARTIAL after an incomplete one, UNQUERYABLE after a failed one |
| ActionCoverage.SweepMarks | src/hunting/engine.py:2795-2800 | a sweep so marks exactly the first unexplored wildcard |
| ActionCoverage.CoverageIsEarned | src/hunting/engine.py:2246-3054 | over every run each cell has the state it started with, or a recorded result of a query made for it backs the state: EXPLORED needs one that is complete, PARTIAL an incomplete one, UNQUERYABLE a failed one |
| ActionSoundness.UnexploredCellBlocks | src/hunting/engine.py:2258-2291 | with an unexplored instance cell and budget left the loop only tests, controls or expands |
| ActionSoundness.ResolvedMeansExplored | src/hunting/engine.py:2246-3058 | without a claim plan a run ends STOP_RESOLVED only with no unexplored instance cell, complete results and earned refutations, and with a verdict on every expectation or a case graph that is VERIFIED throughout |
| ActionSoundness.RefutedVerdictIsEarned | src/hunting/engine.py:2246-3058 | without a claim plan STOP_REFUTED needs every expectation settled, no waiting control, only complete results, and every refutation earned |
| ActionSoundness.OnlyNewRowsConfirm | src/hunting/engine.py:2438-2529 | an expectation can be CONFIRMED if and only if some row is new; a complete result of old rows refutes it |
| ActionSoundness.SecondAnswerRefutes | src/hunting/engine.py:2393-2529 | of two expectations that the same complete rows satisfy, the first tested is CONFIRMED and the second REFUTED |
| ActionProgress.ExpansionCanSpin | src/hunting/engine.py:2258-2294 | an idle hunt with nothing left to mint for any queued or unexplored entity never tests, sweeps, pivots or asks again, whatever the world answers, and ends if and only if a budget is exhausted |
| ActionProgress.ExpansionMints | src/hunting/engine.py:2674-2706 | otherwise the first queued entity with something to mint is reached after those before it, and its turn mints something to test |
| ActionProgress.SpentIs | src/hunting/engine.py:2258-2266 | one of the two is always the case |
| ActionProgress.ExpansionProgresses | src/hunting/engine.py:2674-2706 | an expansion changes the records if and only if some requirement fits the entity, is not described for it and has a free id, and then there is something to test |
| ActionProgress.ExpandedIsSpent | src/hunting/engine.py:2674-2706 | after an expansion nothing can be minted for that entity |
| ActionProgress.SpentStays | src/hunting/engine.py:2674-2706 | and never again, however the records grow |
| ActionHunting.ActionHunt.QueueUnexplored | src/hunting/engine.py:2258-2266 | the loop that fills the queue computes the specified queue |
| ActionHunting.ActionHunt.CoverResult | src/hunting/engine.py:2400-2597 | marks the covered cell as `ActionCoverage.TestMarks` says and collects hosts, expansion and pivot candidates as specified |
| ActionHunting.ActionHunt.RecordTest | src/hunting/engine.py:2393-2636 | records query and result and settles or queues the expectation as specified |
| ActionHunting.ActionHunt.ControlExpectation | src/hunting/engine.py:2645-2666 | runs the oldest queued controls and settles the expectation |
| ActionHunting.ActionHunt.MintAll | src/hunting/engine.py:2676-2706 | the loop over the requirements mints exactly those that are open for the entity |
| ActionHunting.ActionHunt.DiscoverPopulation | src/hunting/engine.py:2708-2963 | the sweep with its retry, the cell marked as `ActionCoverage.SweepMarks` says, pivots, cells and expectations, as specified |
| ActionHunting.ActionHunt.TakeTurn | src/hunting/engine.py:2246-3054 | one iteration is exactly the specified step |
| ActionHunting.ActionHunt.Run | src/hunting/engine.py:2246-3058 | the loop performs exactly a run of the specification on the world's inputs in turn and ends with a decision |
| ActionHunting.HuntTargets | src/hunting/engine.py:1907-3058 | entering and running the loop ends with a decision; whatever the world answers, refutations are earned, every cell that is marked is backed by a recorded result of its kind, what was recorded or decided after any turn stands at the end, and the budgets hold; without a claim plan STOP_RESOLVED and STOP_REFUTED are earned |
| Batching.SplitFields | src/hunting/capabilities/retriever.py:176-184 | a source's fragments are its fields in order, the limit at a time, or one empty fragment if it has none |
| Batching.Order | src/hunting/capabilities/retriever.py:149-174 | the sources sorted by score and id, each with a permutation of its fields sorted by match, name and id |
| Batching.SourcesAreOrdered | src/hunting/capabilities/retriever.py:149-150 | higher scores come first, and of two sources with one score the smaller id |
| Batching.FieldsAreOrdered | src/hunting/capabilities/retriever.py:166-172 | within a source matching fields come first, then the folded names and the ids in order |
| Batching.PackProfiles | src/hunting/capabilities/retriever.py:175-190 | the fragments packed in order into batches that are full except possibly the last |
| Batching.PackingCount | src/hunting/capabilities/retriever.py:175-190 | the number of batches is the number of fragments over the limit, rounded up |
| Batching.PackingIsUnique | src/hunting/capabilities/retriever.py:175-190 | the fragments and the limit determine the batches |
| Batching.BatchesKeepTags | src/hunting/capabilities/retriever.py:175-190 | concatenating the batches gives back every field with its source, in processing order |
| Batching.BatchingConserves | src/hunting/capabilities/retriever.py:142-194 | whatever the scores, every field of every source occurs in the batches as often as in the census |
| Batching.SourceIsRestored | src/hunting/capabilities/retriever.py:175-194 | the fragments with some id, read in batch order, give back exactly the ordered fields of the sources with that id, one source after the other |
| Batching.EverySourceIsScheduled | src/hunting/capabilities/retriever.py:177-190 | every source occurs in some batch, one without fields included |
| Batching.ExactBounds | src/hunting/capabilities/retriever.py:175-190 | fragments obey the field limit, and the number of batches is the least that holds all fragments |
| Batching.Batch | src/hunting/capabilities/retriever.py:131-224 | every named relation gets batches of all sources from its last requirement; blank relations get none |
| Batching.RelationsAre | src/hunting/capabilities/retriever.py:142-144 | relations are told apart by their stripped, folded names |
| Frontier.Search | src/hunting/capabilities/catalog_index.py:74-183 | every registered card is returned exactly once with its own score, sorted by score |
| Frontier.MatchIs | src/hunting/capabilities/catalog_index.py:74-183 | a card matches if and only if it reaches the threshold and has a required role, unless no required role has a name |
| Frontier.SourceCardStore.RegisterCard | src/hunting/capabilities/source_card_store.py:195-196 | stores the card under its source id and keeps the store keyed |
| Frontier.StageCertified | src/hunting/capabilities/frontier.py:111-131 | selects exactly the cards with all required roles when the contract is approved |
| Frontier.StageMetadata | src/hunting/capabilities/frontier.py:136-164 | examines exactly the certified and the above-threshold cards, considers all, and rejects exactly the others with their reason |
| Frontier.StageAdjacent | src/hunting/capabilities/frontier.py:169-188 | adds exactly the registered one-hop neighbours of the examined sources, for any visiting order |
| Frontier.StageProfiling | src/hunting/capabilities/frontier.py:193-202 | if nothing was selected, the first candidates that are neither examined nor rejected, up to the limit |
| Frontier.NothingRemains | src/hunting/capabilities/frontier.py:193-202 | once every source is examined or rejected the profiling stage has no candidate |
| Frontier.StageExhaustive | src/hunting/capabilities/frontier.py:214-222 | adds exactly the sources not yet examined |
| Frontier.Expand | src/hunting/capabilities/frontier.py:90-243 | selected cards are exactly the examined sources, each once; what each stage adds; profiling adds nothing |
| Frontier.NothingIsDropped | src/hunting/capabilities/frontier.py:231-243 | examined and unexamined partition the catalogue, the unexamined are the rejected minus the examined, and exhaustive expansion leaves none |
| Frontier.GapsAre | src/hunting/capabilities/frontier.py:113-241 | a source is left unexamined if and only if the search is not exhaustive, it is not certified, does not reach the threshold with a required role, and is not one hop from one that does; then it carries its reason |
| Frontier.PackCards | src/hunting/capabilities/frontier.py:69-88 | the summaries packed in order, for every card limit |
| Frontier.SummariesAre | src/hunting/capabilities/frontier.py:81-84 | each summary keeps the first fields up to the limit, read as a slice bound, and counts them all |
| Frontier.PromptsAreBounded | src/hunting/capabilities/frontier.py:69-88 | each card once, in order; no prompt exceeds the card limit or its field total; a prompt is empty if and only if the limit is below one and there are cards |
| Abduction.AbductionRuntime.Ingest | src/hunting/orchestrator.py:390-391 | a processed observation does not become pending again |
| Abduction.AbductionRuntime.ExecuteEpoch | src/hunting/orchestrator.py:161-229 | takes the smallest pending ids up to the limit, calls the provider at most retries plus one times, and leaves the specified runtime |
| Abduction.EpochIs | src/hunting/orchestrator.py:170-229 | what an epoch does and how often it calls the provider, by its replies: nothing if it is not due, a failure and no call counted if every attempt raises, nothing if the first reply is empty, else one call and epoch counted, with a failure if the reply does not parse |
| Abduction.BatchSizeIs | src/hunting/orchestrator.py:170 | the limit is a slice bound, negative ones included |
| Abduction.CallProvider | src/hunting/orchestrator.py:187-210 | the first reply that does not raise, with the exact number of attempts |
| Abduction.SmallestIsUnique | src/hunting/orchestrator.py:170 | the batch is determined by the pending ids and the limit |
| Abduction.EpochMovesUnlessEmpty | src/hunting/orchestrator.py:175-229 | an epoch that is not skipped moves its whole batch even when retries or parsing fail, unless the reply is empty or no retry is allowed; then nothing changes |
| Abduction.EmptyReplyIsRepeated | src/hunting/orchestrator.py:211-212 | however many epochs come back empty, the runtime and its counts stay as they were, and each epoch has called the provider |
| Abduction.HistoryConserves | src/hunting/orchestrator.py:161-259 | over every interleaving pending and processed are disjoint, together exactly what was ingested, and processed only grows |
| Abduction.EpochsDrain | src/hunting/orchestrator.py:170-224 | each epoch that goes through takes exactly the limit or all that is left |
| Bindings.CandidateSet.AddCandidate | src/hunting/contracts/bindings.py:97-101 | appends the candidate unless its value is present up to case |
| Bindings.AddIs | src/hunting/contracts/bindings.py:97-101 | the same in terms of the values |
| Bindings.CandidateSet.TryAutobind | src/hunting/contracts/bindings.py:123-144 | the new status and selection, and the binding returned |
| Bindings.TryIs | src/hunting/contracts/bindings.py:103-144 | a try binds the candidate that is a unique proof; otherwise it binds none and asks for disambiguation if two values are uncontradicted, or is unresolved if none is |
| Bindings.AutobindIs | src/hunting/contracts/bindings.py:103-121 | auto-binding is possible if and only if one candidate is a proof and every other one is contradicted |
| Bindings.RunExtends | src/hunting/contracts/bindings.py:97-144 | over every sequence of insertions and tries values stay distinct, a selection is a proof and is never replaced, ambiguity is permanent |
| Bindings.AmbiguityBlocks | src/hunting/contracts/bindings.py:134-140 | once ambiguous every later try fails and asks for disambiguation |
| Bindings.StatusAfterTry | src/hunting/contracts/bindings.py:123-144 | after a try the status depends on the candidates alone |
| Bindings.SelectedMeansTried | src/hunting/contracts/bindings.py:123-132 | a binding is selected if and only if some try of the run met a unique proof |
| Bindings.BindingOutlivesAmbiguity | src/hunting/contracts/bindings.py:125-140 | a second uncontradicted value changes the status but leaves the earlier binding selected |
| Bindings.OutcomeIgnoresOrder | src/hunting/contracts/bindings.py:97-144 | for values distinct up to case binding, status and selection do not depend on the insertion order |
| Bindings.CollidingPair | src/hunting/contracts/bindings.py:97-101 | for two values equal up to case the order does not matter if and only if they are the same or neither is a proof |
| Relaxation.DiscoveryGroups | src/hunting/contracts/hunt_spec.py:207-246 | the nested loops compute the specified groups; what they hold is stated by the lemmas that follow |
| SearchTerms.GroupsAre | src/hunting/contracts/hunt_spec.py:219-246 | for every spec and level: at level 1 the subject group if some anchor is not blank, then the first 24 evidence aliases if there are any |
| SearchTerms.AliasesAre | src/hunting/contracts/hunt_spec.py:231-243 | from the terms of the spec: every term that repeats no non-blank anchor up to case, and every non-empty component of one that is a path, has its stripped, unquoted text among the aliases, up to case, if it is at least three long and at level 3 neither a path nor longer than thirty; every alias comes from such a term, and none is there twice up to case |
| SearchTerms.SubjectIs | src/hunting/contracts/hunt_spec.py:220-229 | the subject group holds exactly the anchors that are not blank and, for those with several words of three characters or more, the first of these, each once |
| SearchTerms.SplitAllGivesPieces | src/hunting/contracts/hunt_spec.py:235-237 | splitting at a separator gives exactly the pieces between separators |
| SearchTerms.WordsAre | src/hunting/contracts/hunt_spec.py:226 | splitting at white space gives exactly the longest pieces without any, in order |
| Relaxation.AliasesCover | src/hunting/contracts/hunt_spec.py:231-243 | no alias twice up to case, only usable texts, and no usable text without its alias |
| Relaxation.LevelThreeIsFilter | src/hunting/contracts/hunt_spec.py:239-243 | before truncation the level-3 aliases are the level-2 aliases without paths and long texts, in order |
| Relaxation.LevelTwoRelaxes | src/hunting/contracts/hunt_spec.py:219-230 | every event matched at level 1 is matched at level 2 |
| Relaxation.LevelThreeRelaxes | src/hunting/contracts/hunt_spec.py:214-246 | level 3 matches all that level 2 matches if and only if each dropped alias contains a kept one |
| Relaxation.LevelThreeNarrows | src/hunting/contracts/hunt_spec.py:239-246 | when level 3 matches nothing that level 2 does not; always with at most 24 aliases |
| Relaxation.LongTextIsLost | src/hunting/contracts/hunt_spec.py:241-242 | a long text without a core alias in it is matched at level 2 and lost at level 3 |
| Relaxation.NoGroupIsEmpty | src/hunting/contracts/hunt_spec.py:248-256 | no group is empty, so the structured form drops none |
| Relaxation.RunDiscovery | src/hunting/engine.py:455-522 | nothing is asked without a search term or the content search; else levels 1 to 3 are asked until one finds rows, with at most three queries |
| SearchTerms.AskIs | src/hunting/engine.py:475-522 | the levels are asked in turn up to the first that finds rows, whose rows are returned; exactly those that ask something are counted |
| Relaxation.AskIsComplete | src/hunting/engine.py:475-522 | with a provider that may cut its rows off but hides no match, it comes back empty if and only if no level that asks finds anything |
| Relaxation.LevelThreeIsFutile | src/hunting/engine.py:475-522 | with at most 24 aliases the third query never finds what the second missed |
| ConstraintText.RoundTrip | src/hunting/contracts/query_intent.py:41-49 | a query recovers key, operator and printed value from a constraint's text if and only if the operator is equals and the key has no equals sign, or exists and the key has neither separator |
| ConstraintText.MissingValueIsRead | src/hunting/contracts/query_intent.py:41-45 | a constraint without a value, unless it asks for existence, is read back as an equality with the word None |
| ConstraintText.NormaliseIsNormal | src/hunting/contracts/semantic_graph.py:46-79 | string normalisation is idempotent and yields a normal form |
| ConstraintText.NormalForms | src/hunting/contracts/semantic_graph.py:515-519 | a text is left as it is if and only if it is a trimmed, folded key, an equals sign and a trimmed value |
| ConstraintText.PrintedFormStays | src/hunting/contracts/semantic_graph.py:515-519 | when a constraint's own text survives re-normalisation, for every key: without an equals sign in the key if and only if the operator is not exists and the printed value is trimmed, with one if and only if the part before it is a key and the rest is trimmed |
| ConstraintText.ExistsComesBackEqual | src/hunting/contracts/semantic_graph.py:515-519 | an existence constraint comes back asking for the value exists |
| ConstraintText.MeaningKept | src/hunting/engine.py:237-239 | re-normalising a text keeps the predicate read from it if and only if it has a separator, a trimmed value and is no existence constraint |

## Left out

- Language-model calls and prompts, provider adapters, native query text, the command line, reports and stored artifacts: input and output only.
- Unicode: white space follows Python's list of code points, but letters, digits and case folding are those of ASCII; folding keeps the length of a text.
- Scores, costs and thresholds are opaque numbers with a total order; floating-point rounding is not modelled.
- The gate that decides whether an abduction epoch is due: epochs happen at any time, so the theorems hold for whatever it decides.
- Clocks, sleeps and hashes: run-time exhaustion and the context hash are inputs. An empty back-off table is not modelled.
- Exceptions of adapters, callbacks and the citation check: a run in which one escapes has no result here.
- Graph nodes and edges are stored by value in maps, so aliasing between a node in the graph and the same node in a table is replaced by a lookup by id.
- Observation contents, evidence cards, requirement statuses and diagnostics: an observation is its id.
- ClaimHunting.ClaimHunt.TestEdge: does not model the instance cells, requirement statuses and evidence cards that an attempt writes; the stopping evaluation reads cells only when no hypothesis is live, and here all are.
- Claims.CheckText: the patterns of provider syntax are one opaque predicate, and the checks on the texts of single claims are left out.
- CaseBuilder.ReadContract: leaves out the required fields, the map of source and target roles and the order of the lists; neither the planner nor the loop reads them.
- Planning.SelectOperation: kinds and roles come already trimmed and lower-cased; the scenario names in the fallback mapping are one opaque function, used whenever no published operation fits.
- Planning.SelectAction: does not model a binder without a capability graph, its name-ranked priorities (`src/hunting/capabilities/binder.py:226-236`) and its identity step (`src/hunting/controller/action_planner.py:130-141`), because the engine attaches a capability graph before either loop (`src/hunting/engine.py:1060`, `src/hunting/engine.py:1483`).
- The planner's branches for hunts without a case graph, apart from the acceptance-criteria test.
- The relation verifier's own rules: its verdict is an input, restricted to the observations of the attempt.
- The hypothesis reasoner: hypothesis statuses at a stopping evaluation of the action loop are inputs, and it does not change expectations.
- ActionLoop.AddExpectations: which expectations a sweep and a pivot mint is an input, because it depends on the hypotheses; what an expansion mints is modelled, with the compatibility of an entity and a kind of evidence as an opaque predicate.
- The host and pivot heuristics of TEST and DISCOVER: which entities are read off the rows is an input; how they are queued, deduplicated and capped is modelled.
- ActionLoop.FirstUntested: the choice of a requirement and the query plan are one input; a missing requirement and a missing plan both make the expectation untestable.
- Cells of the action loop share one provider scope and time window, so two instance cells are the same when their entities are.
- Frontier.Expand: the manifest's sorted lists are sets; the order within a stage is not stated.
- Batching.Order: the audit records and the stability of the sort are not modelled; ties are broken by id as the sort key says.
- Relaxation.RunDiscovery: an alias matches case-insensitively anywhere in an event; the provider's own search syntax is not modelled. Each level's groups come from a function proved equal to the loops of `DiscoveryGroups`.
- ConstraintText.RoundTrip: values are their printed text; retrieval terms and object-shaped input are left out.
- Plain containers, enum tables, default registries, templates and the evaluation runner: one reading settles them.
