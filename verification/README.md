# Verified models of the trading order-management system

This project models the deterministic state and graph logic of the trading
system and proves what its parts promise together, over whole runs and over
all inputs. It covers seven areas.

- **The paper broker adapter** (`PaperRecords`, `PaperProtocol`, `PaperRuns`,
  `PaperPairing`, `PaperLaws`, `PaperAdapter`, with `Identifiers` and
  `EventJournal`). A class with the adapter's fields appends to a journal. Its
  object invariant says that the journal is what the run of calls so far emits
  and that the fields are what a reader rebuilds from the journal alone, by
  pairing every attempt with its result. The reconciliation latch, idempotent
  submissions, fill progress, record validity and the write-ahead shape of the
  journal are then proved for every run, and for every outcome it is proved in
  plain fields exactly when it is given. Connectors answer arbitrarily; what
  they were asked is recorded.
- **The two workflow graph validators** (`GraphSearch`, `SimpleWorkflow`,
  `SimpleWorkflowShape`, `SimpleWorkflowReordering`, `TypedWorkflow`,
  `TypedWorkflowTables`, `TypedWorkflowShape`, `TypedWorkflowLaws`). Recursive
  three-colour cycle detection and worklist reachability are proved exact, each
  validator reports exactly the problems a graph has, and each accepts exactly
  one shape: nine stages in a line with forward edges, or the 22-node,
  31-connection breakout template up to renaming. The typed validator's
  topology check, with non-empty ids of the safety nodes, makes all its other
  checks redundant.
- **The graph editor and persistence** (`Sorting`, `WorkflowEditor`,
  `WorkflowEditorProblems`, `WorkflowEditorLaws`, `WorkflowEdgeIds`,
  `WorkflowPersistence`, `WorkflowRoundTrip`, `SaveLoadLaws`). Every sequence
  of edits keeps the editor's invariants, so that from the initial graph only
  three kinds of problem remain possible, and saving and reopening a compiled
  draft restores its fingerprint and its document.
- **Bar building from replay** (`BarBuilder`, `BarProperties`, `BarLaws`). The
  one-pass loop over a mutable open bar equals group-by-bucket, with
  conservation, splitting and bucket arithmetic.
- **Approval tickets and the emergency stop, alone and composed**
  (`ApprovalTickets`, `ApprovalReload`, `ApprovalLaws`, `EmergencyStop`,
  `SimulationApp`, `StopLaws`). Two journaled idempotent services, and the
  routes that put one in front of the other: no ticket becomes approved while
  the stop is active.
- **The read-snapshot validator** (`ReadSnapshot`, `ReadSnapshotShape`,
  `ReadSnapshotLaws`, `ReadSnapshotExample`). Acceptance is characterised
  exactly, and its consequences proved: one-to-one correspondences, disjoint
  manifests, exact counts.
- **The length-prefixed blob-batch parser** (`BlobBatch`,
  `BlobBatchRoundTrip`, `BlobBatchLaws`). The parser inverts its printer.

A timestamp is the pair of its text and the instant it denotes, in
microseconds: payloads compare texts, ordering compares instants. Canonical
JSON is taken as injective, so a stored payload stands for its own text.
Raised errors are `Result` values, or the status a route answers with.

Where a promise turned out not to hold on all inputs, the code is kept as it is
and the exact condition is proved:

- A valid broker order makes a plan exactly when four of its texts carry no
  forbidden marker (`PaperRecords.PlanBuildsExactly`; `SomeValidOrderMakesNoPlan`
  is the witness).
- With node ids that contain the separator `->`, two different edges can share a
  key. The simple validator then may accept a graph that lacks a required edge
  (`SimpleWorkflowShape.SeparatorInIdsHidesMissingEdge`) or refuse a complete line
  (`SeparatorInIdsRefusesLine`). An accepted graph is a line, and a line is
  accepted, exactly when no edge has the key of another edge or of two different
  neighbouring stages (`ValidIsLinearExactlyWhen`, `LinearIsValidExactlyWhen`).
- Edges are removed by id, and in an opened document two edges can share one
  (`WorkflowEdgeIds.OpenedEdgesMayShareId`). A removal takes away just what it
  names or touches exactly when no id is shared (`RemoveEdgeExactlyWhen`,
  `RemoveNodeExactlyWhen`), which holds after any edits of the initial graph
  (`EditedEdgeIdsDiffer`).
- A fractional instant before the epoch lies in its bar exactly when its
  truncated second is not a multiple of the timeframe
  (`BarProperties.ContainmentIsExact`; `FractionBeforeEpochEscapes` is the witness).
- The blob parser accepts a negative size (`BlobBatchRoundTrip.NegativeSizeIsAccepted`).
  What it accepts is the printed encoding exactly when every size is written
  canonically (`AcceptsExactlyPrintings`).
- Outside execution mode an accepted snapshot may list an audit event twice
  (`ReadSnapshotShape.RepeatedEventIsAccepted`, and
  `ReadSnapshotExample.LifecycleModeIsReachable` on a concrete one), so counts are
  exact there exactly when no event repeats (`ReadSnapshotShape.AuditCount`).

## Model

| member | source | states |
|---|---|---|
| EventJournal.ValidateSequenceOrder | backend/src/trading_oms_backend/event_journal.py:172-178 | succeeds exactly on records numbered 1, 2, 3, ...; otherwise names the first gap, with everything before it contiguous |
| EventJournal.Journal.ReadAll | backend/src/trading_oms_backend/event_journal.py:142-157 | returns all records when they are contiguous and an error otherwise |
| EventJournal.Journal.Append | backend/src/trading_oms_backend/event_journal.py:113-135 | a damaged journal is left alone; a sound one keeps every earlier record and gains one numbered after the last |
| Identifiers.PrefixedIdentifierIsValid | backend/src/trading_oms_backend/ibkr_paper_adapter.py:2045-2051 | an identifier built from a hyphen-guarded prefix and a text is valid exactly when the text itself carries no forbidden marker |
| Identifiers.AcknowledgementIsValidIdentifier | backend/src/trading_oms_backend/ibkr_paper_adapter.py:2246-2248 | the local acknowledgement of a valid key always passes the identifier check |
| PaperRecords.PlanBuildsExactly | backend/src/trading_oms_backend/ibkr_paper_adapter.py:549-600 | a valid broker order makes a valid plan exactly when its client id, symbol, risk decision and approval reference carry no forbidden marker |
| PaperRecords.SomeValidOrderMakesNoPlan | backend/src/trading_oms_backend/ibkr_paper_adapter.py:568-600 | a concrete valid order that no plan can be made from |
| PaperRecords.DerivedReasonIsValid | backend/src/trading_oms_backend/ibkr_paper_adapter.py:2030-2042 | every text the adapter derives from an outcome for a connection record passes the identifier check |
| PaperLaws.IdentifierExactly | backend/src/trading_oms_backend/ibkr_paper_adapter.py:2045-2051 | an identifier has no blank at either end and no part that is a forbidden marker in any case |
| PaperLaws.PlanExactly | backend/src/trading_oms_backend/ibkr_paper_adapter.py:568-600 | a plan passes exactly when its quantity and prices make sense for its type and its texts are identifiers |
| PaperLaws.PlanRepeatsOrder | backend/src/trading_oms_backend/ibkr_paper_adapter.py:549-566 | every field of a plan is its order's |
| PaperLaws.SubmissionStatusExactly | backend/src/trading_oms_backend/ibkr_paper_adapter.py:1585-1698 | for each of the nine statuses, in fields: the memory, contract, age, side, references and connector answer that give it, and no others |
| PaperLaws.SentExactlyWhenFit | backend/src/trading_oms_backend/ibkr_paper_adapter.py:1585-1659 | the connector gets the request exactly when it is new, the adapter may act, and contract, age and protection are in order |
| PaperLaws.SubmissionRecordTells | backend/src/trading_oms_backend/ibkr_paper_adapter.py:1599-1698 | which failure, reconciliation demand and acknowledgement each status carries |
| PaperLaws.SubmissionRecordRepeatsRequest | backend/src/trading_oms_backend/ibkr_paper_adapter.py:2176-2213 | the record repeats the request, its plan and its contract, field by field |
| PaperLaws.StatusOutcomeExactly | backend/src/trading_oms_backend/ibkr_paper_adapter.py:1736-1854 | for each outcome of a status callback, in fields, exactly when it is given |
| PaperLaws.StatusRecordTells | backend/src/trading_oms_backend/ibkr_paper_adapter.py:2251-2277 | the record repeats the callback, and its target is the state its text and quantity mean |
| PaperLaws.FillOutcomeExactly | backend/src/trading_oms_backend/ibkr_paper_adapter.py:1876-1997 | for each outcome of a fill callback exactly when it is given; accepted exactly when new, in place, fresh, in order, within the order and ahead of what was filled |
| PaperLaws.FillRecordTells | backend/src/trading_oms_backend/ibkr_paper_adapter.py:2280-2314 | an accepted fill leaves quantity minus cumulative and is FILLED exactly when nothing is left; every record repeats its callback |
| PaperLaws.LookupOutcomeExactly | backend/src/trading_oms_backend/ibkr_paper_adapter.py:1437-1530 | for each status of a lookup exactly when it is given, and a resolved one carries the contract found |
| PaperLaws.LookupRecordTells | backend/src/trading_oms_backend/ibkr_paper_adapter.py:2137-2161 | the record repeats the request, and tells which failure and whether to reconcile |
| PaperLaws.AskedExactlyWhenOpen | backend/src/trading_oms_backend/ibkr_paper_adapter.py:1437-1463 | a lookup reaches the connector exactly for a stock while the adapter may act |
| PaperLaws.ProbeOutcomeExactly | backend/src/trading_oms_backend/ibkr_paper_adapter.py:1341-1398 | what each answer of the probe is recorded as |
| PaperLaws.AcceptedSubmissionIsRemembered | backend/src/trading_oms_backend/ibkr_paper_adapter.py:1693-1698 | an accepted submission is stored under its key with its record, and nothing else moves |
| PaperLaws.AcceptedStatusIsRemembered | backend/src/trading_oms_backend/ibkr_paper_adapter.py:2011-2028 | an accepted status callback is stored, its time becomes the last one and the cumulative quantity does not fall |
| PaperLaws.AcceptedFillIsRemembered | backend/src/trading_oms_backend/ibkr_paper_adapter.py:2011-2028 | the same for an accepted fill |
| PaperLaws.ConnectionIsAdopted | backend/src/trading_oms_backend/ibkr_paper_adapter.py:1303-1323 | a recorded or probed state is adopted, and latches exactly when it is unknown |
| PaperProtocol.CallEffect | backend/src/trading_oms_backend/ibkr_paper_adapter.py:1303-1997 | replaying the events a call journals, from any memory and whatever attempt was pending, makes exactly the change the code makes to its fields |
| PaperProtocol.MemoryAfterCall | backend/src/trading_oms_backend/ibkr_paper_adapter.py:1303-1997 | the journal's account of a longer run is the code's effect applied to its account of the shorter run |
| PaperRuns.RunsAreSound | backend/src/trading_oms_backend/ibkr_paper_adapter.py:1585-1698 | in every run the flag holds exactly in the unknown state, and every stored acceptance answers its own request, of a fresh dollar stock, protected or excepted when it buys |
| PaperRuns.AcceptancesWereFresh | backend/src/trading_oms_backend/ibkr_paper_adapter.py:1585-1698 | in every run each stored acceptance was made by a call, unlatched and connected, for the plan's own dollar stock, resolved within that call's own limit, and sold or protected or excepted |
| PaperRuns.StoredAcceptancesAreFit | backend/src/trading_oms_backend/ibkr_paper_adapter.py:1585-1698 | told in fields: each stored record repeats its request, and a stored purchase names its protective order or its exception |
| PaperRuns.LatchHolds | backend/src/trading_oms_backend/ibkr_paper_adapter.py:1437-1452 | while latched, until an explicit connection record or probe, nothing is sent or looked up, memory does not move, and only quiet events are journaled |
| PaperRuns.DemandRaisesLatch | backend/src/trading_oms_backend/ibkr_paper_adapter.py:2030-2042 | any journaled outcome that requires reconciliation leaves the flag up and the state unknown |
| PaperRuns.LaterRequestsAreAnswered | backend/src/trading_oms_backend/ibkr_paper_adapter.py:1585-1627 | after an accepted submission every later request with its key, in any connection state, gets the original acknowledgement if identical and the duplicate-conflict block otherwise, and nothing is sent |
| PaperRuns.AtMostOneSuccessPerKey | backend/src/trading_oms_backend/ibkr_paper_adapter.py:1585-1698 | in every run no request goes to the connector after a successful call with its key, and each success is what is stored |
| PaperRuns.FillsProgress | backend/src/trading_oms_backend/ibkr_paper_adapter.py:2004-2028 | the accepted fills of one order strictly increase in cumulative quantity, and memory keeps at least their progress, whatever is interleaved |
| PaperRuns.LeavesComplementCumulative | backend/src/trading_oms_backend/ibkr_paper_adapter.py:1951-1989 | when the accepted fill reports of an order name one quantity, every accepted fill has cumulative plus leaves equal to it, whatever refused reports name |
| PaperRuns.FillsAreBounded | backend/src/trading_oms_backend/ibkr_paper_adapter.py:2365-2379 | then at most `quantity` fills of the order are ever accepted, and FILLED can only be the last of them |
| PaperRuns.EveryRecordIsValid | backend/src/trading_oms_backend/ibkr_paper_adapter.py:745-842 | every record a call builds, from any reachable state, passes its own validator, texts of connection records included, so no attempt stays without its result |
| PaperPairing.JournalIsWriteAhead | backend/src/trading_oms_backend/ibkr_paper_adapter.py:1561-1997 | in every run each attempt is followed at once by its own result, and a forced connection record follows exactly when the result needs reconciliation and the state was not already unknown |
| PaperAdapter.Adapter.constructor | backend/src/trading_oms_backend/ibkr_paper_adapter.py:1264-1289 | a new adapter is disconnected, with nothing remembered, and accounts for an empty run beside the journal's earlier records |
| PaperAdapter.Adapter.RecordConnectionState | backend/src/trading_oms_backend/ibkr_paper_adapter.py:1303-1323 | one call more in the run; the reply, or the refusal of an invalid reason |
| PaperAdapter.Adapter.ProbeLocalConnectivity | backend/src/trading_oms_backend/ibkr_paper_adapter.py:1325-1410 | one call more in the run; the probe connector is used exactly when the texts and timeout are valid |
| PaperAdapter.Adapter.LookupContract | backend/src/trading_oms_backend/ibkr_paper_adapter.py:1412-1545 | one call more in the run; the connector is asked exactly when the state does not block the lookup |
| PaperAdapter.Adapter.CreateOrderPlan | backend/src/trading_oms_backend/ibkr_paper_adapter.py:1547-1559 | one call more in the run; a plan exactly when not latched and buildable |
| PaperAdapter.Adapter.RecordPaperOrderSubmission | backend/src/trading_oms_backend/ibkr_paper_adapter.py:1561-1714 | one call more in the run; the outcome from the old state, and the connector sent to exactly when nothing blocks |
| PaperAdapter.Adapter.RecordPaperOrderStatusCallback | backend/src/trading_oms_backend/ibkr_paper_adapter.py:1716-1854 | one call more in the run; the outcome from the old state |
| PaperAdapter.Adapter.RecordPaperFillCallback | backend/src/trading_oms_backend/ibkr_paper_adapter.py:1856-1997 | one call more in the run; the outcome from the old state |
| PaperAdapter.Adapter.RememberCallbackProgress | backend/src/trading_oms_backend/ibkr_paper_adapter.py:2011-2028 | the order's last observed time is replaced and its cumulative quantity never falls |
| PaperAdapter.Adapter.MarkUnknownIfRequired | backend/src/trading_oms_backend/ibkr_paper_adapter.py:2030-2042 | one connection record exactly when required and not already unknown |
| GraphSearch.CycleSearch.Visit | frontend/src/typedWorkflowValidation.ts:302-330 | one visit ends, finds only real cycles, and expands each node at most once |
| GraphSearch.HasCycle | frontend/src/visualWorkflowValidation.ts:231-277 | true exactly when the graph over the known nodes has a directed cycle; no node is expanded twice, and all are when there is none |
| GraphSearch.Reachable | frontend/src/typedWorkflowValidation.ts:332-352 | ends although its stack grows, and returns exactly the non-empty ids reachable by one or more edges |
| GraphSearch.ReachabilityIsDual | frontend/src/typedWorkflowValidation.ts:332-352 | an id is among the ancestors of another exactly when the other is among its descendants |
| SimpleWorkflow.DuplicateValues | frontend/src/visualWorkflowValidation.ts:212-222 | exactly the values that occur more than once |
| SimpleWorkflow.HasRequiredSimulationPath | frontend/src/visualWorkflowValidation.ts:184-210 | true exactly when each stage has one node and every neighbouring pair is joined by a workflow edge |
| SimpleWorkflow.Validate | frontend/src/visualWorkflowValidation.ts:87-182 | reports exactly the problems the graph has, and none exactly when it is valid |
| SimpleWorkflowShape.ValidExactlyWhenLinear | frontend/src/visualWorkflowValidation.ts:87-277 | without the separator in ids, valid exactly when there is one node of each of nine types, every edge leads forward, none repeats, and the eight neighbouring edges are there |
| SimpleWorkflowShape.ValidIsLinearExactlyWhen | frontend/src/visualWorkflowValidation.ts:87-277 | whatever the ids, an accepted graph is a complete line exactly when no edge has the key of a different pair |
| SimpleWorkflowShape.LinearIsValidExactlyWhen | frontend/src/visualWorkflowValidation.ts:87-277 | whatever the ids, a complete line is accepted exactly when no edge has the key of a different pair |
| SimpleWorkflowShape.OnlyTopologicalOrder | frontend/src/visualWorkflowValidation.ts:63-73 | the required path is the only listing of the nodes that respects every edge |
| SimpleWorkflowShape.SeparatorInIdsHidesMissingEdge | frontend/src/visualWorkflowValidation.ts:196-209 | a concrete valid graph whose ids contain the separator and whose first required edge is missing |
| SimpleWorkflowShape.SeparatorInIdsRefusesLine | frontend/src/visualWorkflowValidation.ts:87-182 | a concrete complete line whose ids contain the separator and which is refused |
| SimpleWorkflowReordering.ReorderedStaysValid | frontend/src/visualWorkflowValidation.ts:87-277 | validity does not depend on the order of the nodes or on edges spelling out their type |
| TypedWorkflow.SiftConnections | frontend/src/typedWorkflowValidation.ts:152-194 | judges connections in order: exactly the faulty ones are reported, the rest kept with the inputs they occupy |
| TypedWorkflow.EveryTypeReached | frontend/src/typedWorkflowValidation.ts:203-229 | true exactly when every listed type is reached from, or reaches, the execution node |
| TypedWorkflow.Validate | frontend/src/typedWorkflowValidation.ts:108-263 | reports exactly the problems the graph has, and none exactly when it is valid |
| TypedWorkflowTables.EveryInputHasOneWire | frontend/src/typedWorkflowNodeCatalog.ts:92-314 | every input port of a required type is fed by exactly one supported connection, which fits the port |
| TypedWorkflowLaws.PortTypesFollowNames | frontend/src/typedWorkflowNodeCatalog.ts:92-314 | a port's type follows from its name, and a plan's from the gates it has passed |
| TypedWorkflowLaws.MirroredTypesSharePorts | frontend/src/typedWorkflowNodeCatalog.ts:92-314 | types that stand in for one another (live trades, the other range and day ends, the other crossing) have the same ports |
| TypedWorkflowShape.ValidExactlyWhenTemplate | frontend/src/typedWorkflowValidation.ts:108-263 | valid exactly when the graph is a renaming of the 22-node, 31-connection template whose safety nodes have non-empty ids |
| TypedWorkflowShape.TopologyExactlyWhenWired | frontend/src/typedWorkflowValidation.ts:354-386 | the topology check accepts exactly the renamings of the template, whatever the ids |
| TypedWorkflowShape.ValidExactlyWhenTopology | frontend/src/typedWorkflowValidation.ts:108-263 | valid exactly when the topology check passes and the safety nodes have non-empty ids: no other check can then fail |
| TypedWorkflowShape.TopologyImpliesSafety | frontend/src/typedWorkflowValidation.ts:354-386 | the topology check alone implies that there is no cycle and no input with two connections |
| TypedWorkflowShape.PlanPassesEveryGate | frontend/src/typedWorkflowValidation.ts:77-94 | in a graph that passes the topology check one chain of ten `plan` connections leads from the sizing node through every safety gate to the fake broker, nothing else feeds its inputs, and every walk of the plan to the broker is an end of that chain |
| TypedWorkflowLaws.InputsAreFedByFeeders | frontend/src/typedWorkflowValidation.ts:354-386 | in a graph that passes the topology check every input is fed, and only by the node the breakout needs there: the day's low feeds the stops, the opening high the crossing, the crossing its one trigger |
| TypedWorkflowLaws.FaultExactly | frontend/src/typedWorkflowValidation.ts:152-194 | for each fault of a connection exactly when it is the one reported |
| TypedWorkflowLaws.KindIsOfLast | frontend/src/typedWorkflowValidation.ts:108-150 | an id names the last node listed under it |
| WorkflowEditor.EditsKeepTidy | frontend/src/visualWorkflowEditor.ts:54-207 | every sequence of edits keeps ids and types unique, nodes in catalogue order, edges between two different live nodes with none repeated, and the selection on an existing element |
| WorkflowEditor.EditsKeepNoArrows | frontend/src/visualWorkflowEditor.ts:54-207 | no sequence of edits brings the separator into an id |
| WorkflowEditor.AllowedExactlyWhenConnecting | frontend/src/visualWorkflowEditor.ts:209-218 | a connection is offered exactly when making it changes the graph, and never twice |
| WorkflowEditorLaws.ConnectExactly | frontend/src/visualWorkflowEditor.ts:128-159 | two nodes are connected exactly when they are there, different and not connected yet; then one edge is added last and selected, and otherwise nothing moves |
| WorkflowEditorLaws.AddExactly | frontend/src/visualWorkflowEditor.ts:54-74 | a supported type is added exactly when neither it nor its id is there; then it is the catalogue's node, and selected |
| WorkflowEditorLaws.MoveExactly | frontend/src/visualWorkflowEditor.ts:102-126 | a move to finite coordinates gives a known node its place and touches nothing else |
| WorkflowEditorLaws.ConnectThenRemove | frontend/src/visualWorkflowEditor.ts:128-176 | removing a connection just made restores the edges exactly when no older edge has its id |
| WorkflowEditorLaws.AddThenRemove | frontend/src/visualWorkflowEditor.ts:54-100 | removing a node just added restores nodes and edges of a tidy graph |
| WorkflowEdgeIds.RemoveEdgeExactlyWhen | frontend/src/visualWorkflowEditor.ts:161-176 | removing an edge by its id removes that edge alone exactly when no other edge has the id |
| WorkflowEdgeIds.RemoveNodeExactlyWhen | frontend/src/visualWorkflowEditor.ts:76-100 | removing a node removes the edges that touch it and no other exactly when none of them shares its id with an edge that does not |
| WorkflowEdgeIds.EditedEdgeIdsDiffer | frontend/src/visualWorkflowEditor.ts:148-153 | after any edits of the initial graph no two edges share an id |
| WorkflowEdgeIds.EditedRemovalsAreExact | frontend/src/visualWorkflowEditor.ts:76-176 | so there every removal takes away exactly the named edge, or exactly the edges that touch the node |
| WorkflowEdgeIds.OpenedEdgesMayShareId | frontend/src/workflowPersistence.ts:172-180 | a concrete document that passes validation and opens with two edges under one id, so that removing one edge or one node also removes an edge it does not name or touch |
| WorkflowEditor.InitialIsTidy | frontend/src/visualWorkflowEditor.ts:42-52 | the initial and the reset graph have those properties |
| WorkflowEditor.AddedNodesAreTidy | frontend/src/visualWorkflowEditor.ts:66-73 | sorting by catalogue index puts an added node in its place among the others, and loses and adds none besides |
| WorkflowEditorProblems.OnlyThreeProblems | frontend/src/visualWorkflowValidation.ts:95-176 | after any edits of the initial graph the validator can only report a missing required node, a cycle or a missing path |
| WorkflowEditorProblems.OnlyFourProblems | frontend/src/visualWorkflowValidation.ts:95-176 | in every state with the editor's invariants, opened documents included, it can besides only report different edges that share a key |
| WorkflowEditorProblems.TidyValidExactlyWhen | frontend/src/visualWorkflowValidation.ts:87-182 | a graph with the editor's invariants is valid exactly when it is acyclic, the required path is complete and no two edges share a key |
| WorkflowEditorProblems.InitialIsValid | frontend/src/visualWorkflowNodeCatalog.ts:43-154 | the catalogue graph the editor starts from is valid |
| WorkflowPersistence.Compile | frontend/src/visualWorkflowDsl.ts:56-98 | a document of the draft, exactly when the validator finds nothing wrong |
| WorkflowPersistence.ValidateDocument | frontend/src/workflowPersistence.ts:285-386 | returns the document without edge ids exactly when header, nodes, edges, edge ids and graph all pass |
| WorkflowPersistence.BuildRequest | frontend/src/workflowPersistence.ts:232-257 | a request exactly when the draft compiled and every part passes its check |
| WorkflowPersistence.ToEditorState | frontend/src/workflowPersistence.ts:151-181 | opens a stored definition exactly when it passes validation |
| SaveLoadLaws.TokensAreFoundExactly | frontend/src/workflowPersistence.ts:456-480 | a forbidden token is found exactly when some part of the text spells it, in any case and with hyphens for underscores |
| SaveLoadLaws.TextsExactly | frontend/src/workflowPersistence.ts:421-439 | which texts pass as names and as metadata, told by their characters and parts |
| SaveLoadLaws.DocumentExactly | frontend/src/workflowPersistence.ts:285-386 | a document passes exactly when it only simulates on the fake broker behind risk check, approval and audit, its texts are clean, its edge ids differ and its graph is valid |
| SaveLoadLaws.DefinitionExactly | frontend/src/workflowPersistence.ts:95-127 | a stored definition opens exactly when its metadata is clean, its times are in order and its document passes |
| SaveLoadLaws.OpenedTellsDocument | frontend/src/workflowPersistence.ts:151-181 | what opens has exactly the nodes and edges of the document, nodes at their catalogue places, nothing selected |
| SaveLoadLaws.FingerprintTellsDraft | frontend/src/workflowPersistence.ts:259-279 | drafts with one fingerprint have the same metadata, and the same nodes and edges but for positions and order |
| WorkflowRoundTrip.SaveLoadRoundTrip | frontend/src/workflowPersistence.ts:151-279 | a saved draft opens with the same fingerprint and compiles to the same document up to node order; the order is kept too exactly when it was the catalogue order |
| WorkflowRoundTrip.OpenedIsTidy | frontend/src/workflowPersistence.ts:151-181 | a stored document opens as a state that satisfies the editor's invariants, and keeps them under every later sequence of edits |
| Sorting.SortForgetsOrder | frontend/src/workflowPersistence.ts:265-277 | sorting different comparable rows gives the same list whatever order they came in |
| BarBuilder.OpenBar.Update | backend/src/trading_oms_backend/bar_builder.py:65-70 | an open bar that describes a run describes the run with one more event |
| BarBuilder.OpenBar.CloseBar | backend/src/trading_oms_backend/bar_builder.py:72-85 | the closed bar is the bar of the run it describes |
| BarBuilder.RunsSnoc | backend/src/trading_oms_backend/bar_builder.py:99-128 | one more event extends the last run or starts a new one, by its bucket alone |
| BarBuilder.BuildBars | backend/src/trading_oms_backend/bar_builder.py:88-128 | the loop returns the bars of the maximal bucket runs, or the fault of the first bad event |
| BarBuilder.BuildTimeBars | backend/src/trading_oms_backend/bar_builder.py:88-128 | which configuration errors are raised, and otherwise the result of the loop |
| BarLaws.PayloadIsReadExactly | backend/src/trading_oms_backend/bar_builder.py:178-237 | which payloads can be used, and that the price is the trade's, the bid, the ask or their mean, and the volume the size, else the volume, else nothing |
| BarLaws.PayloadErrorExactly | backend/src/trading_oms_backend/bar_builder.py:178-237 | which error every other payload gives |
| BarLaws.FaultExactly | backend/src/trading_oms_backend/bar_builder.py:99-113 | exactly when an event is refused for its symbol or its time |
| BarLaws.BuiltExactlyInGoodOrder | backend/src/trading_oms_backend/bar_builder.py:88-128 | the builder succeeds exactly on usable events of one symbol that never go back in time |
| BarLaws.BarsTellTheirEvents | backend/src/trading_oms_backend/bar_builder.py:65-128 | bar by bar: open, close, high, low, volume and count are those of one unbroken part of the events, all of the bucket, with its neighbours outside, the parts covering everything in order |
| BarProperties.RunsPartition | backend/src/trading_oms_backend/bar_builder.py:99-128 | the runs put end to end are the events, cut wherever the bucket changes and nowhere else |
| BarProperties.SplitAtBoundary | backend/src/trading_oms_backend/bar_builder.py:88-128 | over a bucket boundary the builder succeeds exactly when it does on both parts and the second follows on in time, and then gives the bars of the first and then the second |
| BarProperties.BarsConserve | backend/src/trading_oms_backend/bar_builder.py:65-85 | event counts and volumes of the bars sum to those of the events |
| BarProperties.ExtremesAreAttained | backend/src/trading_oms_backend/bar_builder.py:65-70 | high and low bound every price of the run and are prices of the run |
| BarProperties.BarsAreASeries | backend/src/trading_oms_backend/bar_builder.py:72-128 | starts are multiples of the timeframe, each bar ends no later than the next starts, and low <= open, close <= high |
| BarProperties.ContainmentIsExact | backend/src/trading_oms_backend/bar_builder.py:240-243 | an instant lies in its bucket exactly when it is not a fractional instant before the epoch whose truncated second is a multiple of the timeframe |
| BarProperties.FractionBeforeEpochEscapes | backend/src/trading_oms_backend/bar_builder.py:240-243 | a concrete instant before the epoch that lies outside its own bucket |
| BarProperties.EventsLieInTheirBars | backend/src/trading_oms_backend/bar_builder.py:72-128 | each event lies in the half-open span of the bar its run becomes, always from the epoch on and exactly by that condition before it |
| BarProperties.ValidateOrder | backend/src/trading_oms_backend/market_data_replay.py:144-156 | accepts exactly events numbered 1, 2, 3, ... whose times never step back |
| BarProperties.ReplayNeverOutOfOrder | backend/src/trading_oms_backend/market_data_replay.py:144-156 | the bar builder's own ordering error cannot occur on replayed events |
| BlobBatch.GitBlobBatch | backend/src/trading_oms_backend/independent_review_packet.py:422-444 | the cursor loop is the recursive reading of one frame per requested id with nothing left over |
| BlobBatchLaws.SizeIsReadExactly | backend/src/trading_oms_backend/independent_review_packet.py:432-435 | a size is read exactly when it is a numeral with an optional sign between blanks, digits with single underscores between, and as what that stands for |
| BlobBatchLaws.UnderscoresAreIgnored | backend/src/trading_oms_backend/independent_review_packet.py:432-435 | underscores do not change what the digits mean |
| BlobBatchRoundTrip.RoundTrip | backend/src/trading_oms_backend/independent_review_packet.py:422-444 | printed contents of any bytes, newlines included, are read back exactly |
| BlobBatchRoundTrip.AcceptsExactlyPrintings | backend/src/trading_oms_backend/independent_review_packet.py:422-444 | outputs accepted with canonical sizes are exactly the printed encodings for the requested ids |
| BlobBatchRoundTrip.NegativeSizeIsAccepted | backend/src/trading_oms_backend/independent_review_packet.py:432-441 | a concrete output with a negative size that is accepted |
| ApprovalTickets.RunSnoc | backend/src/trading_oms_backend/approval_tickets.py:416-502 | the book's fields after a call are the journal folded onto the restored tickets, whenever tickets were restored |
| ApprovalTickets.RestoringCommutes | backend/src/trading_oms_backend/approval_tickets.py:456-467 | restoring a ticket before or after any journaled events makes the same book |
| ApprovalTickets.RunsAreSound | backend/src/trading_oms_backend/approval_tickets.py:162-195 | in every run each ticket is valid under its own id, meets the expiry rule of its status, and agrees with its records |
| ApprovalTickets.DecidedExactlyOnce | backend/src/trading_oms_backend/approval_tickets.py:469-502 | a ticket is no longer pending exactly when one decision record names it, and then only that one does |
| ApprovalTickets.LaterBooksExtend | backend/src/trading_oms_backend/approval_tickets.py:416-502 | whatever calls follow, a decided ticket never changes again, and no request, created ticket or record is rewritten |
| ApprovalTickets.RepeatedCreateIsHistory | backend/src/trading_oms_backend/approval_tickets.py:420-424 | a creation that succeeded is answered with the same ticket ever after and changes neither state nor journal |
| ApprovalTickets.RepeatedDecisionIsHistory | backend/src/trading_oms_backend/approval_tickets.py:473-477 | a decision that succeeded is answered with the same record ever after and changes neither state nor journal |
| ApprovalTickets.RunsDecideOnce | backend/src/trading_oms_backend/approval_tickets.py:469-502 | journaled decisions and the book's records are the same, and no two share a decision id or a ticket |
| ApprovalLaws.CreationExactly | backend/src/trading_oms_backend/approval_tickets.py:416-454 | exactly when a creation is new, repeated or refused; a new ticket carries its request and awaits a decision |
| ApprovalLaws.RestorationExactly | backend/src/trading_oms_backend/approval_tickets.py:456-467 | exactly when a restoration is refused and why |
| ApprovalLaws.DecisionRefusedExactly | backend/src/trading_oms_backend/approval_tickets.py:469-533 | exactly which refusal a decision meets, in the times and status of its ticket |
| ApprovalLaws.DecisionCarriesRequest | backend/src/trading_oms_backend/approval_tickets.py:535-559 | a new decision gives ticket and record its own id, time, actor, reference and reason, and changes no order field |
| ApprovalLaws.TicketsAreAsAsked | backend/src/trading_oms_backend/approval_tickets.py:416-559 | in every run each ticket has the order fields and times of the creation or restoration that entered it, and awaits a decision or carries exactly those of one that was asked for |
| ApprovalLaws.JournalIsAsAsked | backend/src/trading_oms_backend/approval_tickets.py:446-502 | everything a run journals is a creation or a decision that was asked for, field by field |
| ApprovalLaws.TicketsAreWhole | backend/src/trading_oms_backend/approval_tickets.py:162-195 | in every run each ticket is named, for a quantity, over a span of time, and decided within it or expired after it |
| ApprovalTickets.ApprovalTicketBook.constructor | backend/src/trading_oms_backend/approval_tickets.py:408-414 | an empty book beside the journal's earlier records |
| ApprovalTickets.ApprovalTicketBook.CreateTicket | backend/src/trading_oms_backend/approval_tickets.py:416-454 | one call more in the run: a new pending ticket, the earlier one, or a conflict |
| ApprovalTickets.ApprovalTicketBook.RestorePendingTicket | backend/src/trading_oms_backend/approval_tickets.py:456-467 | one call more in the run, with no journal entry: refused when decided or conflicting |
| ApprovalTickets.ApprovalTicketBook.ApplyDecision | backend/src/trading_oms_backend/approval_tickets.py:469-502 | one call more in the run: the earlier record, a conflict, a refusal, or a new decision |
| ApprovalTickets.ApprovalTicketBook.ValidateDecision | backend/src/trading_oms_backend/approval_tickets.py:504-533 | the pending ticket when the decision is timely, otherwise which refusal; nothing changes |
| ApprovalTickets.ApprovalTicketBook.CurrentTicket | backend/src/trading_oms_backend/approval_tickets.py:515-519 | the valid ticket under a known id, and which error otherwise |
| ApprovalReload.DecisionReloadsExactly | backend/src/trading_oms_backend/approval_tickets.py:361-404 | a decision on a pending ticket passes the record's reading checks exactly when the ticket agrees with its creation request |
| ApprovalReload.JournalReloads | backend/src/trading_oms_backend/approval_tickets.py:221-280 | when restored tickets agree with their creation requests, everything a run journals can be read back |
| EmergencyStop.RunsChain | backend/src/trading_oms_backend/emergency_stop.py:191-273 | in every run distinct changes alternate and chain from the initial state, no event id repeats, and the state is the last change's |
| EmergencyStop.ReplayedChangeIsHistory | backend/src/trading_oms_backend/emergency_stop.py:194-198 | a change already made is answered from history and alters neither state nor journal |
| StopLaws.SafeTextExactly | backend/src/trading_oms_backend/emergency_stop.py:313-323 | which texts the service accepts, told by their characters and parts |
| StopLaws.ChangeExactly | backend/src/trading_oms_backend/emergency_stop.py:191-273 | exactly when a change is refused or answered from history, and who, when and why the state after a new one tells |
| StopLaws.ChangeIsKept | backend/src/trading_oms_backend/emergency_stop.py:229-231 | a new change sets the state and is kept under its event id, and nothing else moves |
| StopLaws.CheckExactly | backend/src/trading_oms_backend/emergency_stop.py:275-305 | a check passes exactly while inactive and well named, and is journaled exactly when the stop refuses it |
| StopLaws.StateTellsItsChanges | backend/src/trading_oms_backend/emergency_stop.py:191-273 | in every run each distinct change was asked for, and the state it left names its own actor, time and reason beside the activation before it |
| EmergencyStop.EmergencyStopService.constructor | backend/src/trading_oms_backend/emergency_stop.py:181-186 | the service starts inactive with no changes |
| EmergencyStop.EmergencyStopService.Activate | backend/src/trading_oms_backend/emergency_stop.py:191-231 | one call more in the run: history, a conflict, already active, or a new change |
| EmergencyStop.EmergencyStopService.Deactivate | backend/src/trading_oms_backend/emergency_stop.py:233-273 | one call more in the run: history, a conflict, not active, or a new change |
| EmergencyStop.EmergencyStopService.EnsureRiskIncreasingAllowed | backend/src/trading_oms_backend/emergency_stop.py:275-305 | one call more in the run: refused for unsafe texts, or, with a journal entry, while active |
| SimulationApp.ApprovalNeedsInactiveStop | backend/src/trading_oms_backend/app.py:866-902 | a step that approves a ticket is an approve call on that ticket while the stop is inactive, and leaves it inactive |
| SimulationApp.NothingApprovedWhileStopped | backend/src/trading_oms_backend/app.py:866-974 | over any interleaving of calls the set of approved tickets does not change while the stop stays active |
| SimulationApp.RunsAskValidly | backend/src/trading_oms_backend/app.py:887-901 | every run of the routes leaves a sound ticket book |
| SimulationApp.LockedExactlyWhen | backend/src/trading_oms_backend/app.py:877-886 | an operator's approval is refused as locked exactly while the stop is active or when a field is one the stop service does not accept |
| SimulationApp.OnlyTheDemoTicket | backend/src/trading_oms_backend/simulation_approval_service.py:31-36 | whatever is called, the book holds the demo ticket and no other |
| SimulationApp.DecisionsInRuns | backend/src/trading_oms_backend/app.py:866-902 | after any run, decisions on other tickets are refused, rejections as bad requests, and an approval of the demo ticket is locked exactly while the stop is active, without a time, or for an actor the stop service does not accept |
| SimulationApp.BlockedApprovalIsJournaled | backend/src/trading_oms_backend/app.py:877-886 | a well-formed approval refused by an active stop leaves one blocked entry and does not reach the book |
| StopLaws.OnlyTheOperatorActs | backend/src/trading_oms_backend/app.py:866-876 | a body in another name is refused and reaches neither service |
| StopLaws.DecisionTakesEffect | backend/src/trading_oms_backend/app.py:887-902 | a newly successful decision has approved or rejected its ticket, with the body's fields and in the operator's name |
| StopLaws.StopChangeTakesEffect | backend/src/trading_oms_backend/app.py:946-974 | a newly successful stop change has set the stop as asked, in the operator's name |
| SimulationApp.App.constructor | backend/src/trading_oms_backend/simulation_approval_service.py:31-36 | both services start afresh and the book holds its demo ticket |
| SimulationApp.App.ApplyDecision | backend/src/trading_oms_backend/app.py:866-902 | one call more in the run of the composed system, with the reply of the route |
| SimulationApp.App.ApplyStopChange | backend/src/trading_oms_backend/app.py:946-974 | one call more in the run of the composed system, with the reply of the route |
| ReadSnapshot.ValidateSnapshot | frontend/src/readApiClient.ts:951-1243 | accepts exactly the snapshots that claim nothing or satisfy every join of a durable one |
| ReadSnapshotLaws.AcceptedExactly | frontend/src/readApiClient.ts:951-1243 | a snapshot is accepted exactly when it claims nothing durable, or every list and record of it holds, told record by record in fields |
| ReadSnapshotLaws.TicketsTellTheirRuns | frontend/src/readApiClient.ts:1059-1094 | in an accepted durable snapshot a ticket is pending, rejected or approved exactly as its run waits, was rejected or went on, its decision agrees, every risk decision passed and every signal is a long entry candidate |
| ReadSnapshotLaws.TicketExactly | frontend/src/readApiClient.ts:1074-1094 | a ticket fits exactly when its ids and its status agree with its run |
| ReadSnapshotLaws.DecisionExactly | frontend/src/readApiClient.ts:1245-1333 | a decision attribution is valid exactly when its identities, status, decision, evidence and event references hold, in fields |
| ReadSnapshotLaws.ExecutionExactly | frontend/src/readApiClient.ts:1350-1402 | the same for an execution attribution |
| ReadSnapshotLaws.ReferencesExactly | frontend/src/readApiClient.ts:1404-1417 | a manifest is valid exactly when it lists the references of ever larger positive numbers |
| ReadSnapshotLaws.EventExactly | frontend/src/readApiClient.ts:1113-1132 | an audit event fits exactly when it repeats its run, ticket and order and is on the manifest |
| ReadSnapshotLaws.ManifestExactly | frontend/src/readApiClient.ts:1133-1141 | a run's events cover its manifest exactly when the same references occur in both |
| ReadSnapshotLaws.LineageExactly | frontend/src/readApiClient.ts:1161-1178 | an execution fits exactly when a ticket of its executed run has its lineage |
| ReadSnapshotLaws.RecordsExactly | frontend/src/readApiClient.ts:1161-1216 | orders, positions, alerts and events fit exactly when they repeat the ids of their executions |
| ReadSnapshotLaws.SourcesExactly | frontend/src/readApiClient.ts:952-1036 | which sources and classifications the seven lists may have |
| ReadSnapshot.IndexSignals | frontend/src/readApiClient.ts:1045-1058 | refuses ill-fitting and repeated signals, and otherwise indexes them by run |
| ReadSnapshot.IndexRisks | frontend/src/readApiClient.ts:1059-1073 | refuses ill-fitting and repeated risk decisions, and otherwise indexes them by run |
| ReadSnapshot.IndexTickets | frontend/src/readApiClient.ts:1074-1094 | refuses ill-fitting and repeated tickets, and otherwise indexes them by run |
| ReadSnapshot.CheckRuns | frontend/src/readApiClient.ts:1094-1112 | true exactly when the three lists name the same runs with equal attributions |
| ReadSnapshot.CheckAudit | frontend/src/readApiClient.ts:1113-1141 | true exactly when every event fits its run and every run's events are its manifest |
| ReadSnapshot.CheckExecutionRecords | frontend/src/readApiClient.ts:1161-1216 | true exactly when every execution record repeats the lineage of an executed run and its own ids |
| ReadSnapshot.CheckExecutionIdentities | frontend/src/readApiClient.ts:1217-1242 | true exactly when orders, positions, alerts and audit events name the same executions, the first three once each, and sequences do not repeat |
| ReadSnapshot.SameStringSetIsEquality | frontend/src/readApiClient.ts:1419-1426 | comparing sizes and one inclusion is comparing sets |
| ReadSnapshotShape.OneToOneByRun | frontend/src/readApiClient.ts:1042-1112 | in an accepted durable snapshot signals, risk decisions and tickets correspond one to one by run and partners carry equal attributions |
| ReadSnapshotShape.AuditCount | frontend/src/readApiClient.ts:1113-1141 | there is an audit event for every manifest entry, and exactly as many exactly when no event repeats |
| ReadSnapshotShape.ExecutionModeCountsExactly | frontend/src/readApiClient.ts:1231-1242 | in execution mode the number of audit events is the sum of the manifest sizes |
| ReadSnapshotShape.ManifestsAreDisjoint | frontend/src/readApiClient.ts:1231-1242 | in execution mode manifests of different runs share no entry |
| ReadSnapshotShape.ExecutionsPair | frontend/src/readApiClient.ts:1159-1242 | in execution mode orders, positions and alerts correspond one to one by execution, each of an executed run and with an audit event |
| ReadSnapshotShape.RepeatedEventIsAccepted | frontend/src/readApiClient.ts:1113-1152 | outside execution mode an accepted snapshot stays accepted when an audit event is listed twice |
| ReadSnapshotExample.ExecutionModeIsReachable | frontend/src/readApiClient.ts:951-1243 | a concrete snapshot of one executed run is accepted in execution mode |
| ReadSnapshotExample.LifecycleModeIsReachable | frontend/src/readApiClient.ts:1142-1152 | a concrete snapshot of a waiting run is accepted outside execution mode, also with an event listed twice |
| ReadSnapshotExample.DecidedRunsAreReachable | frontend/src/readApiClient.ts:1074-1094 | concrete snapshots of a rejected and of an approved run are accepted, and refused when the ticket shows the other outcome |
| ReadSnapshotShape.ReferenceReadsBack | frontend/src/readApiClient.ts:1341-1348 | the reference of a positive sequence number is well formed and its number is read back from it |
| ReadSnapshotShape.ReferenceIsInjective | frontend/src/readApiClient.ts:1113-1126 | no two sequence numbers share a journal reference |

## Left out

- SimpleWorkflow.Validate: fixes the set of reported problems, not their order, their messages or how often one is repeated, because validity depends on the set alone.
- TypedWorkflow.SiftConnections: ports named like inherited object members ("toString", "constructor") resolve in the source and are not reported as unknown; the topology check still rejects such graphs.
- TypedWorkflow.Validate: fixes the set of reported problems, not their order, messages or repetition; the words of the error codes are constructors.
- ReadSnapshot.ValidateSnapshot: says exactly when a snapshot is accepted, not which of several errors is raised first.
- ReadSnapshot.IndexSignals: attributions are compared field by field; the comparison in the source also fixes the order of JSON keys.
- ReadSnapshotShape.ReferenceIsInjective: sequence numbers and the numbers in references are exact integers; rounding of numbers above 2^53 is not modelled.
- BarProperties.BarsConserve: prices and volumes are real numbers; binary floating-point rounding is not modelled, and volume conservation is not exact under it.
- PaperAdapter.Adapter.constructor: the adapter is the only writer of its journal and starts beside a contiguous one; a journal damaged or extended by others during a run, and a failing append in the middle of a call, are not modelled.
- PaperAdapter.Adapter.ProbeLocalConnectivity: the default connector that opens a socket is not modelled; any connector answers with success, a timeout, an operating-system error or another failure.
- PaperAdapter.Adapter.LookupContract: connector exceptions outside the four kinds the code distinguishes are not modelled.
- Identifiers.PrefixedIdentifierIsValid: letter case is ASCII and blanks are those of ASCII and Latin-1; other Unicode case mappings and blanks are not modelled.
- WorkflowPersistence.ValidateDocument: object shapes (missing or extra keys, wrong JSON types) are fixed by the data types; letter case in the forbidden-token check is ASCII.
- WorkflowEditor.EditsKeepTidy: titles, details, badges and roles of nodes, which follow their type, are not part of the model.
- BlobBatch.GitBlobBatch: the git subprocess and its exit status are not modelled, nor Python's limit on the number of digits in an integer.
- SimulationApp.App.ApplyStopChange: disarming the workspace engine after a change is not modelled, because that engine is not part of this model.
- SimulationApp.App.ApplyDecision: authentication, headers and HTTP details other than the status class are not modelled.
- ApprovalTickets.ApprovalTicketBook.CreateTicket: fields that validation fixes to one value (schema version, risk result, order state) are not repeated in the data.
- JSON text, file handles, locks, clocks and sockets: payloads are values, the journal is a sequence, and times are parameters.
- Derived reasons of connection records are constructors that carry the status they are built from; their texts are built from its words.
- Node types and ports of the typed graph are enumerations with an open case, and edge keys are tuples instead of joined texts.
- The HTTP envelope check that precedes snapshot validation, the request clients, panels and canvases.
- Alerts, the fake broker beyond its order request, live readiness, configuration and the strategy builder: they repeat the patterns proved here in simpler form.
- The workspace engine, the order-management store, the risk engine and the database layer are not part of this model.
