# Verified model of the monitoring platform's stateful cores

This project models the parts of the network monitoring platform whose behaviour depends on
state kept over many operations, and proves what those parts promise over every run. Each core
has a specification made of plain functions on values; the loops and the objects of the platform
are Dafny methods and classes proved against it, and the promises are lemmas about it.

`dafny verify dfyconfig.toml` checks everything.

## The cores

**Topology map** (`Hops`, `Graphs`, `Levels`, `LongestPath`, `Downstream`, `ParentForest`,
`TopologyModel`, `TopologyGraph`, `TopologyFacts`, `TopologyRuns`, `TopologyStatus`,
`TopologyAcyclic`, `TopologyContents`). The map is rebuilt by merging stored traceroutes and manual parent links,
rewritten by subnet clustering, and edited in place by new routes and status changes. `TopologyManager` keeps the node, edge and child
index fields of the original; its three public operations keep the index equal to the adjacency of
the edges, the cache equal to the graph, the edge ends on the map, the root without source and no
transit node without a route that names it. The main result, `MonitoredStayReachable`, needs a rank
for every endpoint: an endpoint hangs on the root, or on an endpoint of lower rank, by a path whose
transit nodes its own route names, and a path update makes its endpoint the lowest of all. The level
pass is proved to compute longest paths, and to leave out exactly the nodes behind a cycle;
`RebuiltAcyclicIff` says which inventories give a map without cycles. `TopologyContents` says node by
node and edge by edge what each operation leaves on the map.

**Flow aggregation** (`FlowCounters`, `FlowAggregator`, `FlowAccounts`). Two accumulators are snapshotted,
committed and deducted while the consumer keeps adding. A run is any sequence of steps; the history
of accepted messages splits at three marks (deducted, taken, acknowledged), and the invariant says
what the accumulators, the tables and the pending list hold relative to them. An undisturbed flush
is proved to leave nothing behind. `FlowAccounts` states the contents of tables and accumulators as
counts over the accepted flows, by the columns of a row.

**Endpoint states and the event ledger** (`Debounce`, `EventLedger`). The N-cycle confirmation is
reduced to a function of the whole classification history, and the rows it drives are proved to form
a chain without overlaps, with exact accounting of cycles, successes and failures.

**Flow decoding** (`Wire`, `FlowRecords`, `FlowSets`, `FlowStreams`, `FlowOrphans`, `FlowWire`,
`FlowFormats`, `FlowV5`). NetFlow v9 and IPFIX share one model with a dialect parameter; `FlowParser` keeps the
template cache and the orphan buffers. Payloads are byte sequences and the clock is an argument of
each packet. Round trips are proved from records to datagram bytes and back; v5 is proved to agree
with v9 under the v5 layout. `FlowFormats` states what given bytes decode to in the formats' own
numbers.

**Alert throttling** (`Alerts`, `AlertRules`). The dispatcher with its pruned caches is proved to answer
as a ledger that never forgets anything, and each answer is characterised by the events and answers
before it.

`Options` and `Collections` hold the optional value and a few facts about sequences and sets.

## Reading notes

- The string identifiers of map nodes (`root`, an endpoint id, `transit:…`, `anon_…_to_…`,
  `subnet:…`) are the five constructors of `NodeId`; the spellings of different kinds do not collide.
  The `state` and `status` entries of a node always carry the same text and are one value here; the
  level of a node is kept in a map of its own.
- The comment at `backend/app/services/topology.py:497` says that pruning the incoming edges leaves
  an endpoint with one parent. That holds exactly when the new route always enters the endpoint from
  one node (`SoleParentAfterUpdate`); a route that passes the endpoint's own address midway leaves
  two parents (`TwoParents`).
- `INFERRED_DOWN` is set but never cleared between rebuilds (`MarkSticks`), so the equivalence with
  "everything behind it is down" is stated for the rebuild (`RebuildInfersExactly`).
- A confirmation threshold below 2 acts as 2: a first differing cycle only opens the pending state.
- A decoded flow can start after its end (`LongFlowEndsBeforeStart`). With `a` and `b` the ages of its
  first and last packet as the decoder sees them, the start is no later than the end exactly when `b`
  is past 30 days, or `a` is and `b` is 0, or `b <= a` and `a` is not (`RawStartBeforeEnd` for v9,
  which also covers the negative ages of wide fields, `V5StartBeforeEnd` for v5); the ages seen are the true ones modulo 2^32 ms (`StartBeforeEnd`).
- A v9 time field may have any length the template announces, so its value need not fit the 32-bit
  uptime. A flow is dated in the 30 days before export exactly when both its uptimes are at most 2^32
  ahead of the uptime at export (`RawInWindow`): always with fields of at most four bytes
  (`SetInWindow`), not with an eight-byte field (`WideStartLeavesWindow`).
- The class comment that calls the map a DAG (`backend/app/services/topology.py:49`) does not hold for
  every inventory: two rows whose paths pass the same two nodes in opposite order close a cycle
  (`OppositeOrders`, with an inventory in `SwappedInventoryCycles`).
- A restart that finds an unresolved gap closes recent rows at the gap's start, also rows that started
  later; these then end before they start and stay in the table (`OldGapEndsBeforeStart`). The rows of
  a run form a chain exactly when no restart finds such a gap (`ChainIffGapsFit`).
- An alert without an endpoint is limited under a text made of its kind and name; two such alerts share
  a limit without being alike when a kind holds a colon (`KindsWithColonsClash`). `LimitedExactly`
  takes kinds without colons and endpoint ids that do not begin like such a text.
- A template of total length 0 takes its waiting data sets out of the buffer without decoding them.
  `TemplateOrderIrrelevant` therefore asks for a template with at least one byte of record.
- The wait for a ping result, a database answer or a provider is a parameter of the step that uses it.

## Model

| member | source | states |
|---|---|---|
| Hops.Sanitize | backend/app/services/diagnostics.py:71-123 | the in-place loop with its last-was-silent flag yields the normal form of the hop list |
| Hops.CollapsedShape | backend/app/services/diagnostics.py:91-106 | collapsing leaves no two silent hops in a row, keeps every answering hop in order, and keeps how the list ends |
| Hops.SanitizedIsNormal | backend/app/services/diagnostics.py:71-123 | the result has no silent pair, ends in an answering hop or in the target, and keeps all answers in order with at most the target added |
| Hops.CollapsedFrom | backend/app/services/diagnostics.py:91-106 | every hop of the clean list is an answering hop unchanged, or the first of a silent run with its number and nothing else |
| Hops.TargetAppended | backend/app/services/diagnostics.py:108-123 | a missing target is appended and numbered after the last hop, or by the length when that hop has no number |
| Hops.SanitizedIdempotent | backend/app/services/diagnostics.py:71-123 | sanitizing twice is sanitizing once, for every list and target |
| Levels.AssignLevels | backend/app/services/topology.py:384-410 | on any graph without an edge into the root the queue pass terminates, expands each node at most once, relaxes each edge at most once, and gives every node the level its expanded sources demand |
| LongestPath.PathsClimb | backend/app/services/topology.py:398-407 | along any path into an expanded node the levels rise by at least one per edge |
| LongestPath.LevelIsLongestPath | backend/app/services/topology.py:595-620 | an expanded node's level is attained by a path from a node without source and exceeded by none |
| LongestPath.UnexpandedIffBehindCycle | backend/app/services/topology.py:595-620 | a node is left to its default level if and only if a cycle leads to it |
| LongestPath.DefaultLevel | backend/app/services/topology.py:407-410 | a node all of whose sources lie behind cycles keeps level 1 |
| LongestPath.AcyclicLevels | backend/app/services/topology.py:384-410 | on an acyclic map every node gets exactly its longest path length |
| TopologyAcyclic.RebuiltAcyclicIff | backend/app/services/topology.py:259-379 | the rebuilt map, hubs included, is acyclic if and only if one ranking of the nodes is climbed by every manual link and every step of every stored route |
| TopologyAcyclic.RankedLevels | backend/app/services/topology.py:384-410 | for such an inventory the levels of the rebuild are the longest path lengths of all nodes |
| TopologyAcyclic.OppositeOrders | backend/app/services/topology.py:259-338 | if the paths of two rows, manual links or stored routes of any shape, pass the same two nodes in opposite order, the rebuilt map has a cycle |
| TopologyAcyclic.SwappedInventoryCycles | backend/app/services/topology.py:49-55 | a concrete inventory whose rebuilt map is not the DAG the source speaks of |
| Downstream.Search | backend/app/services/topology.py:433-443 | the recursive search with a shared visited set finds only nodes reachable through non-monitored ones and leaves no branch of what it visited unexplored, on cyclic graphs too |
| Downstream.AllDownstream | backend/app/services/topology.py:433-443 | a search from scratch returns exactly the monitored nodes reachable through non-monitored intermediates, in whatever order children are taken |
| ParentForest.DetectParentCycle | backend/app/repositories/endpoint_repo.py:368-395 | terminates on every parent map and answers true if and only if the new link would put the endpoint on an endless parent chain |
| ParentForest.PatchParent | backend/app/routers/endpoints.py:469-481 | the link is stored if and only if the endpoint's chain of parents then ends; otherwise nothing changes |
| ParentForest.RunKeepsForest | backend/app/routers/endpoints.py:469-481 | any run of checked parent changes keeps an acyclic parent relation acyclic |
| TopologyGraph.StitchRoute | backend/app/services/topology.py:280-338 | stitching one route adds the edges of its path and nothing else, to the edge set and the child index alike, and creates or marks exactly the route's transit nodes |
| TopologyGraph.MergeRows | backend/app/services/topology.py:238-338 | the merged graph is the union over all rows of the manual link or the stitched path, independent of row order |
| TopologyGraph.ClusterSubnets | backend/app/services/topology.py:340-379 | networks with two or more direct endpoints get a hub between the root and those endpoints; every other edge stays |
| TopologyGraph.PropagateInferredDown | backend/app/services/topology.py:432-459 | the node-by-node marking equals marking all qualifying routers at once, so the iteration order does not matter |
| TopologyGraph.ActiveTransit | backend/app/services/topology.py:560-572 | collects exactly the transit nodes that some stored route names |
| TopologyGraph.UnlinkIncoming | backend/app/services/topology.py:497-502 | removes exactly the edges into one node, from the edge set and the index |
| TopologyGraph.IndexEdges | backend/app/services/topology.py:587-591 | the rebuilt child index is the adjacency of the edges |
| TopologyGraph.TopologyManager.UpdateNodeStatus | backend/app/services/topology.py:461-478 | keeps index, cache and levels in step and turns the map into the status update of the old map; disabled and unknown nodes change nothing |
| TopologyGraph.TopologyManager.UpdateEndpointPath | backend/app/services/topology.py:480-626 | keeps index, cache and levels in step and turns the map into the path update of the old map |
| TopologyGraph.TopologyManager.FullRebuild | backend/app/services/topology.py:99-430 | leaves index, cache and levels in step and the map equal to the rebuild of the inventory |
| TopologyFacts.PathUpdateSane | backend/app/services/topology.py:491-591 | after a path update every edge joins two nodes of the map, none enters the root, and no transit node is there unless a sanitized stored route names it |
| TopologyFacts.StatusUpdateSane | backend/app/services/topology.py:461-478 | a status update keeps the same facts and the set of nodes |
| TopologyFacts.RebuildSane | backend/app/services/topology.py:225-426 | the same facts hold after a rebuild of any inventory |
| TopologyRuns.FreshPathSurvives | backend/app/services/topology.py:504-585 | every node and edge of the freshly stitched path survives the ghost pruning of the same update |
| TopologyRuns.SupportedReachable | backend/app/services/topology.py:480-591 | ranked supports lead every monitored node back to the root |
| TopologyRuns.PathUpdateSupported | backend/app/services/topology.py:480-591 | a path update keeps all supports once its endpoint is made the lowest in rank |
| TopologyRuns.RebuiltSupported | backend/app/services/topology.py:259-379 | a rebuild with acyclic manual parents supports every monitored node, through hubs where clustered |
| TopologyRuns.RunKeepsSupports | backend/app/services/topology.py:461-591 | any run of status and path updates keeps a supported, sane map supported and sane |
| TopologyRuns.MonitoredStayReachable | backend/app/services/topology.py:259-591 | from a rebuild with acyclic manual parents, no run of status and path updates cuts a monitored node off the root |
| TopologyStatus.PropagationExact | backend/app/services/topology.py:445-459 | a router reads INFERRED_DOWN if and only if it did before, or is no failure point and has monitored nodes behind it that are all down; failure points are untouched |
| TopologyStatus.PropagationIdempotent | backend/app/services/topology.py:432-459 | propagating twice is propagating once |
| TopologyStatus.RebuildInfersExactly | backend/app/services/topology.py:301-322 | after a rebuild a router is a failure point if and only if its address failed, and otherwise INFERRED_DOWN if and only if everything behind it is down and something is |
| TopologyStatus.MarkSticks | backend/app/services/topology.py:461-593 | incremental updates never clear the mark of a router that stays on the map |
| TopologyStatus.ParentsAfterUpdate | backend/app/services/topology.py:497-558 | the parents of an updated endpoint are exactly the nodes from which its new path enters it |
| TopologyStatus.SoleParentAfterUpdate | backend/app/services/topology.py:497-558 | the endpoint has one parent if and only if its new path enters it from one node only |
| TopologyStatus.TwoParents | backend/app/services/topology.py:497-558 | a concrete route after which the endpoint has two parents |
| TopologyStatus.CheckedParentsReachable | backend/app/services/topology.py:259-267 | parent links accepted by the cycle check make every monitored node reachable after a rebuild and any updates |
| TopologyContents.UnknownIgnored | backend/app/services/topology.py:461-470 | a status of an unknown or disabled node changes nothing |
| TopologyContents.StatusStored | backend/app/services/topology.py:470-473 | a status update stores exactly the new status at its node; other nodes keep theirs, except routers, which read INFERRED_DOWN exactly when they are no failure point and all endpoints behind them, at least one, are down |
| TopologyContents.BehindMeans | backend/app/services/topology.py:433-443 | behind a router are exactly the endpoints of the map reached by a path that passes no other endpoint of the map |
| TopologyContents.LastOneDown | backend/app/services/topology.py:445-459 | when the last endpoint behind a router goes down, the router reads INFERRED_DOWN unless it is a failure point |
| TopologyContents.HopIsNode | backend/app/services/topology.py:510-548 | which node a hop is: the endpoint with its address, else the router; a silent hop is the gap after the latest answer, of the endpoint's first eight characters |
| TopologyContents.GapsDiffer | backend/app/services/topology.py:513-514 | gaps behind answers of different routers are different nodes |
| TopologyContents.PathNodes | backend/app/services/topology.py:489-585 | the nodes, statuses and stored routes after a path update: which transit nodes come, stay and go, new ones UP, routers marked anew |
| TopologyContents.PathLinks | backend/app/services/topology.py:497-582 | the edges after a path update: the old ones not into the endpoint and the steps of the new path, between nodes on the map |
| TopologyContents.RebuiltRows | backend/app/services/topology.py:130-153 | rows out of discovery are off the map and ignored later; rows in it are on the map, and an address resolves to its latest row |
| TopologyContents.RowStatus | backend/app/services/topology.py:236-257 | a row reads its own state, or FAILURE_POINT exactly when it is DOWN or DOWN-UNSTABLE and its address or id is on an open incident |
| TopologyContents.RebuiltStatus | backend/app/services/topology.py:221-326 | the status of every kind of node after a rebuild, routers marked |
| TopologyContents.RebuiltLinks | backend/app/services/topology.py:259-379 | the edges of a rebuild, one by one: manual links, steps of routes, and hubs in place of the root links of networks with two direct endpoints |
| TopologyContents.RebuiltTransit | backend/app/services/topology.py:280-379 | the transit nodes of a rebuild are those on the routes of rows without a usable manual parent, the hubs those of crowded networks |
| FlowCounters.AccumulateConversation | monitoring/flow/aggregator.py:182-199 | adds the flow to its conversation entry, opening it when missing |
| FlowCounters.AccumulateInterfaces | monitoring/flow/aggregator.py:99-148 | credits ingress and egress as the code does, also when both are one interface, and notes the touched interfaces |
| FlowCounters.AccumulatedConversation | monitoring/flow/aggregator.py:193-199 | if the accumulator holds the sums of a history, after one flow it holds those of the longer history |
| FlowCounters.AccumulatedInterfaces | monitoring/flow/aggregator.py:118-148 | the same for interfaces, where one flow may touch one entry twice but counts once |
| FlowCounters.NoFlowsNoBytes | monitoring/flow/aggregator.py:357-358 | a sum with flow count 0 is 0 in every counter, so deleting an entry loses nothing |
| FlowCounters.Deduct | monitoring/flow/aggregator.py:351-369 | the deduction loop subtracts the snapshot entry by entry and drops exhausted entries |
| FlowCounters.DeductExact | monitoring/flow/aggregator.py:350-369 | deducting a snapshot leaves exactly the sums of the flows that came after it |
| FlowCounters.GroupRows | monitoring/flow/aggregator.py:226-260 | grouping by primary key yields one row per key with the total over its entries |
| FlowCounters.TotalIsRowSum | monitoring/flow/aggregator.py:230-254 | the entries of one row add up to the row's own sum over the flows |
| FlowCounters.GroupedHolds | monitoring/flow/aggregator.py:226-260 | the grouped batch holds exactly the row sums of the flows in the snapshot |
| FlowCounters.Upsert | monitoring/flow/aggregator.py:316-340 | the upsert adds each row to the table |
| FlowCounters.UpsertExact | monitoring/flow/aggregator.py:316-340 | upserting the rows of the next flows extends the table by exactly those flows |
| FlowAggregator.StepKeeps | monitoring/flow/aggregator.py:212-392 | every step, in any order the lock allows, keeps the invariant that ties accumulators, tables, snapshot and pending list to the history |
| FlowAggregator.ConversationsConserved | monitoring/flow/aggregator.py:193-199 | in every reachable state table plus accumulator equals the sum over all accepted flows plus a committed snapshot not yet deducted, for every row and counter |
| FlowAggregator.InterfacesConserved | monitoring/flow/aggregator.py:350-369 | the same conservation for the interface table and accumulator |
| FlowAggregator.AckedAreCommitted | monitoring/flow/aggregator.py:384-392 | acknowledged ids belong to messages whose flows are in the tables; the pending list is exactly the ids from a mark on, and all earlier ones are acknowledged |
| FlowAggregator.InterfacesRemembered | monitoring/flow/aggregator.py:371-381 | every interface touched by an accepted flow has been recorded or is waiting to be |
| FlowAggregator.FlushDrains | monitoring/flow/aggregator.py:212-392 | from any reachable state, a successful flush with no arrival in between leaves both accumulators and the pending list empty, the tables holding the whole history and every message acknowledged |
| FlowAccounts.Accounts | monitoring/flow/aggregator.py:156-392 | in every reachable state the tables count exactly a first part of the accepted flows and the accumulators exactly the rest: a row counts the flows whose own addresses, protocol, exporter, start minute and service port are its columns, an entry those of them between its two endpoints, an interface those entering and leaving it |
| FlowAccounts.RowSum | monitoring/flow/aggregator.py:171-199 | what the model adds up under a row key is the bytes, packets and number of the flows that have its columns |
| FlowAccounts.InterfaceSum | monitoring/flow/aggregator.py:99-148 | the same for an interface of an identified exporter, index 1 to 2^31 - 1, flows on both sides counted once |
| FlowAccounts.InterfacesKnown | monitoring/flow/aggregator.py:371-381 | the interfaces recorded or waiting are exactly those touched by an accepted flow |
| FlowAccounts.ChunkOf500 | monitoring/flow/aggregator.py:384-389 | a step acknowledges the next 500 ids, or what is left |
| FlowAccounts.FailuresWriteNothing | monitoring/flow/aggregator.py:342-392 | a failed commit, recording or acknowledgement leaves what it was to write |
| FlowAggregator.Aggregator.Consume | monitoring/flow/aggregator.py:420-462 | one message: the id is noted even when the flow is invalid, then the flow is counted |
| FlowAggregator.Aggregator.BeginFlush | monitoring/flow/aggregator.py:212-221 | takes the snapshots under the lock, or returns at once when there is nothing |
| FlowAggregator.Aggregator.Commit | monitoring/flow/aggregator.py:327-348 | writes both batches or neither; a failed commit leaves everything as it was and ends the flush |
| FlowAggregator.Aggregator.DeductCommitted | monitoring/flow/aggregator.py:350-369 | deducts both snapshots |
| FlowAggregator.Aggregator.RecordActive | monitoring/flow/aggregator.py:371-381 | records the snapshot of touched interfaces and forgets exactly those, or keeps them after an error |
| FlowAggregator.Aggregator.AcknowledgeChunk | monitoring/flow/aggregator.py:384-389 | acknowledges the next at most 500 ids of the snapshot |
| FlowAggregator.Aggregator.EndFlush | monitoring/flow/aggregator.py:390-392 | slices off exactly the snapshot's ids, or none after an error |
| Debounce.Cutoffs | monitoring/ping.py:169-204 | for every number of pings: Down exactly when none is answered, operationally up exactly from three fifths on, Up exactly when all are answered and not slower than the baseline bound |
| Debounce.MoreAnswersNeverWorse | monitoring/ping.py:169-204 | of as many pings with the same round-trip time, more answers never classify worse |
| Debounce.TrackerClosedForm | monitoring/state_machine.py:248-299 | confirmed state, pending state and count after any history: the latest value seen max(threshold, 2) times in a row, and the trailing run unless it is of that value |
| Debounce.ConfirmedWhen | monitoring/state_machine.py:270-299 | a change is confirmed if and only if the trailing run of a value other than the confirmed one reaches max(threshold, 2), and pending is never the confirmed value |
| Debounce.TrailingRunIsStable | monitoring/state_machine.py:272-299 | the run counter reaches n if and only if the last n classifications agree |
| EventLedger.StateMachine.InitializeEndpoint | monitoring/state_machine.py:108-146 | loads the state of the latest row, if any; in a chain of rows that is the row of strictly greatest start |
| EventLedger.StateMachine.CreateInitialEvent | monitoring/state_machine.py:148-232 | inserts one open row with the measured state and counts: Down exactly when no ping is answered, operationally up from three fifths on, Up exactly when all are answered in time |
| EventLedger.StateMachine.Confirm | monitoring/state_machine.py:255-428 | cases A, B1 and B2 of the confirmation |
| EventLedger.StateMachine.CloseOpen | monitoring/gap_handler.py:128-144 | closes exactly the open rows inside the window |
| EventLedger.StateMachine.ProcessCycle | monitoring/state_machine.py:430-667 | the rollover, update, replacement and transition branches on the row table |
| EventLedger.StateMachine.ResolveStartup | monitoring/gap_handler.py:102-144 | closes open rows of the last seven days at the start of the unresolved gap, or now if there is none, then reloads the state |
| EventLedger.CycleKeeps | monitoring/state_machine.py:430-667 | one cycle keeps the chain of rows and leaves the active row open, last, current and younger than a day |
| EventLedger.RestartKeeps | monitoring/gap_handler.py:102-144 | a restart keeps the chain of rows and the state that fits it whenever the open row in the window started before the closing time |
| EventLedger.RestartKeepsIff | monitoring/gap_handler.py:112-144 | a restart keeps the chain of rows if and only if no open row inside the window starts at or after the closing time |
| EventLedger.OldGapEndsBeforeStart | monitoring/gap_handler.py:112-144 | a concrete run in which a gap older than the open row gives that row an end before its start and a negative duration |
| EventLedger.ChainIffGapsFit | monitoring/gap_handler.py:102-144 | over any run with restarts and gaps, the rows form a chain if and only if every gap found at a restart opened after the start of the row open then; otherwise a row that ends no later than it starts stays in the table |
| EventLedger.LedgerSafe | monitoring/state_machine.py:430-667 | over every such run with restarts and gaps: at most one row is open and it is the last, rows never overlap, a state change leaves no gap, a row is split off exactly when it goes on without a gap in the same state and then from a row of at least 86400 s, durations are end minus start, and after a cycle the open row is the active one, carries the confirmed state, its duration so far and is younger than 86400 s |
| EventLedger.CountsAddUp | monitoring/state_machine.py:460-603 | over any run whatever, without condition on clock or gaps, cycle, success and failure counts of all rows add up to what the cycles delivered, rollover cycles counted on both rows |
| EventLedger.CyclesAddUp | monitoring/state_machine.py:460-666 | over any run whatever, the cycle counts of all rows equal processed cycles plus the number of split rows |
| EventLedger.MemoryIsTracker | monitoring/state_machine.py:248-428 | what gets confirmed depends on the classifications only, never on rows or timing |
| EventLedger.ConfirmedIsMeasured | monitoring/state_machine.py:148-428 | after any run, state and last row are the latest classification seen max(threshold, 2) times in a row since the first cycle or the restart, and before that the first cycle's classification or the last row's state |
| EventLedger.LastRowCounts | monitoring/state_machine.py:460-603 | the counts of the last row are those of the cycles since its start |
| EventLedger.CycleCounts | monitoring/state_machine.py:460-666 | a cycle is counted on the row it finds when the confirmed state stays, and on the row it opens |
| EventLedger.RestartCloses | monitoring/gap_handler.py:123-144 | a restart closes exactly the open rows that started in the 604800 s before its closing time, and forgets a pending change |
| EventLedger.ClosedRowsStay | monitoring/state_machine.py:430-667 | no step changes a closed row |
| Wire.EventTimeExact | monitoring/flow/v5_parser.py:82-92 | with both uptimes taken modulo 2^32, an event is dated at export time minus its true age if and only if that age is at most 30 days |
| Wire.EventTimeInWindow | monitoring/flow/v9_parser.py:250-258 | a decoded time lies in the 30 days before export if and only if the event's uptime is at most 2^32 ahead of the uptime at export |
| Wire.StartBeforeEnd | monitoring/flow/v9_parser.py:260-261 | for packets of any true ages, the start is dated no later than the end if and only if the two ages modulo 2^32 are in order |
| FlowRecords.DecodeRecord | monitoring/flow/v9_parser.py:199-245 | the field loop gives each field its own stretch of bytes, later fields winning |
| FlowRecords.DecodeSet | monitoring/flow/ipfix_parser.py:205-293 | the record loop terminates, stays in bounds and yields the flows of all whole records in order |
| FlowRecords.RecordRoundTrip | monitoring/flow/ipfix_parser.py:219-270 | decoding the encoding of a record that the template can express gives the record back |
| FlowRecords.SetRoundTrip | monitoring/flow/v9_parser.py:182-282 | a data set with padding shorter than a record yields exactly the flows of the encoded records in order |
| FlowRecords.RawInWindow | monitoring/flow/v9_parser.py:242-261 | a v9 flow lies in the 30 days before export if and only if both its uptimes, as far as sent, are at most 2^32 ahead of the uptime at export |
| FlowRecords.SetInWindow | monitoring/flow/v9_parser.py:242-261 | under a template whose time fields take at most four bytes, every flow of every data set lies in that window |
| FlowRecords.WideStartLeavesWindow | monitoring/flow/v9_parser.py:242-261 | a concrete data set whose eight-byte start field dates a flow after its export |
| FlowRecords.RawStartBeforeEnd | monitoring/flow/v9_parser.py:242-261 | a v9 flow, its times sent or not, starts no later than it ends if and only if the two ages are in order |
| FlowRecords.RawDatedExactly | monitoring/flow/v9_parser.py:242-261 | each end of a v9 flow is dated at export time minus the true age of its packet if and only if that age is at most 30 days, whatever the counters did in between |
| FlowFormats.LastFieldSets | monitoring/flow/ipfix_parser.py:219-263 | every value of a record is read from the bytes of the last field that sets it, by field number and, for addresses, length |
| FlowFormats.NoFieldSets | monitoring/flow/v9_parser.py:182-196 | a value that no field sets is missing or zero |
| FlowFormats.FlowCarriesRecord | monitoring/flow/ipfix_parser.py:267-293 | a record with both addresses is one flow with the record's values; missing times are the export time |
| FlowRecords.EnterpriseFieldsIgnored | monitoring/flow/ipfix_parser.py:224-225 | enterprise-numbered fields anywhere in a template change no decoded record |
| FlowRecords.EnterpriseSetsIgnored | monitoring/flow/ipfix_parser.py:195-293 | nor any flow of a whole data set |
| FlowSets.ParseField | monitoring/flow/ipfix_parser.py:139-151 | reads one field specification, with its enterprise number when marked |
| FlowSets.ParseFields | monitoring/flow/v9_parser.py:136-141 | the field loop reads at most the announced fields, in bounds, and stops early when the bytes run out |
| FlowSets.DrainBuffer | monitoring/flow/v9_parser.py:165-180 | drains the buffer from the front: fresh sets of the template decoded in order, fresh others kept in order, expired ones dropped |
| FlowSets.InstallRecords | monitoring/flow/ipfix_parser.py:127-164 | each complete template record is cached and drained before the next is read; incomplete ones are skipped |
| FlowSets.FlowParser.ParseDataSet | monitoring/flow/v9_parser.py:102-114 | decodes under a cached template or pushes to the ring buffer of 100 |
| FlowSets.FlowParser.ParseTemplateSet | monitoring/flow/v9_parser.py:120-151 | caches and drains record by record on the state of the parser |
| FlowSets.FlowParser.ParseSets | monitoring/flow/v9_parser.py:82-118 | the walk over the sets terminates, stays in bounds and treats each well-formed set in turn |
| FlowSets.FlowParser.ParsePacket | monitoring/flow/ipfix_parser.py:74-125 | header checks, cleanup of expired templates and the walk over the sets, on the state of the parser |
| FlowFormats.OthersIgnored | monitoring/flow/ipfix_parser.py:74-87 | datagrams that are too short, of another version, v9 without a count or IPFIX longer than the datagram change nothing and yield nothing |
| FlowFormats.AcceptedWalked | monitoring/flow/v9_parser.py:65-82 | an accepted datagram is walked from byte 20 or 16 under the domain and times in its header |
| FlowFormats.ReservedSetsIgnored | monitoring/flow/v9_parser.py:96-102 | sets below 256 other than 0 in v9 and 2 in IPFIX change nothing and yield nothing |
| FlowFormats.TemplateSetsInstall | monitoring/flow/ipfix_parser.py:101-108 | set 0 in v9 and set 2 in IPFIX install their templates |
| FlowFormats.DataSetFate | monitoring/flow/v9_parser.py:102-114 | a data set is decoded exactly under a template of its scope that is cached, not past its time and not empty; otherwise it waits as the latest of at most 100 |
| FlowFormats.ScopesApart | monitoring/flow/v9_parser.py:55-118 | a packet touches neither the buffers nor the live templates of other exporters and domains |
| FlowFormats.OnlyWholeTemplates | monitoring/flow/ipfix_parser.py:127-164 | whatever bytes a template set holds, every record taken from it stands in it whole |
| FlowStreams.PacketInTwo | monitoring/flow/v9_parser.py:78-118 | two runs of sets in one packet give the flows and the state of two packets with the same times and clock |
| FlowStreams.PacketisationIrrelevant | monitoring/flow/ipfix_parser.py:86-125 | the same for any division of the sets among successive packets |
| FlowStreams.DataRun | monitoring/flow/v9_parser.py:102-114 | in a run of data sets from any parser state, those with a cached template are decoded as they come and the others wait behind those already waiting, the latest hundred of them |
| FlowStreams.TemplateAnywhere | monitoring/flow/v9_parser.py:153-180 | wherever a template arrives among data sets of any templates, on any parser state: sets with a cached template are decoded in place, the template releases its young enough sets among the latest hundred in order of arrival, and the sets of other templates keep their order |
| FlowStreams.TemplateOrderIrrelevant | monitoring/flow/ipfix_parser.py:112-121 | at most 100 data sets of any templates within the orphan time before a template give the same flows with multiplicity, and leave the same sets waiting, as when the template comes first; in the same order if no other template decodes any of them |
| FlowOrphans.ReleasedOnce | monitoring/flow/v9_parser.py:153-180 | a template decodes each waiting set at most once and never one that it keeps |
| FlowOrphans.DecodedAtMostOnce | monitoring/flow/v9_parser.py:65-118 | over any run the flows are those of a list of decodings whose sets, with the waiting ones, are among the arrivals counted with multiplicity |
| FlowOrphans.AlwaysTidy | monitoring/flow/ipfix_parser.py:74-193 | for any datagrams whatever: no buffer exceeds 100 sets and none waits for a template that could decode it |
| FlowWire.TemplatesRoundTrip | monitoring/flow/ipfix_parser.py:127-164 | encoded template records, enterprise fields included, are read back in order before any padding |
| FlowWire.SetsRoundTrip | monitoring/flow/v9_parser.py:82-118 | encoded sets are cut out as they were put in; a malformed set ends the walk without affecting those before it |
| FlowWire.CutIsExact | monitoring/flow/ipfix_parser.py:90-125 | the sets cut out of any bytes encode to exactly the bytes walked over, and the walk stops only at the limit or a malformed set |
| FlowWire.HeaderRoundTrip | monitoring/flow/ipfix_parser.py:74-87 | header fields are read back; IPFIX ignores bytes beyond its declared length |
| FlowWire.PacketRoundTrip | monitoring/flow/v9_parser.py:65-118 | parsing an encoded packet is walking over the sets put into it, up to the first malformed one |
| FlowWire.BytesInTwo | monitoring/flow/v9_parser.py:65-118 | packetisation independence on encoded packets |
| FlowWire.WireRoundTrip | monitoring/flow/ipfix_parser.py:74-293 | after an encoded template packet, its set numbered 0 in v9 and 2 in IPFIX, on any earlier parser state, an encoded data packet yields exactly the flows of its records |
| FlowWire.OneFlowPerRecord | monitoring/flow/ipfix_parser.py:267-293 | records with both addresses give one flow each, in order |
| FlowV5.ParseV5Packet | monitoring/flow/v5_parser.py:13-116 | the record loop stays in bounds and yields the flows of the announced records that are wholly there |
| FlowV5.PacketRoundTrip | monitoring/flow/v5_parser.py:26-116 | an encoded packet yields the flows of its records in order, as many as announced, ignoring a rest too short for a record |
| FlowV5.TruncationIsPrefix | monitoring/flow/v5_parser.py:45 | a packet cut short at any byte yields a prefix of the flows of the whole packet |
| FlowV5.V5FlowIsBytes | monitoring/flow/v5_parser.py:40-116 | the bytes each value of the k-th flow is read from, octets and packets times the low 14 bits of the sampling field unless zero |
| FlowV5.V5FlowCount | monitoring/flow/v5_parser.py:22-46 | a packet yields as many flows as it announces and wholly holds, and none unless it is version 5 |
| FlowV5.V5InWindow | monitoring/flow/v5_parser.py:82-92 | every flow of every v5 packet lies in the 30 days before its export |
| FlowV5.V5StartBeforeEnd | monitoring/flow/v5_parser.py:82-92 | the k-th flow of a v5 packet starts no later than it ends if and only if the ages of the two uptimes of the k-th record are in order |
| FlowV5.V5DatedExactly | monitoring/flow/v5_parser.py:82-92 | each end of such a flow is dated at its true time if and only if its packet is at most 30 days old |
| FlowV5.LongFlowEndsBeforeStart | monitoring/flow/v5_parser.py:82-92 | a concrete packet whose flow starts after it ends |
| FlowV5.RecordAgrees | monitoring/flow/v5_parser.py:55-78 | the v9 record loop on the v5 layout reads what the v5 parser reads |
| FlowV5.V5AgreesWithV9 | monitoring/flow/v5_parser.py:13-116 | an unsampled v5 packet yields the flows of a v9 data set with the same record bytes |
| Alerts.PruneWindows | backend/app/services/alert_dispatcher.py:237-247 | cuts every window to its last ten minutes and drops empty ones |
| Alerts.AlertDispatcher.PruneMemoryCaches | backend/app/services/alert_dispatcher.py:225-255 | prunes deliveries past an hour, windows past ten minutes and expired mutes |
| Alerts.AlertDispatcher.IsChildSuppressed | backend/app/services/alert_dispatcher.py:301-311 | looks a mute up and drops it once past its time |
| Alerts.AlertDispatcher.CheckFlapping | backend/app/services/alert_dispatcher.py:479-488 | appends the transition, keeps the last ten minutes and answers whether four remain |
| Alerts.AlertDispatcher.EvaluateAndSendChannel | backend/app/services/alert_dispatcher.py:533-587 | quarantine, rate limit, then the provider, whose delivered or throttled answer starts the limit |
| Alerts.AlertDispatcher.DispatchEvent | backend/app/services/alert_dispatcher.py:313-477 | incidents open and close mutes, recoveries lift them, alerts are suppressed or handled |
| Alerts.LimitAgrees | backend/app/services/alert_dispatcher.py:553-556 | the remembered delivery decides as the whole delivery history does |
| Alerts.StepAgrees | backend/app/services/alert_dispatcher.py:225-587 | every event keeps the pruned memory in agreement with the full history and gets the same answer from both |
| Alerts.MemoryIsHistory | backend/app/services/alert_dispatcher.py:225-587 | on a nondecreasing clock, suppression, flapping (four transitions in ten minutes of full history) and the limit are answered as by the full history |
| Alerts.PruningUnobservable | backend/app/services/alert_dispatcher.py:225-263 | two runs that differ only in their prunes give the same answers |
| Alerts.FiveMinutesApart | backend/app/services/alert_dispatcher.py:552-587 | two deliveries on one channel, subject and severity are at least five minutes apart, however often the memory is pruned |
| AlertRules.SuppressedExactly | backend/app/services/alert_dispatcher.py:301-401 | over any run: an alert is suppressed exactly when it is a symptom, or its endpoint is named by a standing incident, neither resolved nor recovered nor replaced, that opened at most 30 minutes ago |
| AlertRules.FlappingExactly | backend/app/services/alert_dispatcher.py:479-488 | a handled alert is quarantined exactly when it is at least the fourth handled one about its subject in ten minutes |
| AlertRules.LimitedExactly | backend/app/services/alert_dispatcher.py:533-587 | the outcome on each channel: quarantined when flapping; else limited exactly when an alert of the same endpoint, or without endpoint of the same kind and name, and severity was delivered or throttled on the channel less than five minutes before; else the provider's answer |
| AlertRules.PruneKeeps | backend/app/services/alert_dispatcher.py:225-255 | a prune keeps exactly the deliveries of the last hour, the transitions of the last ten minutes and the mutes not expired |
| AlertRules.KindsWithColonsClash | backend/app/services/alert_dispatcher.py:553 | two different alerts without endpoint that share a limit |

## Left out

- FlowSets.FlowParser.ParsePacket: one clock reading per packet stands for the readings at cleanup, at template creation and at draining, which the code takes a moment apart.
- FlowStreams.TemplateAnywhere: one template arrives in the run; further ones follow by applying it again to the state it leaves.
- FlowStreams.TemplateOrderIrrelevant: the template is not cached yet and nothing waits in the scope at the start.
- Alerts.MemoryIsHistory: alerts are handled one at a time; two alerts that wait for a provider at the same moment may both pass the rate limit in the code.
- Alerts.AlertDispatcher.EvaluateAndSendChannel: the channel filters and the delivery log.
- Alerts.AlertDispatcher.DispatchEvent: the master switch and the incident bookkeeping that no decision reads.
- FlowAggregator.Aggregator.Commit: a commit that succeeds but reports failure, and cancellation in the middle of a flush.
- FlowAggregator.Aggregator.Consume: the text of a stream message; a message carries a parsed flow or none.
- FlowCounters.GroupRows: the endpoint attribution columns of a rollup row. Row keys hold addresses as texts while the table compares `inet` values; addresses are taken to be in canonical form, where the two agree.
- FlowCounters.Upsert: the attribution columns, which the statement keeps when the new ones are null, and the batches of 1000 rows.
- EventLedger.RestartKeeps: the gap rows themselves; no caller in the repository opens one, so an unresolved gap is an input of the restart.
- EventLedger.StateMachine.ProcessCycle: health score and round-trip columns of a row; time is in whole seconds on a strictly increasing clock.
- TopologyGraph.TopologyManager.FullRebuild: labels, device types, locations and the subnet text of an address; the subnet of an endpoint is an input.
- Equality between incremental path updates and a full rebuild: updates ignore manual parents and clustering, so it does not hold.
- Parent links written when a deleted endpoint is restored: that path does not ask the cycle check.
- The circuit breaker and the trimming of the stream of the flow aggregator.
- IPFIX variable-length fields and options templates: the code treats lengths as fixed and skips options sets.
- Addresses stay bytes, and decoded times are in milliseconds instead of floating-point seconds.
- Sockets, queues, SQL, event publishing and logging.
- Root-cause hop comparison, baseline slots, bandwidth units, reports and the frontend are not modelled.
