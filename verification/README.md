# Verified model of the ReconSR engine

ReconSR crawls outward from one target. The repository stores what modules find and hands the
new entities back, the dispatcher decides which module functions run on them, the processor
turns each run into one packet for the repository. This project models those components and
the smaller algorithms beside them, and proves what they promise one another.

`dafny verify dfyconfig.toml` checks everything.

## The parts

**The pipeline** (`Pipeline`, `PipelineSafety`, `PipelineFlow`, `StoreResult`, `Sums`). Injector, closer, writer,
dispatcher loop, item goroutines, module executions and processor calls form one transition
system over two unbuffered channels and one counter. An action names which goroutine moves; a
run is any interleaving. The counter is exactly the work held, nothing is sent after a close,
limits hold even past timeouts, and only a finished system has nothing left to do. The counter
argument rests on one fact about the repository: `Store` never returns more than it was given.
`PipelineFlow` counts actions: over every run no function, result, packet or item is lost or doubled.

**The batch** (`StoreBatch`, `SourceLookup`, `BatchBuilder`, `BatchFixpoint`, `BatchFlags`,
`BatchEdges`). `StoreBatch` says what adding a node, adding a property, resolving a source and
running the worklist mean; `BatchBuilder` is the object with its mutable indexes and loops, each method tied to that meaning. `PlainScan`
recomputes all indexes from the entity array; the program's indexes always equal it. `SourceLookup`
says what a source reference means without any index.

**The depth loop** (`ShortestPaths`, `OrderedWalks`, `DepthLoop`, `DepthTimes`, `DepthCondition`,
`BatchSources`, `ResultEdges`). In-place relaxation over an array, with early exit, against minimum-over-chains.
`DepthTimes` says what any number of passes compute, `DepthCondition` exactly when that is right.
Two failing runs stand beside it, from the module's results to the stored depth: `LostDepth`, and
`LateDepth` with its history in `HopSteps` and `LateHistory`; `SentPackets` has the packets that
the processor can send, `NodeBatches` the build of packets that report nodes alone.

**The database** (`Database`, `StoreDb`, `BatchFacts`, `EntityStates`, `StoreWrites`, `StoreStep`,
`StoreKeeps`, `StoreCall`, `StoreMeaning`, `StoreColumns`, `PropertyLayers`, `History`,
`AncestorWalk`). `Database` holds the tables, the upsert rule and the invariants; `StoreDb.Stored` is
the database after one `Store` call; `StoreCall.Project` is the call as loops over mutable tables,
and computes just that; `StoreMeaning` and `StoreColumns` say what that is, table by table, from the
packet's results. `History` carries the invariants over every run from a new project. The invariants: parents are older than
their properties and the only source of relations to them, a strict depth is never below the
node-hop distance from the target, a relaxed depth (the anchor's, where there is an anchor) never
exceeds the strict one, anchors belong to their type and value, and stored tags are valid.

**Accounting** (`Reachability`, `Processor`, `Processing`, `Aggregation`, `ProcessMeaning`, `ProcessReports`,
`FirstLanding`, `StoreLog`, `Accounting`, `Outcome`, `ItemDepths`, `Dispatcher`). From the module's output to the log
row, and from the log row to the decision not to run again. `ProcessMeaning`, `ProcessReports` and `FirstLanding`
tell every field of a packet from the module's findings, past the processor's working maps.

**Status and resume** (`Tags`, `Resume`, `DispatchMeaning`). Two queries over the same tables, and what they agree
on; `DispatchMeaning` says what runs from what the modules say of themselves.

**Scope** (`ScopeSync`, `ScopeWalk`), **e-mail local parts** (`EmailLocalPart`) and **the tree
renderer** (`RenderGraph`, `TreeRenderer`) stand alone. `Schema` and `Collections` are shared.

Functions state what is computed, methods follow the program's loops and are proved against
them. A parameter `anchorOf` stands for "the anchor is a function of type and value", which the
syntax check provides; `GroupsFit` and `Trusted` name what modules are trusted with: categories
are "node", "property" or empty.

## Where the code falls short of a simple reading

* **Relaxed depths** are not always the least fixpoint, for two reasons. A result whose source never
  gets a strict depth is skipped even if its relaxed depth is known (`LostDepth`), and |entities|
  passes can be too few, as strict depths may have to spread before relaxed ones can (`LateDepth`).
  `RelaxedExactIff` has the exact condition on what the loop starts from, `RestIff` when the passes
  are enough, `TwiceIsInTime` that twice as many always are. `BatchSources.PacketDepthsExact`: depths
  are exact for every packet that reports a domain in each group that anchors a result at it, as
  far as groups hang on that domain.
* **Scope**: one synchronisation can leave an explicitly allowed entity blocked. `OneRunFallsShortIff`
  says exactly when, `TwoRunsFreeAllowed` that a second run always mends it.
* **"invalid"**: the syntax check takes unknown types as they are, and "invalid" is one of them.
  `ReferenceMeaning` has the exact condition, `RawInvalidIsAccepted` the run.
* **Failed calls**: a function whose `Exec` call itself fails sends no packet.
  `FailedCallsAreRepeated`: it is run again exactly then, or when its packet was not committed.
* **Repeated nodes**: a node is marked only after its properties and can be printed in full more
  than once. `PrintNode` and `RenderResultsTree` say exactly when for one call and for the first
  node, and bound it for all others; `PrintedTwice` is the smallest graph.
* **Several functions in one run** can leave one of them unreported, when all its results land where
  another function was first (`UnreportedIff`, `SecondFunctionIsLost`). Only the parameter of `Process`
  allows such runs: the dispatcher asks for one function at a time (dispatcher.go:568 and 607), and
  `OneFunctionIsReported`.

## Model

| member | source | states |
|---|---|---|
| Pipeline.StepInv | internal/pipeline/pipeline.go:27-91 | every step of every goroutine keeps the invariant: the counter equals the work the goroutines hold, a closed channel matches the goroutine that closed it, slots and semaphore units are counted and within their limits |
| Pipeline.InitInv | internal/pipeline/pipeline.go:27-41 | the invariant holds when the first packet or batch is injected |
| Pipeline.CloserStep | internal/pipeline/pipeline.go:43-52 | waking, resuming, giving up and closing keep the counter equal to the work held; past its wait the closer alone holds work |
| Pipeline.WriterLoopStep | internal/pipeline/pipeline.go:56-91 | storing, giving back, sending on and spawning keep the counter equal to the work held |
| Pipeline.ProcStep | internal/processor/processor.go:297-330 | a call of Process adds one unit per result before it sends and takes off its own afterwards |
| Pipeline.HandoverStep | internal/dispatcher/dispatcher.go:618-634 | K module results of an item cost K - 1 further units, each handed to one call of Process |
| Pipeline.FinishStep | internal/dispatcher/dispatcher.go:618-634 | an item without results gives its unit back, an item with K results keeps K |
| Pipeline.CallStep | internal/dispatcher/dispatcher.go:493-577 | waiting, running, timing out and returning move no unit of work |
| Pipeline.SemStep | internal/dispatcher/dispatcher.go:493-531 | per function, the semaphore units in use are the executions still running, and never exceed the limit |
| Pipeline.SlotStep | internal/dispatcher/dispatcher.go:389-391 | item slots in use are the items holding one, and never exceed the slots there are |
| PipelineSafety.RunInv | internal/pipeline/pipeline.go:16-94 | the invariant holds in every state of every run |
| PipelineSafety.CounterIsWork | internal/pipeline/pipeline.go:27-91 | in every state of every run the counter is the number of units held, hence never negative |
| PipelineSafety.ShutdownSafety | internal/pipeline/pipeline.go:43-83 | once the repository channel is closed, no later state of the run lets any goroutine send on it or on the dispatch channel |
| PipelineSafety.DispatchClosedLast | internal/pipeline/pipeline.go:54-57 | the dispatch channel is closed only after the repository channel, and only when no work is left |
| PipelineSafety.OnlyCloserRestarts | internal/controller/controller.go:446-454 | when no work is left only the closer can create some, by resuming unblocked entities |
| PipelineSafety.LimitsHold | internal/dispatcher/dispatcher.go:493-577 | running executions of a function never exceed its limit, also after their callers timed out |
| PipelineSafety.Progress | internal/pipeline/pipeline.go:43-91 | with positive limits, every reachable state that is not shut down has an enabled step other than a timeout or a cancellation |
| PipelineSafety.NoDeadlock | internal/pipeline/pipeline.go:16-94 | a reachable state without such a step is one in which every goroutine has ended |
| PipelineSafety.GivingUpIsFinal | internal/controller/controller.go:446-454 | once the closer has given up, resumed in vain or been cancelled, it only ever closes |
| PipelineFlow.ResultsReachProcess | internal/dispatcher/dispatcher.go:568-634 | in every run: the calls of Process, and the results that started items and owed handovers still hold, are the injected call plus the calls that returned a result and those that timed out; no result is lost or made up |
| PipelineFlow.AllResultsProcessed | internal/dispatcher/dispatcher.go:568-634 | so once every goroutine has ended, each of these results has had its call of Process |
| PipelineFlow.ReturnedMeaning | internal/dispatcher/dispatcher.go:533-577 | an execution has returned with or without a result exactly when the action that ended it said so |
| PipelineFlow.SettledOnce | internal/dispatcher/dispatcher.go:533-577 | every started execution is waited for by one call, or that call received, lost or timed it out, just once |
| PipelineFlow.EveryFunctionIsExecuted | internal/dispatcher/dispatcher.go:387-445 | per function, executions started and calls still waiting are as many as the items that were started with it asked for |
| PipelineFlow.EveryPacketIsStored | internal/processor/processor.go:297-330 | every packet that a call of Process reported is stored, or still on its way to the writer |
| PipelineFlow.EveryItemIsSpawned | internal/pipeline/pipeline.go:56-91 | items that have a goroutine, are on their way to one or were dropped on cancellation are those injected, resumed or returned by Store |
| StoreResult.StoreNeverReturnsMore | internal/repository/repository.go:2256-2285 | Store never hands back more items than the packet has results, whether its batch was built or rejected |
| StoreResult.FallbackIsEmpty | internal/repository/repository.go:1811-1827 | the batch rebuilt without groups is the root alone, and building it cannot fail |
| StoreResult.FinalBatchSize | internal/repository/repository.go:1811-1827 | the batch that is stored has all results of the packet, or none when it was rejected |
| StoreBatch.AddNodeKeeps | internal/repository/repository.go:1028-1053 | adding a node keeps ids in range, keeps every entity where it is, and keeps all indexes equal to a scan of the entity array |
| StoreBatch.AddPropertyKeeps | internal/repository/repository.go:1055-1085 | the same for a property, whose parent precedes it |
| StoreBatch.NodeIndexMeaning | internal/repository/repository.go:1028-1053 | the node index leads to exactly the nodes, each under its own type and value |
| StoreBatch.PropertyIndexMeaning | internal/repository/repository.go:1055-1085 | the property index leads to exactly the properties, each under its own parent, type and value |
| StoreBatch.PropertyRefsMeaning | internal/repository/repository.go:1055-1085 | the reference list of a joined type and value holds every property with that name, no other, each once |
| StoreBatch.ResolveMeaning | internal/repository/repository.go:1087-1112 | a resolved source is in the batch and is what the reference names: by local id a result target, otherwise an entity with that joined type and value |
| SourceLookup.LookupMeaning | internal/repository/repository.go:1087-1112 | over the entity array: a reference is ambiguous exactly when it has no local id, does not read like the root, no node bears its type and value and two properties read like it; unresolved exactly when its local id is unknown, or it has none and nothing reads like it; a local id means the target of the last result with it, a node goes before a property |
| SourceLookup.MeansOne | internal/repository/repository.go:1087-1112 | what else a reference means is one entity only |
| SourceLookup.BuildAmbiguousIff | internal/repository/repository.go:1126-1161 | a packet is rejected as ambiguous exactly when the worklist comes to a group whose source means several entities of the batch built so far |
| SourceLookup.PlacedWhereMeant | internal/repository/repository.go:1126-1148 | a group that is placed hangs on the entity that its source means |
| StoreBatch.PlaceKeeps | internal/repository/repository.go:1135-1146 | placing one result keeps the batch well-formed: indexes, results, local ids, and sources introduced before they are used |
| StoreBatch.NewBatchWellFormed | internal/repository/repository.go:1114-1124 | the batch of the source entity alone is well-formed |
| StoreBatch.BuildConserves | internal/repository/repository.go:1114-1161 | a successful build places every result of every group exactly once |
| BatchBuilder.Builder.AddNode | internal/repository/repository.go:1028-1053 | the method does what the specification function says, index maps, id list and local ids included |
| BatchBuilder.Builder.AddProperty | internal/repository/repository.go:1055-1085 | likewise, with flags, tags and anchor merged into an existing property |
| BatchBuilder.Builder.ResolveSource | internal/repository/repository.go:1087-1112 | the lookup order: local id, root, node, property; unresolved or ambiguous otherwise, as LookupMeaning spells out |
| BatchBuilder.Builder.PlaceResult | internal/repository/repository.go:1135-1146 | target, anchor and result record of one result |
| BatchBuilder.Builder.PlaceResolvable | internal/repository/repository.go:1126-1148 | one pass over the pending groups: which are placed, which stay, and whether any was placed |
| BatchBuilder.BuildStoreBatch | internal/repository/repository.go:1114-1161 | the worklist ends and succeeds exactly when the specification does, with that very batch |
| BatchFixpoint.BuildLeastFixpoint | internal/repository/repository.go:1126-1161 | for groups whose sources carry a local id or name a node or the root, the build succeeds exactly when every group is derivable from the root |
| BatchFixpoint.BuildOrderIndependent | internal/repository/repository.go:1126-1161 | for such groups, whether the build succeeds does not depend on their order |
| BatchEdges.BuildHasNamedEdges | internal/repository/repository.go:1114-1161 | a successful build has exactly the packet edges: every result once, on the entity that its group names |
| BatchEdges.EdgesOrderIndependent | internal/repository/repository.go:1126-1161 | when results that share a local id agree on type and value, the order of the groups does not change the edges by name |
| BatchEdges.NodesOrderIndependent | internal/repository/repository.go:1126-1161 | nor the set of nodes |
| BatchFlags.FinalBatchFlags | internal/repository/repository.go:1055-1076 | in the batch that is stored, a property is out of scope exactly when some result for it is, has the tags of all of them, and the anchor of the first that names one; nodes have none of their own |
| ShortestPaths.PassSettlesOne | internal/repository/repository.go:1874-1928 | a pass that finds an unsettled vertex settles one more, whatever the order of the edges |
| ShortestPaths.PassesAreExact | internal/repository/repository.go:1874-1928 | one pass less than there are vertices always computes the minimum over start vertices and chains |
| DepthLoop.RelaxItem | internal/repository/repository.go:1876-1923 | one result updates the states in place as specified and reports whether anything was lowered |
| DepthLoop.RelaxDepths | internal/repository/repository.go:1874-1928 | the loop with its early exit computes what all its passes would |
| DepthLoop.StrictDepthsExact | internal/repository/repository.go:1874-1928 | every strict depth ends as the minimum over start entities and chains of start depth plus non-property results, in any result order |
| DepthLoop.RelaxedDepthsExact | internal/repository/repository.go:1896-1923 | when no result is read while its source is unresolved, every relaxed depth ends as the minimum over chains in which results with one anchor share its depth |
| DepthLoop.RelaxedExactWhenTargeted | internal/repository/repository.go:1896-1923 | so it does for a root of known depth when every source is the root or an earlier target |
| DepthLoop.SkipLosesRelaxedDepth | internal/repository/repository.go:1878-1880 | on the states and results that LostDepth derives from a run: the skip fires for a source that is only an anchor, and a relaxed depth of 2 is lost |
| SentPackets.PacketIsSent | internal/processor/processor.go:89-330 | every packet of one function whose names are normalised, whose sources and results are distinct and reached, is what Process makes of some run, in any order of its groups |
| LostDepth.PacketLosesRelaxedDepth | internal/repository/repository.go:1087-1146 | a run on the target of a new project: the processor sends its packet, nothing is dropped, and stored it loses a relaxed depth through a result that never fires; the passes end in time |
| LateDepth.PacketIsLate | internal/repository/repository.go:1874-1928 | a packet on which no result is dead: the |entities| passes end before they come to rest, one relaxed depth is 4 where a chain costs 3 |
| LateHistory.RunIsLate | internal/repository/repository.go:1767-2285 | a history of runs from a new project, every packet of it sent by the processor, that leads to that packet |
| HopSteps.HopStored | internal/repository/repository.go:1767-2285 | storing a packet of one new node on a stored source adds exactly one row, one hop further out, and changes no other row |
| DepthTimes.RelaxedIsLeastInTime | internal/repository/repository.go:1874-1928 | after any number of passes every relaxed depth is the least cost of a chain that the passes meet in order, each result of it firing once its source has a strict depth |
| DepthTimes.StrictIsLeastInTime | internal/repository/repository.go:1874-1928 | likewise every strict depth, over the chains in the order of the passes |
| DepthTimes.FiringPass | internal/repository/repository.go:1876-1923 | on relaxed depths the loop does what the firing results alone would do |
| OrderedWalks.PassIsLeastInOrder | internal/repository/repository.go:1876-1923 | one in-place pass leaves each vertex at the least cost of a chain whose edges stand in the list in the order in which it takes them |
| DepthCondition.RelaxedExactIff | internal/repository/repository.go:1874-1928 | told from the states and results before the loop: relaxed depths are exact exactly when no chain through a result that never fires is cheaper than every live one, and no live one cheaper than every one met in time |
| DepthCondition.RestIff | internal/repository/repository.go:1874-1928 | the |entities| passes come to rest exactly when every live chain is matched by one met in time; exactly then the relaxed depths are the least costs of live chains |
| DepthCondition.RelaxedExactAtRestIff | internal/repository/repository.go:1876-1928 | once they have come to rest: exact exactly when no chain through a result that never fires is cheaper than every live one |
| DepthCondition.ResolvedAtOnceIsInTime | internal/repository/repository.go:1874-1928 | they come to rest in time if the first pass gives every live source its strict depth before it gets there |
| DepthCondition.TwiceIsInTime | internal/repository/repository.go:1874-1928 | twice as many passes always come to rest |
| DepthCondition.DeadNeverFire | internal/repository/repository.go:1878-1880 | such results might as well not be there |
| DepthCondition.LiveIff | internal/repository/repository.go:1878-1880 | which results fire in the end is settled before the loop: those to whose source a chain leads from a start with a strict depth |
| DepthCondition.DeadBreaksExactness | internal/repository/repository.go:1878-1880 | one of them that could lower something makes the relaxed depths inexact |
| BatchSources.FinalBatchFound | internal/repository/repository.go:1087-1146 | if no group hangs on a mere domain, one that the packet anchors a result at in a group that does not report it, every source of the batch is the root or an earlier target, in whatever order the groups come |
| BatchSources.PacketDepthsIff | internal/repository/repository.go:1829-1928 | for every packet: strict depths are exact, and relaxed depths are exactly under the condition of RelaxedExactIff |
| ResultEdges.EdgesMeaning | internal/repository/repository.go:1874-1923 | the edges of those chains are the results: a property costs nothing, a node one hop, a node with an anchor one hop to the node of that domain and none from there |
| ResultEdges.StartingDepths | internal/repository/repository.go:1286-1356 | the depths they start from: those of the row of the same name, an anchored row with the relaxed depth of its anchor, otherwise none |
| BatchSources.FoundDepthsExact | internal/repository/repository.go:1829-1928 | both are exact for every packet on a source of known depth whose batch has only the root and earlier targets as sources |
| BatchSources.PacketDepthsExact | internal/repository/repository.go:1829-1928 | hence for every packet in which no group hangs on a mere domain, whatever the order of its groups |
| Database.UpsertRows | internal/repository/repository.go:1387-1394 | an upsert changes one row: the one it collides with, merged, or a new one when none collides |
| Database.UpsertGrows | internal/repository/repository.go:1387-1394 | an upsert removes no row, changes no name, kind or parent, and raises no relaxed depth |
| Database.UpsertTable | internal/repository/repository.go:1466-1474 | an upsert keeps ids in range, parents older than properties, and both unique indexes |
| Database.InitialInv | internal/repository/repository.go:530-562 | a new project satisfies every database invariant |
| Database.InitialInvIff | internal/controller/controller.go:241-264 | made with the pair as typed and the anchor of the normalised pair, it does so exactly when that is the anchor of the pair as typed |
| EntityStates.InitialSource | internal/repository/repository.go:1286-1356 | a batch entity starts from the row of its own name if there is one, otherwise unresolved |
| EntityStates.MarkMeaning | internal/repository/repository.go:1852-1872 | whatever the order of results, an entity ends blocked exactly when it was or some result blocks it, and a mere anchor exactly when it was and no result names it |
| EntityStates.StepKeepsStates | internal/repository/repository.go:1876-1923 | one result of the depth loop keeps relaxed depths at most strict ones, by way of the shared anchor too |
| EntityStates.FinalStatesOK | internal/repository/repository.go:1829-1928 | after loading, marking and the depth loop: relaxed at most strict, anchors those of type and value, entities whose anchor is absent untouched |
| StoreWrites.FindsAgain | internal/repository/repository.go:1427-1505 | writing an entity that already has a row finds that row again |
| StoreWrites.WriteOneKeeps | internal/repository/repository.go:1358-1646 | one row written: names match, depths come from the old row or from the batch, anchors point at the right domain |
| StoreWrites.WriteAllKeeps | internal/repository/repository.go:1358-1646 | so do any number, in any order in which parents come first |
| StoreWrites.SyncAllKeeps | internal/repository/repository.go:1507-1566 | afterwards every node whose anchor the batch knows is linked to it |
| StoreStep.WriteAllUnmarks | internal/repository/repository.go:1466-1474 | writing regular nodes and properties leaves them, and everything that was none before, no mere anchors |
| StoreStep.BatchWritten | internal/repository/repository.go:1930-1964 | every batch entity has a row of its own name, no deeper than the batch found it; anchored nodes are linked |
| StoreKeeps.ResultRows | internal/repository/repository.go:1992-2015 | both ends of every result have rows, related unless they are the same row, and a property row has the source as its parent |
| StoreKeeps.StoredRowMeaning | internal/repository/repository.go:1387-1475 | every stored depth is the minimum of what the row had and what the batch computed for it; blocked entities stay blocked, anchors stay set |
| StoreKeeps.FoundIsNoMereAnchor | internal/repository/repository.go:1852-1856 | a node that some result found is not left as a mere anchor |
| StoreKeeps.CommittedRelations | internal/repository/repository.go:2053-2090 | a property is reached by relations from its parent only |
| StoreKeeps.FinalSound | internal/repository/repository.go:1874-1928 | every strict depth of the batch is witnessed by a path of stored relations from the initial target |
| StoreKeeps.CommittedDepths | internal/repository/repository.go:1466-1474 | no stored strict depth is below the node-hop distance from the initial target |
| StoreKeeps.CommittedRelaxed | internal/repository/repository.go:1896-1923 | the effective relaxed depth of every row is at most its strict depth |
| StoreKeeps.StoredTags | internal/repository/repository.go:2001-2035 | only validated tags are stored |
| StoreMeaning.StoredTagsMeaning | internal/repository/repository.go:2001-2035 | after the call an entity has a tag exactly when it had it, or it is the row under which some result was returned and that result has the tag |
| StoreMeaning.SourceRowMeaning | internal/repository/repository.go:1992-2015 | the row that stands for a result's source has its type and value, and is the packet's own row for the root |
| StoreMeaning.StoredRelationsMeaning | internal/repository/repository.go:2053-2090 | after the call two rows are related exactly when they were, or they are source and target row of some result and differ |
| StoreMeaning.StoredLogsMeaning | internal/repository/repository.go:2194-2250 | after the call the log has a row of the packet's module exactly where there was one, or the entity brought a result of the function, was named by an applied one, or is the source and the function failed or stayed silent; its flag says result, or no error; other rows stay |
| StoreColumns.StoredScopeMeaning | internal/repository/repository.go:1376-1660 | after the call a row is blocked exactly when it was, or an entity of the batch stored under it ends blocked as FinalFlags says; a new row that is not blocked is flagged free, and rows outside the batch stay as they are |
| StoreColumns.FinalFlags | internal/repository/repository.go:1829-1872 | an entity ends blocked exactly when the row it was loaded from is, or a result that is out of scope leads to it, or names it as the anchor of a subdomain and it is not the first row; it ends a mere anchor exactly when it was one, or is new, and no result leads from or to it |
| StoreColumns.StoredMarkMeaning | internal/repository/repository.go:1358-1474 | the anchor mark of a stored node is the one computed for it |
| StoreKeeps.StoreKeepsDb | internal/repository/repository.go:1767-2285 | every committed Store keeps all database invariants |
| StoreCall.Project.FindRow | internal/repository/repository.go:1387-1394 | the row an insert collides with, or none |
| StoreCall.Project.UpsertRow | internal/repository/repository.go:1466-1475 | insert or merge, and the id that is returned |
| StoreCall.Project.LoadStates | internal/repository/repository.go:1829-1849 | the states before marking: fresh, then the source, then whatever rows exist |
| StoreCall.MarkStates | internal/repository/repository.go:1854-1872 | the scope and anchor marks of all results, in place |
| StoreCall.Project.ComputeStates | internal/repository/repository.go:1829-1928 | loading, marking and relaxing in place give the states that the specification names |
| StoreCall.Project.SyncNodeAnchors | internal/repository/repository.go:1507-1566 | sets the anchor of exactly the nodes whose anchor has a row |
| StoreCall.TakeLayer | internal/repository/repository.go:1171-1181 | the next layer is never empty: the error for a layer that cannot be resolved does not arise |
| StoreCall.Project.UpsertLayers | internal/repository/repository.go:1955-1964 | the layer loop ends and writes each property once, after its parent |
| StoreCall.Project.BuildBatch | internal/repository/repository.go:1806-1827 | the packet's batch, or the root alone with one more error that names a function of the raw data |
| StoreCall.Project.Store | internal/repository/repository.go:1767-2285 | the whole call leaves exactly the specified database, keeps every invariant, and returns the rows of the batch results in their order; when the source has no row or the transaction does not commit, nothing changes |
| StoreCall.EveryResultIsReturned | internal/repository/repository.go:2256-2275 | those rows are one for each result of the stored batch, each the row of the type and value of the result |
| PropertyLayers.NextLayer | internal/repository/repository.go:1171-1181 | a layer is exactly the pending properties whose parent has a row, each once |
| PropertyLayers.PendingReady | internal/repository/repository.go:1955-1964 | some pending property always has a parent with a row |
| History.HistoryInv | internal/repository/repository.go:1767-2285 | all invariants hold in every database reached from a new project by Store calls and scope updates |
| History.StrictLimitIsHopLimit | internal/repository/repository.go:1466-1474 | a row whose strict depth is within the limit is within that many node hops of the initial target |
| History.RelaxedLimitIsWider | internal/repository/repository.go:1387-1394 | a row that the strict limit admits, the relaxed limit admits as well |
| History.ScopeKeepsDb | internal/repository/repository.go:3395-3417 | updating the scope column keeps all invariants |
| AncestorWalk.CollectParents | internal/repository/repository.go:2984-2986 | in whatever order the edges come, each property is mapped to its one parent, which is older |
| AncestorWalk.MarkChain | internal/repository/repository.go:3023-3037 | the first walk ends and marks exactly the entity and its ancestors |
| AncestorWalk.MarkNeeded | internal/repository/repository.go:3023-3037 | marked are exactly both ends of every edge and their ancestors up to the nodes |
| AncestorWalk.FindOnChain | internal/repository/repository.go:3140-3161 | the second walk ends and takes the nearest ancestor with raw data |
| AncestorWalk.FindRawData | internal/repository/repository.go:3140-3161 | the target's ancestors are asked first, then the source's |
| AncestorWalk.RawDataMeaning | internal/repository/repository.go:3140-3161 | the raw data of an edge is that of the nearest ancestor of the target that has any, and only if none has, of the nearest one of the source |
| AncestorWalk.MarkedRowsSuffice | internal/repository/repository.go:3023-3161 | loading only the marked log rows gives every edge the same raw data as loading all |
| StoreLog.CollectLog | internal/repository/repository.go:2194-2220 | the three loops fill the log map as specified |
| StoreLog.LogMeaning | internal/repository/repository.go:2194-2220 | a pair is logged exactly when the source failed or stayed silent on the function or the entity has a result of it; a result outranks an error, an error outranks silence |
| Reachability.Search | internal/processor/processor.go:102-119 | the search ends and marks exactly the keys joined to the source entity by a chain of accepted results |
| Processing.RefsExist | internal/processor/processor.go:161-198 | every reference that the main loop reads exists |
| Processing.BuildGraph | internal/processor/processor.go:80-102 | the loop computes the graph whose links GraphMeaning spells out |
| Processing.LinkedMeaning | internal/processor/processor.go:62-94 | an execution counts exactly when it did not fail, was asked for, and the contract was kept |
| Processing.GraphMeaning | internal/processor/processor.go:80-102 | the links are exactly the results of accepted executions, the keys exactly their ends and the source entity |
| Processing.FoundMeaning | internal/processor/processor.go:102-119 | reachable means: a chain of accepted results leads there from the source entity |
| Processing.ReferenceMeaning | internal/processor/processor.go:121-139 | the references are those of the source entity and of the ends of accepted results; one ends as "invalid" exactly when no chain of accepted results leads to it, the syntax check rejects it, or accepts it under that very type |
| Processing.InvalidMeansRejectedIff | internal/validator/validator.go:65-70 | as the check passes the raw type "invalid" through, "invalid" means unreachable or rejected exactly when the key is not a reachable one of that raw type |
| Processing.RawInvalidIsAccepted | internal/validator/validator.go:65-70 | a run whose result of raw type "invalid" is reached and accepted, and still ends as "invalid" |
| Processing.NormalizeRefs | internal/processor/processor.go:121-139 | every key gets its reference, in whatever order the map is walked |
| Processing.TallyExecutions | internal/processor/processor.go:141-278 | the main loop over executions and results computes what the step functions say |
| Aggregation.ReturnedMeaning | internal/processor/processor.go:141-150 | a function has returned once an execution of it that is not rogue was read |
| Aggregation.AggregateMeaning | internal/processor/processor.go:235-275 | whatever the order, a key is there exactly when a usable result lands on it; its tags are their union, its marks their disjunction, and the scope rules block it regardless |
| Aggregation.PacketIsUnion | internal/processor/processor.go:141-278 | the groups are that union over the first error-free requested execution of each function |
| Aggregation.VerdictMeaning | internal/processor/processor.go:49-295 | a requested function fails exactly on a system error, a broken contract, a faulty first execution or none at all; it is silent exactly when it does not fail and brought nothing usable |
| Aggregation.SecondFunctionIsLost | internal/processor/processor.go:235-258 | a run of two functions that report one result: the second is neither failed nor silent, and no result bears its name; only the parameter of Process allows such a run, the dispatcher asks for one function at a time |
| Aggregation.UnreportedIff | internal/processor/processor.go:235-295 | for every run, a requested function is unreported exactly when it does not fail, brings something usable, and all of that lands on a source and key where another function was first |
| Aggregation.ApartReportsAll | internal/processor/processor.go:235-258 | functions whose usable results never share source and key are all reported |
| Aggregation.SeparateLocalIDsReportAll | internal/processor/processor.go:235-258 | so are functions whose results carry different local ids |
| Aggregation.OneFunctionIsReported | internal/dispatcher/dispatcher.go:568-607 | so is the one function of a dispatched run |
| Processing.Judge | internal/processor/processor.go:280-295 | the loop over requested functions |
| Processing.JudgeMeaning | internal/processor/processor.go:280-295 | a requested function is reported as failed exactly when it failed or was missing, and as silent exactly when it returned without error and without findings |
| Processing.ListGroups | internal/processor/processor.go:297-313 | the groups list the aggregate, each source and each result once, and the total is their number of results |
| Processing.Process | internal/processor/processor.go:12-331 | the packet that is sent is the specified one; none is sent only when there is nothing to report |
| ProcessMeaning.PacketMeaning | internal/processor/processor.go:62-313 | from the module's own findings: a group holds an entry exactly when a finding of a counting execution lands there; its tags are theirs together, it is applied exactly when one of them is and the function takes that type, out of scope exactly when the rules block its name or one of them says so and the rules do not allow the name |
| ProcessMeaning.FateMeaning | internal/processor/processor.go:161-240 | which finding is dropped as badly tagged, as half named or as an echo of its source, and which lands |
| ProcessMeaning.NameMeaning | internal/processor/processor.go:121-139 | the name of an end: normalised with its anchor where it is reached and accepted, otherwise "invalid" |
| FirstLanding.FirstLandingNames | internal/processor/processor.go:235-258 | function, category and anchor of an entry are those of the first finding that lands on it, in the module's order |
| ProcessReports.ErrorsMeaning | internal/processor/processor.go:49-295 | an error is in the packet exactly when it is a system error, a broken contract, a failed execution, a bad tag or half a name in one that counts, or a requested function without any |
| ProcessReports.RawDataMeaning | internal/processor/processor.go:141-148 | the packet has the raw data of exactly the executed functions, of each the last execution |
| Processing.PacketEntries | internal/processor/processor.go:161-278 | every result of a packet has a normalised key, the anchor of its type and value, valid tags, and is marked applied only for a supported type |
| Processing.GroupHasNoRepeats | internal/processor/processor.go:236-275 | within a group no two results share type, value and local id |
| Processing.RequestIsReported | internal/processor/processor.go:61-295 | a run of one requested function reports it as failed, as silent, or by a result |
| Processing.RawDataNamesRequest | internal/processor/processor.go:141-148 | if such a packet has groups, its raw data names that function and no other |
| Processing.RequestSendsPacket | internal/processor/processor.go:297-330 | a run with requested functions always sends a packet |
| Processor.FindingsKeepReturned | internal/processor/processor.go:161-278 | reading results changes neither the returned functions nor the raw data |
| Accounting.ProcessedGroupsFit | internal/processor/processor.go:245-275 | what the processor sends is what the repository's invariants ask of a packet |
| Accounting.BatchHasResult | internal/repository/repository.go:1114-1161 | a result of the packet is a result of the batch that is stored |
| Accounting.ReportedIsLogged | internal/repository/repository.go:2194-2246 | a function that the packet reports in any way gets a log row for the packet's source |
| Accounting.RequestIsStored | internal/repository/repository.go:1811-1827 | also when the batch is rejected: the error blames the requested function |
| Accounting.RequestIsLogged | internal/repository/repository.go:1811-2246 | storing the packet of a run of one function leaves a log row for source, module and function, whatever happened |
| Accounting.LogsPersist | internal/repository/repository.go:2238-2246 | later Store calls and scope updates remove no log row |
| Accounting.NeverRunAgain | internal/dispatcher/dispatcher.go:415-445 | once that row exists, no item built from a later database runs the function on that entity again |
| Outcome.LoggedIff | internal/dispatcher/dispatcher.go:530-613 | a dispatched function has a log row afterwards exactly when its call returned or timed out and the packet was committed |
| Outcome.RunsAgainIff | internal/dispatcher/dispatcher.go:415-445 | an item within the limits leads to the function again exactly when there is no log row |
| Outcome.FailedCallsAreRepeated | internal/dispatcher/dispatcher.go:579-581 | so it is run again exactly when its call failed outright or its packet was not committed |
| ItemDepths.ReturnedDepths | internal/repository/repository.go:1602-1633 | the depths of a property item are those its insert returned: relaxed at most strict, strict not below the committed row |
| ItemDepths.RunsWithinHops | internal/dispatcher/dispatcher.go:398-406 | under the strict limit a function only runs on entities within that many node hops of the initial target, for every item that Store hands back |
| ItemDepths.RelaxedAdmitsMore | internal/dispatcher/dispatcher.go:398-406 | every item that the strict limit admits, the relaxed limit admits too |
| ItemDepths.ResumedWithinHops | internal/repository/repository.go:2632-2690 | the hop limit holds for the items of a resume payload |
| ItemDepths.ResumedRelaxedAdmitsMore | internal/repository/repository.go:2632-2690 | and so does the comparison of the limits |
| Dispatcher.ContainsTag | internal/dispatcher/dispatcher.go:65-72 | membership |
| Dispatcher.MatchTags | internal/dispatcher/dispatcher.go:74-97 | no rules, or some rule with all required and no excluded tags |
| Dispatcher.TagOrderIrrelevant | internal/dispatcher/dispatcher.go:74-97 | the order in which tags are listed does not matter |
| Dispatcher.RulesMeaning | internal/dispatcher/dispatcher.go:310-326 | a split tag group holds exactly when its plain tags are present and its negated ones absent |
| Dispatcher.CascadeFor | internal/dispatcher/dispatcher.go:264-309 | the most specific non-empty list of input types, and of tags, wins |
| Dispatcher.InputTypesFor | internal/dispatcher/dispatcher.go:450-460 | the types that an applied mark is judged by are the very types the function is indexed under |
| Dispatcher.RegisterModule | internal/dispatcher/dispatcher.go:236-262 | every declared or custom function of a module is registered once, with its cascaded types and tags |
| Dispatcher.RegisterAll | internal/dispatcher/dispatcher.go:230-345 | modules that cannot name their capabilities are passed over; with distinct module names each function is registered once |
| Dispatcher.IsActionable | internal/dispatcher/dispatcher.go:99-116 | the tag rules of the first entry of that module and function decide |
| Dispatcher.LoadIndex | internal/dispatcher/dispatcher.go:290-381 | an entry stands under a type exactly when it is a switched-on function of that input type |
| Dispatcher.IndexWithinTable | internal/repository/repository.go:155-173 | every indexed function is offered by the modules table for the same type |
| Dispatcher.LoadedIndexCoherent | internal/dispatcher/dispatcher.go:290-381 | entries of one type that share module and function share their tag rules |
| Dispatcher.DispatchItem | internal/dispatcher/dispatcher.go:388-445 | runs every selected function once, except completed ones, ones in flight and those of a module that fails to name its capabilities, whose keys are given back |
| DispatchMeaning.IndexMeaning | internal/dispatcher/dispatcher.go:230-381 | the index serves a function for a type and tags exactly when some module offers it, it is switched on, its own, else the module's, else the contract's list has the type, and its own, else the module's, tag groups are absent or one of them is met |
| DispatchMeaning.RunsMeaning | internal/dispatcher/dispatcher.go:387-445 | an item leads to a function exactly when it is in scope, within the depth limit in force, has not completed it, and the modules serve it |
| Tags.ValidateTag | internal/validator/validator.go:26-36 | non-empty and made of the permitted characters |
| Tags.TagsSurviveIff | internal/repository/repository.go:2503-2506 | a tag list survives the comma-joined column exactly when no tag has a comma and it is not one empty tag |
| Tags.ValidTagsSurvive | internal/validator/validator.go:26-36 | validated tags survive |
| Resume.ProjectStatus | internal/controller/controller.go:191-205 | the pending names are those of the rows within the depth limit that are actionable |
| Resume.DispatchAll | internal/dispatcher/dispatcher.go:387-445 | with nothing in flight, dispatching a payload runs exactly what its items lead to, for the modules that answer |
| Resume.StatusAgreesWithResume | internal/repository/repository.go:2471-2649 | with equal depth settings and modules loaded from the same registrations, a module function is pending exactly when dispatching the resume payload runs it |
| Resume.StatusNamesWhatRuns | internal/controller/controller.go:191-226 | as reported: the pending names include all that resuming runs, and if every module answers they are exactly those |
| DispatchMeaning.StatusMeaning | internal/repository/repository.go:2449-2620 | a function is pending exactly when some row that is no mere anchor, in scope by its own or its anchor's flag, and within the limit has no log row of it and is served by the modules |
| DispatchMeaning.ResumeMeaning | internal/repository/repository.go:2620-2700 | exactly for these some item of the resume payload leads to it |
| DispatchMeaning.NewProjectCalls | internal/repository/repository.go:530-562 | in a new project, whatever the limit, exactly the target has pending functions, and all that the modules serve it with |
| ScopeSync.UpdateScopeBatch | internal/repository/repository.go:3395-3417 | chunk after chunk, exactly the listed rows get the value |
| ScopeSync.SyncScopeWithDB | internal/controller/controller.go:367-404 | the three id lists amount to one synchronisation, every flag ends as SyncMeaning says, and exactly the effectively blocked, explicitly allowed entities are reported |
| ScopeSync.SyncIsScopeStep | internal/controller/controller.go:367-404 | a synchronisation touches the scope column only |
| ScopeSync.SyncMeaning | internal/controller/controller.go:367-404 | row by row: an allowed row is flagged free if it was or its effective flag blocks it; a row that is flagged free and blocked by the rules becomes blocked; one that is flagged free and neither allowed nor blocked loses its flag, so that its anchor's new flag applies; nothing else changes |
| ScopeSync.AnchorsAreFlat | internal/repository/repository.go:1387-1394 | anchors have no anchor themselves |
| ScopeSync.TwoRunsReachFixedPoint | internal/controller/controller.go:367-404 | with fixed rules a third run changes nothing |
| ScopeSync.TwoRunsFreeAllowed | internal/controller/controller.go:367-404 | after two runs nothing that is explicitly allowed is effectively blocked |
| ScopeSync.OneRunFallsShortIff | internal/controller/controller.go:367-404 | one run leaves an allowed entity blocked exactly when it newly blocks the anchor of one without a flag of its own |
| ScopeSync.OneRunFallsShort | internal/controller/controller.go:367-404 | such a database |
| ScopeWalk.DomainOutOfScope | internal/scopemanager/scopemanager.go:367-384 | out of scope exactly when some blocked dot-suffix rule is strictly longer than every matching allowed one; the walk ends |
| ScopeWalk.DomainAllowed | internal/scopemanager/scopemanager.go:422-436 | explicitly allowed exactly when some allowed dot-suffix rule matches; the walk ends |
| ScopeWalk.IsOutOfScope | internal/scopemanager/scopemanager.go:362-414 | domains by suffix, addresses by nets, everything else by lists; permission wins |
| ScopeWalk.IsExplicitlyAllowed | internal/scopemanager/scopemanager.go:417-457 | the same division for permissions |
| ScopeWalk.BlockedBelow | internal/scopemanager/scopemanager.go:367-384 | what lies under a blocked name is blocked too, unless an allowed rule reaches below that name |
| EmailLocalPart.SplitWords | internal/validator/validator.go:242-276 | the first pass computes the words that the specification names, or fails |
| EmailLocalPart.WordsRejoin | internal/validator/validator.go:242-276 | the first pass loses nothing, and every word ends outside quotes and escapes |
| EmailLocalPart.CheckWord | internal/validator/validator.go:278-321 | the second pass on one word, and whether it goes beyond the standard characters |
| EmailLocalPart.PassingIsWord | internal/validator/validator.go:283-305 | a trailing escape, which the second pass does not look for, is excluded by the first |
| EmailLocalPart.SplitFound | internal/validator/validator.go:242-276 | the first pass recovers the words of any sentence of the grammar |
| EmailLocalPart.SplitUnique | internal/validator/validator.go:242-276 | a local part can be read in one way only |
| EmailLocalPart.ValidateLocalPart | internal/validator/validator.go:239-321 | accepts exactly word *("." word), and asks for "email-extra" exactly when some word goes beyond the standard characters |
| TreeRenderer.BuildLists | internal/report/render.go:127-156 | every distinct edge is listed once, to a property or to a node |
| TreeRenderer.Renderer.PrintChildren | internal/report/render.go:390-450 | all children end up marked, in whatever order they are sorted; the list of an entity is never sorted again while an outer call walks it |
| TreeRenderer.Renderer.PrintNode | internal/report/render.go:313-343 | ends although the node is marked only after its properties; the node is printed in full just once exactly when no property of it leads back to it past nothing marked |
| TreeRenderer.Renderer.PrintProperties | internal/report/render.go:345-388 | all properties of an entity end up marked; the entity itself is printed meanwhile at most once for each of them that leads back |
| RenderGraph.ReturnsIff | internal/report/render.go:334-336 | while its properties are printed a node is printed again exactly when one of them leads back to it past nothing marked |
| RenderGraph.LoopReturns | internal/report/render.go:345-388 | a node that loops back by way of properties alone always returns, when properties have one parent |
| RenderGraph.GrownOverNode | internal/report/render.go:313-343 | the counts of full prints over one call for a node |
| TreeRenderer.RenderResultsTree | internal/report/render.go:27-272 | ends on every graph; with an edge, everything reachable and every node is printed, properties as new at most once, nodes in full at least once and at most once more for each of their properties that lead back, at least twice if they loop back by properties alone, and the first node once exactly when no property of it leads back; every entity has one line for each edge to it from each full print of the edge's source, and one more as a root |
| TreeRenderer.PrintedTwice | internal/report/render.go:334-336 | the smallest graph whose node is printed in full twice |

## Left out

- Database.UpsertTable: categories other than "node" and "property" are not modelled; such a row would escape both unique indexes, and a root of such a category would be inserted again.
- StoreKeeps.StoreKeepsDb: SQLite itself, dictionary ids, raw data and observation rows are not part of this model.
- StoreCall.Project.Store: whether the transaction commits is a parameter, and a failure is noticed at the end of the call rather than at the statement that causes it; rows are written one by one, not in chunks of 124; the returned items are represented by their row ids (`TargetRows`), their depths by `ItemDepths.HandedBack`.
- BatchFixpoint.BuildOrderIndependent: groups whose source names a property without a local id are excluded, as the code promises no order independence for ambiguous ones.
- Dispatcher.LoadIndex: limits and delays are left out; a module without functions is represented by the empty function name.
- Dispatcher.DispatchItem: the in-flight key is a tuple, not the joined string; the release after five seconds is a later step outside the call.
- Resume.StatusAgreesWithResume: a module that answers when it is loaded and fails to answer when it is dispatched is in the status and does not run; covers the pending list of a stored project; the error list, retrying errors and the temporary-project payload are not modelled.
- Database.InitialInv: the target's pair is taken as normalised; a project is made with the pair as it was typed, and `InitialInvIff` has the exact condition for that.
- History.HistoryInv: resetting the execution log is not a step of these runs.
- ScopeWalk.IsOutOfScope: lower-casing, address parsing and net membership are parameters.
- EmailLocalPart.ValidateLocalPart: the domain part, the 64-byte limit and the other validators (domains, addresses, AS numbers) are left out.
- TreeRenderer.RenderResultsTree: formatting, contexts, statistics and the sort orders are left out; every order of children, properties and candidates is allowed instead. How often a node is printed in full over the whole tree depends on that order, so beyond single calls there are bounds.
- TreeRenderer.Renderer.PrintProperties: the program sorts the shared list in place, and a nested call for the same entity sorts it again while the outer call walks it, by a comparison that no mark changes; here each call takes an order of its own. Lists of children are never sorted again while they are walked: `PrintChildren` cannot be entered for one that is.
- Pipeline.StepInv: a goroutine's step is atomic between two synchronisation points; real time appears as timeouts that may or may not happen; pausing and delays are left out.
- AncestorWalk.MarkedRowsSuffice: the synthetic numbering of raw data rows is left out.
- Identifiers and depths are unbounded; the program's 32- and 64-bit integers never come near their limits within the 999999 that marks an unresolved depth.
- Creating, listing and deleting projects, updating, the command line, HTML output and all recon modules.
