# DeLOG in Dafny

DeLOG is a desktop viewer for vehicle telemetry. This project models the parts of it that keep state and make a
promise about that state, and proves the promises:

- the **data-flow graph**: a typed port graph edited by commands that return their own inverse, saved as JSON,
  put in order depth-first, and evaluated over store snapshots with a cache of node results;
- the **render cache**: a min/max pyramid with 64 nodes to a node, the trace cache on top of it, the decimation to
  pixel columns, and the manager that builds, updates and evicts trace caches;
- the **store**: the registry of sources, topics and fields, chunks and topic stores, snapshots, and the single
  writer that buffers, sorts, seals and publishes;
- the **decoders**: the push-based MAVLink v1/v2 frame decoder, and the filter between decoded ArduPilot records
  and the writer.

What the source computes with expressions is a function here. What it does step by step to mutable state is a class
or a method with loops, proved against such a function; the promises are lemmas about the functions and so hold of
the methods.

| files | source | contents |
|---|---|---|
| `Graph`, `GraphFacts` | `delog-flow/src/graph.rs` | node kinds and ports, reachability, the class `Graph` |
| `Commands`, `Editor` | `delog-flow/src/command.rs` | what a command does; doing it in place, with rollback |
| `GraphSafety`, `GraphPorts`, `GraphUndo`, `GraphHistory` | `delog-flow/src/command.rs` | soundness, renumbered ports, undo, atomic batches |
| `EdgeBalance`, `GraphSettles` | `delog-flow/src/command.rs` | edges kept, moved and lost; why rollbacks within rollbacks end |
| `GraphEffects` | `delog-flow/src/command.rs`, `graph.rs` | which commands are accepted, and what is there afterwards |
| `GraphLimits`, `GraphSessions` | `delog-flow/src/command.rs` | batches that are refused and leave another graph; whole sessions |
| `Json`, `Documents`, `DocumentProofs`, `DocumentFormat` | `delog-flow/src/doc.rs` | writing, loading, round trip, the format itself |
| `EvalOrder` | `delog-flow/src/eval.rs` | evaluation order |
| `Evaluator`, `EvalLoop` | `delog-flow/src/eval.rs`, `script.rs`, `resolve.rs` | evaluation as a function and as loops over a cache object |
| `ReportMeaning`, `Selection` | `delog-flow/src/eval.rs`, `script.rs`, `resolve.rs` | what a report says, and what a selector means |
| `FieldReads`, `Kernels` | `delog-flow/src/eval.rs`, `filter.rs` | what is read and what is computed, sample by sample |
| `CacheAgreement`, `CacheExactness`, `CacheWiring`, `CacheLimits` | `delog-flow/src/eval.rs` | cached against fresh evaluation |
| `Timelines`, `TimelineReports`, `TimelineLimits` | `delog-flow/src/script.rs`, `eval.rs` | when one timeline means one sequence of times |
| `Align` | `delog-core/src/align.rs` | alignment of signals |
| `Pyramid`, `PyramidObject` | `delog-cache/src/pyramid.rs` | the pyramid and its class |
| `Trace`, `TraceSearch`, `Columns` | `delog-cache/src/trace.rs` | the trace cache, searches in it, decimation |
| `CacheManager`, `ManagerEffects`, `ManagerObject` | `delog-cache/src/manager.rs` | builds in flight, appends, eviction |
| `Identity`, `RegistryEffects`, `IdentityObject`, `Names` | `delog-core/src/identity.rs` | the registry as a value and as a class, what each change does to it, suffixes |
| `Storage`, `Store`, `Snapshots` | `delog-core/src/chunk.rs`, `store.rs`, `snapshot.rs` | chunks, topic stores, snapshots, publication |
| `Ingest`, `IngestRows`, `IngestProofs`, `IngestRuns`, `IngestSafety`, `IngestObject` | `delog-core/src/ingestor.rs` | the writer, what every run of it keeps, and its class |
| `IngestEffects`, `IngestData`, `IngestSeals` | `delog-core/src/ingestor.rs` | what each message does, to the writer and to readers |
| `IngestHistory`, `IngestConservation`, `Publications` | `delog-core/src/ingestor.rs`, `snapshot.rs` | from the messages sent to the snapshots that readers see |
| `FieldView` | `delog-core/src/field_view.rs` | the sample before or after a time |
| `Frames`, `FrameRoundTrip`, `FrameScan` | `delog-parsers/src/mavlink.rs` | framing; packets written and decoded; what is found in any bytes |
| `CommitFilter`, `LogAccounts` | `delog-parsers/src/ardupilot.rs` | the commit filter; where every record goes |

`dafny verify dfyconfig.toml` covers the whole project.

## Where the code keeps less than it seems to promise

Each of these is proved. Unless a line says otherwise, so is the exact condition under which the promise holds.

- `AddNode` with an id in use breaks the uniqueness of ids (`AddNodeNeedsFreshId`), and `InsertOutputField` and
  `InsertScriptInput` do not check the connection they are given (`OpenInputNeedsFittingConnection`). `Admissible`
  is what the callers of `apply` see to.
- Undo of `RemoveNode`, `Disconnect`, `SetKind` and `RemoveScriptOutput`, and of batches of these, connects the
  dropped edges again. It is refused exactly when one of them was not well typed, such as an edge at a node of
  unknown kind (`Undo`, `UndoAll`). Loading accepts such edges (`SampleLoads`).
- For the same reason a batch that is refused does not always leave the graph as it was, since its rollback ignores
  inverses that are refused. An edge can be lost (`LostEdge`), and one can be left at a node that is not there
  (`DanglingEdge`). A command followed by one that is refused is undone exactly if it dropped well-typed edges only
  (`RefusedBatch`), and every refused command is undone exactly on typed graphs (`AtomicExactlyIfTyped`). Whole
  sessions, with commands refused in them, are sure to keep the graph sound exactly from typed graphs, as long as an
  id is left (`SessionsAreSafeExactlyIfTyped`).
- A saved graph whose edges at a node of known kind lie out of its range does not load again (`DocumentRoundTrip`).
- A fingerprint holds neither the output port that an input is read from nor the node it comes from, so with scripts
  a shared cache can give a stale report (`RewiredReader`, `StaleAfterPortChange`, `StaleAfterNodeChange`), even one
  in which a timeline has two sequences of times (`StaleTimeline`). A report is right exactly when each entry it
  restores is what computing the node would give (`ReportIsRight`, `RunIsRight`). That is so if no node keeps its
  fingerprint while an input that a script takes part in moves (`WiredAlikeIsConsistent`, `SharedCacheAgrees`), and
  always where no script runs (`SilentCacheAgrees`), scripting being an optional feature.
- A script with more than 65536 outputs can give one timeline two meanings: exactly if two outputs that bring times of
  their own are a multiple of 65536 apart (`WrapsExactly`, `ReportIsSound`, `OneOutputTooMany`).
- A build in flight when the origin changes arrives with the old origin (`StaleOrigin`, `OriginsStayInRun`).
- In a monotonic store the lookup of the previous or next sample gives up after 65536 cells; going forward, a step
  from one chunk to the next counts as a cell (`PrevSample`, `NextSample`).
- A window, or a global range, that overflows when a source's offset is taken from it makes every read under that
  source empty (`WindowIsRead`, `EverythingIsRead`); with very different offsets the global range can be such a one.
- One topic whose range overflows under its source's offset leaves the snapshot without a global range
  (`GlobalRangeIsHull`). `SetSourceOffsets` rejects such offsets; the registry's own `set_source_offset_us` does not look.
- The instance name of an empty base, such as `[3]`, parses as a plain name (`InstanceNameBack`).

## Model

| member | source | states |
|---|---|---|
| `GraphModel.Graph.AllocId` | crates/delog-flow/src/graph.rs:331-335 | While ids are left, the id handed out belongs to no node and the graph stays sound. |
| `GraphModel.Graph.RemoveNode` | crates/delog-flow/src/graph.rs:350-363 | Takes out the node and every edge that touches it, and returns both in order; an unknown id changes nothing. |
| `GraphModel.Graph.WouldCycle` | crates/delog-flow/src/graph.rs:441-459 | On any edge list, cyclic ones included, the search ends and says true exactly when `from` can be reached from `to`. |
| `GraphModel.ClosedHoldsReachable` | crates/delog-flow/src/graph.rs:441-459 | A set closed under the edges holds all that can be reached from it: why a search that ends without finding has not missed a path. |
| `GraphModel.VerdictIsExact` | crates/delog-flow/src/graph.rs:365-407 | On a sound graph an edge is accepted exactly when its ports exist and have compatible types and the graph with it is still sound: unique ids, one edge per input, no cycle. |
| `GraphModel.AddedEdgeKeepsRank` | crates/delog-flow/src/graph.rs:365-407 | Adding an edge to an acyclic graph keeps a topological numbering exactly when its source cannot be reached from its target. |
| `GraphModel.RankedIsAcyclic` | crates/delog-flow/src/graph.rs:441-459 | A graph with a topological numbering has no path from a node to itself. |
| `GraphModel.Graph.Connect` | crates/delog-flow/src/graph.rs:409-424 | Appends the edge or reports the first check that fails and changes nothing; soundness and typing survive either way. |
| `GraphModel.Graph.Disconnect` | crates/delog-flow/src/graph.rs:426-432 | Takes out the one edge into the port and returns it, or changes nothing. |
| `GraphSafety.RunKeepsSound` | crates/delog-flow/src/command.rs:83-374 | On a sound graph any accepted admissible command, nested batches included, keeps unique ids below `next_id`, existing endpoints, one edge per input and acyclicity; `next_id` never falls. |
| `GraphSafety.RunAllKeepsSound` | crates/delog-flow/src/command.rs:357-372 | The same for any list of commands. |
| `GraphSafety.RunKeepsTyped` | crates/delog-flow/src/command.rs:83-374 | If the graph is typed and the connections that commands bring fit, it also stays typed: every edge joins ports in range that are compatible. |
| `GraphSafety.PortCommandSound` | crates/delog-flow/src/command.rs:163-337 | Inserting or removing a port, with the edges behind it shifted, keeps the graph sound. |
| `GraphSafety.PortCommandTyped` | crates/delog-flow/src/command.rs:163-337 | After the shift every edge of a typed graph, with a fitting new connection, meets a port that accepts it. |
| `GraphSafety.SetKindSound` | crates/delog-flow/src/command.rs:130-162 | Changing a kind, which drops the edges that the new ports do not carry, keeps the graph sound and typed. |
| `GraphPorts.PortCommandKeepsWiring` | crates/delog-flow/src/command.rs:163-337 | After a port is inserted or removed, the edges are those before but for the ones whose port is gone and the connection supplied for a new one, and each still ends at the very field, input or output that it ended at. |
| `GraphSessions.SessionsAreSafeExactlyIfTyped` | crates/delog-flow/src/command.rs:83-374 | As long as an id is left: every session of commands whose connections fit, whatever is accepted and whatever refused in it, keeps the graph sound if and only if every edge that the graph starts with is well typed. |
| `GraphSessions.ReachableGraphsAreSound` | crates/delog-flow/src/command.rs:83-374 | From any sound graph, every graph reached by admissible commands, accepted or refused, is sound and has no cycle, if the commands that are refused had dropped well-typed edges only. |
| `GraphSessions.ReachableGraphsAreTyped` | crates/delog-flow/src/command.rs:83-374 | From a sound and typed graph, by commands whose connections fit, every graph reached is sound and typed, with no condition on what is dropped. |
| `GraphHistory.Undo` | crates/delog-flow/src/command.rs:83-374 | On any sound graph, the inverse that an accepted admissible command returns is accepted, and brings back the same nodes and edges, if and only if every edge that the command drops is well typed when it is dropped, whatever the command (batches of batches included); otherwise it is refused. |
| `GraphHistory.UndoExactly` | crates/delog-flow/src/command.rs:102-337 | For moves, kinds, connections and all port commands it brings back, under the same condition and only then, the very graph: order of nodes and edges and `next_id` too. |
| `GraphUndo.SameGraphIsPermutation` | crates/delog-flow/src/command.rs:83-374 | What "the same graph" means: on sound graphs, equal up to a permutation of nodes and of edges. |
| `GraphUndo.SameRun` | crates/delog-flow/src/command.rs:83-374 | Commands cannot tell the same graphs apart: accepted on one if and only if accepted on the other, and then with the same result. |
| `GraphHistory.UndoAll` | crates/delog-flow/src/command.rs:357-372 | Running the inverses of a list of commands, last first, undoes the list if and only if every edge dropped on the way was well typed, and is refused otherwise. |
| `GraphHistory.UndoRemoveNode` | crates/delog-flow/src/command.rs:90-101 | On any sound graph, undo of a removal works if and only if all the removed edges are well typed; an edge at a node of unknown kind is not. |
| `GraphUndo.UndoDisconnect` | crates/delog-flow/src/command.rs:119-129 | On any sound graph, undo of a disconnection works if and only if the edge was well typed. |
| `GraphUndo.UndoAddNode` | crates/delog-flow/src/command.rs:85-89 | Removing an added node gives back the very graph but for `next_id`. |
| `GraphUndo.UndoSetKind` | crates/delog-flow/src/command.rs:130-162 | On any sound graph, undo of a kind change is accepted, and puts the dropped edges back at their old places, if and only if all edges at the sides whose ports changed were well typed. |
| `GraphUndo.UndoRemoveScriptOutput` | crates/delog-flow/src/command.rs:306-338 | On any sound graph, undo of removing a script output is accepted, and puts the output, its edges and the other edges' ports back exactly, if and only if all edges from that output were well typed. |
| `GraphUndo.CloseInputUndone` | crates/delog-flow/src/command.rs:196-230 | Undo of removing an input reopens it with the connection it had. |
| `GraphUndo.OpenInputUndone` | crates/delog-flow/src/command.rs:163-195 | Undo of inserting an input closes it again and shifts the ports back. |
| `GraphUndo.DroppedThenRestored` | crates/delog-flow/src/command.rs:339-356 | Edges dropped by a command come back at their old indices if and only if all of them are well typed; else the restoration is refused. |
| `GraphHistory.UndoRestoreEdges` | crates/delog-flow/src/command.rs:339-356 | Undo of restoring edges, the disconnections, leaves the graph as it was. |
| `GraphHistory.RollbackSucceeds` | crates/delog-flow/src/command.rs:357-372 | If the commands applied so far dropped well-typed edges only, every inverse run by the rollback of a batch is accepted, and the graph is the same as before. |
| `EdgeBalance.RunBalances` | crates/delog-flow/src/command.rs:83-374 | Edges are balanced: the edges after an accepted command and those that its inverse brings are as many as the edges before and those that the command brought, whatever the command and the graph. |
| `EdgeBalance.RefusedBalances` | crates/delog-flow/src/command.rs:357-372 | A refused command, rolled back however deep, leaves no more edges than there were and it was to bring. |
| `EdgeBalance.RefusedEdgesAreLost` | crates/delog-flow/src/command.rs:357-372 | If what is refused are edges to connect or restore, or a batch of such, it leaves fewer. |
| `GraphSettles.RollbackEnds` | crates/delog-flow/src/command.rs:357-372 | Rolling back ends, for every command on any graph, unsound ones included: a rollback applies inverses, which may be refused batches that are rolled back in turn, but from some depth on nothing changes any more. Each refused edge is lost for good, so the edges run out. |
| `GraphSettles.LeftByBatch` | crates/delog-flow/src/command.rs:357-372 | So what a refused batch leaves is what its refused command left, with the inverses of the commands before it applied to that one by one, whether accepted or refused; any other refused command leaves the graph alone. |
| `GraphSettles.RefusedIsRolledBack` | crates/delog-flow/src/command.rs:357-372 | Atomicity: on a sound graph a refused admissible command, a batch that fails midway included, leaves the same graph as before, if every edge dropped on the way was well typed. |
| `GraphLimits.RefusedBatch` | crates/delog-flow/src/command.rs:357-372 | Exactly then, for a command followed by one that is refused: the batch of the two leaves the same graph as before if and only if the first dropped well-typed edges only. |
| `GraphLimits.AtomicExactlyIfTyped` | crates/delog-flow/src/command.rs:357-372 | On a sound graph every refused command with fitting connections leaves the same graph as before if and only if the graph is typed. |
| `GraphLimits.LostEdge` | crates/delog-flow/src/command.rs:357-372 | On every sound graph with an edge that is not well typed, disconnecting it twice in one batch is refused and loses it. |
| `GraphLimits.DanglingEdge` | crates/delog-flow/src/command.rs:357-372 | Wherever one node feeds an output field or script input and has another edge that is not well typed, a refused batch leaves an edge from a node that is not there: adding the node back is refused, reopening the input connects it unchecked. |
| `GraphLimits.SampleLoads` | crates/delog-flow/src/doc.rs:27-156 | A graph of three nodes with such edges is saved and loads again as it is. |
| `GraphLimits.SampleBreaks` | crates/delog-flow/src/command.rs:339-372 | On it undo of a kind change is refused, one refused batch loses an edge and another leaves a dangling one. |
| `GraphHistory.AddNodeNeedsFreshId` | crates/delog-flow/src/command.rs:85-89 | `AddNode` takes any id: the graph stays sound if and only if the id was new. |
| `GraphHistory.OpenInputNeedsFittingConnection` | crates/delog-flow/src/command.rs:163-195 | `InsertOutputField` and `InsertScriptInput` take any `connection`: the graph stays sound if and only if it comes from another existing node and closes no cycle, and stays typed too if and only if it also fits the ports. |
| `Editor.ApplyOne` | crates/delog-flow/src/command.rs:83-356 | In place, on any graph: the new graph and the returned inverse are those of `RunOne`; a refused command changes nothing. |
| `Editor.Apply` | crates/delog-flow/src/command.rs:83-374 | In place, on any graph, batches and rollbacks within rollbacks included, it ends: the result is that of `Run`, and after an error the graph is what `LeftByBatch` says; so it stays sound when `RunKeepsSound` says so, and is the same graph after an error when `RefusedIsRolledBack` does. |
| `Editor.ApplyBatch` | crates/delog-flow/src/command.rs:357-372 | On any graph, the loop that applies, collects the inverses in reverse and rolls back is `RunAll`, or leaves what the rollback leaves. The bound on nested rollbacks is ghost, and there always is one (`RollbackEnds`). |
| `Editor.RollBack` | crates/delog-flow/src/command.rs:357-372 | Applies the inverses in turn and ignores what they return; one that is itself a refused batch is rolled back in its turn. |
| `Editor.ApplyRestoreEdges` | crates/delog-flow/src/command.rs:339-356 | The dry run on a clone decides; then every edge lands at its recorded index. |
| `GraphEffects.AddTakesEffect` | crates/delog-flow/src/command.rs:85-89 | After an accepted `AddNode` the node is there, last in the list, every other node and all edges are as before, and `next_id` is the greater of what it was and the one after the new id. |
| `GraphEffects.RemoveTakesEffect` | crates/delog-flow/src/command.rs:90-101 | After `RemoveNode` the node is not there and no edge touches it; all other nodes, in their order, and all other edges are as before. An unknown id is refused. |
| `GraphEffects.MoveTakesEffect` | crates/delog-flow/src/command.rs:102-107 | After `MoveNode` the node has exactly the given position, and nothing else is another. |
| `GraphEffects.SetKindTakesEffect` | crates/delog-flow/src/command.rs:130-162 | After `SetKind` the node has exactly the given kind; the edges lost are exactly those at its input side if its inputs are other ones now, and at its output side if its outputs are. |
| `GraphEffects.PortTakesEffect` | crates/delog-flow/src/command.rs:163-337 | A port command is refused exactly if the node is unknown or has no such place, each with its error; else the node has one port more or less, at that place, and the rest of its kind and all other nodes are as before. |
| `GraphEffects.ConnectsExactly` | crates/delog-flow/src/graph.rs:365-407 | Port by port of every kind: which edge is accepted, and for any other which of the seven errors it is refused with. |
| `GraphEffects.ConnectTakesEffect` | crates/delog-flow/src/command.rs:108-118 | After `Connect` the edge is there, last in the list, and all else is as before. |
| `GraphEffects.DisconnectTakesEffect` | crates/delog-flow/src/command.rs:119-129 | After `Disconnect` no edge ends at the port, and all other edges and all nodes are as before; without one it is refused. |
| `GraphEffects.RestoreTakesEffect` | crates/delog-flow/src/command.rs:339-356 | After `RestoreEdges` the edges are those before and those given, each given one at its own index if the indices are different and in range. |
| `GraphEffects.RestoreIsConnecting` | crates/delog-flow/src/command.rs:339-356 | It is refused exactly when connecting the same edges one by one in the order of their indices is, and with that error. |
| `GraphEffects.BatchInTurn` | crates/delog-flow/src/command.rs:357-372 | A batch does what its commands do in turn. |
| `GraphEffects.BatchOfOne` | crates/delog-flow/src/command.rs:357-372 | A batch of one command does what the command does. |
| `DocumentProofs.DocumentRoundTrip` | crates/delog-flow/src/doc.rs:27-156 | A sound graph with finite numbers that is saved loads back if and only if all its edges fit their ports; what loads is the graph itself, same order and `next_id`, with the source bindings of selectors dropped. |
| `DocumentProofs.LoadedIsSound` | crates/delog-flow/src/doc.rs:39-156 | Every document that loads gives a sound, so acyclic, graph whose edges fit the ports of the nodes that are known. |
| `DocumentProofs.LoadedEdgesExact` | crates/delog-flow/src/doc.rs:128-153 | The edges of a sound graph can be added one by one to its nodes exactly when they all fit. |
| `DocumentProofs.LoadableIsExact` | crates/delog-flow/src/doc.rs:128-153 | An edge is accepted while loading exactly when it fits its ports and the graph stays sound. |
| `DocumentProofs.NodeBack` | crates/delog-flow/src/doc.rs:197-273 | A written node, known kind or not, reads back as itself but for source bindings. |
| `DocumentProofs.KindJsonTellsApart` | crates/delog-flow/src/doc.rs:158-195 | Kinds with the same JSON are the same but for source bindings, so hashing the JSON loses nothing that evaluation reads from a kind. |
| `Documents.Load` | crates/delog-flow/src/doc.rs:39-156 | The loader that grows a mutable graph edge by edge gives what the document says, or the same error. |
| `DocumentFormat.VersionIsNeeded` | crates/delog-flow/src/doc.rs:9-15 | A document is written as version 2 exactly if one of the edges in it tells its source port, which is if an edge leaves another port than the first; else as version 1. |
| `DocumentFormat.VersionsThatLoad` | crates/delog-flow/src/doc.rs:39-55 | Only versions 1 and 2 load; the missing and the unsupported version are told exactly where there is none, or a 32-bit number other than these. |
| `DocumentFormat.DocumentsThatRead` | crates/delog-flow/src/doc.rs:57-109 | Which documents are read, part by part: name, ids, view with positive zoom, nodes of different ids, edges. |
| `DocumentFormat.NodesThatRead` | crates/delog-flow/src/doc.rs:212-273 | A node is read if and only if it has a 64-bit id, a position, a type and settings that its kind reads. |
| `DocumentFormat.EdgesThatRead` | crates/delog-flow/src/graph.rs:260-275 | An edge is read if and only if its ends are 64-bit and its ports 32-bit numbers; without a source port it leaves the first one. |
| `DocumentFormat.FieldsThatRead` | crates/delog-flow/src/graph.rs:10-20 | What a field selector is read from, with a missing or null instance, and without a source. |
| `DocumentFormat.FiltersThatRead` | crates/delog-flow/src/filter.rs:44-51 | What a filter is read from; a missing `inclusive` is false. |
| `DocumentFormat.NumbersThatRead` | crates/delog-flow/src/doc.rs:227-246 | The numbers of constants and scalings are read whether written as integers or as floats. |
| `DocumentFormat.ChoicesThatRead` | crates/delog-flow/src/doc.rs:246-265 | A conversion and an alignment are read from their very names. |
| `DocumentFormat.OutputsThatRead` | crates/delog-flow/src/doc.rs:266-268 | What an output and its fields are read from. |
| `DocumentFormat.ScriptsThatRead` | crates/delog-flow/src/doc.rs:266-268 | What a script, its inputs and its outputs with their units, are read from. |
| `DocumentFormat.UnknownIsKept` | crates/delog-flow/src/doc.rs:197-273 | A node of an unknown type is kept whole and written as it was. |
| `DocumentFormat.LoadedIdIsLeast` | crates/delog-flow/src/doc.rs:91-97 | The next id of a loaded graph is the least that is at least 1, at least the saved one, and past every id. |
| `DocumentFormat.ConversionsWritten` | crates/delog-flow/src/graph.rs:130-141 | The name that every conversion is written by. |
| `DocumentFormat.ModesWritten` | crates/delog-flow/src/doc.rs:158-195 | The name that every alignment mode is written by. |
| `DocumentFormat.OperatorsWritten` | crates/delog-flow/src/doc.rs:158-195 | The types that the four operators are written by. |
| `DocumentFormat.NumbersWritten` | crates/delog-flow/src/doc.rs:158-195 | What is written of constants and scalings. |
| `DocumentFormat.FieldsWritten` | crates/delog-flow/src/doc.rs:158-195 | What is written of a field selector: no source, and an instance if there is one. |
| `DocumentFormat.OutputsWritten` | crates/delog-flow/src/doc.rs:158-195 | What is written of an output and its fields, and nothing else. |
| `DocumentFormat.FiltersWritten` | crates/delog-flow/src/filter.rs:1-51 | The names and settings that filters are written by. |
| `DocumentFormat.ScriptsWritten` | crates/delog-flow/src/doc.rs:158-195 | What is written of a script: name, code, inputs and outputs, and nothing else. |
| `DocumentFormat.DocumentWritten` | crates/delog-flow/src/doc.rs:27-37 | What is written of a document, each node with its id and position beside its kind. |
| `EvalOrder.TopologicalOrder` | crates/delog-flow/src/eval.rs:601-633 | On any graph the order is an error exactly when some target is downstream of a cycle; otherwise it lists every existing node upstream of a target once, inputs first, and nothing else. |
| `EvalOrder.VisitIsCorrect` | crates/delog-flow/src/eval.rs:602-627 | A visit adds the unvisited upstream nodes of its node in such an order, or finds a cycle that is there. |
| `EvalOrder.NoCycleUpstream` | crates/delog-flow/src/eval.rs:601-633 | No node upstream of a listed one lies on a cycle. |
| `EvalOrder.Walker.VisitNode` | crates/delog-flow/src/eval.rs:602-627 | The recursive walk over mutable sets and the order vector is that visit, and ends on every graph. |
| `EvalOrder.ComputeOrder` | crates/delog-flow/src/eval.rs:601-633 | The loop over the targets is that order. |
| `EvalOrder.InputsByPort` | crates/delog-flow/src/eval.rs:615-616 | The inputs of a node are visited in the order of its ports, each edge into it once. |
| `CacheAgreement.SharedCacheAgrees` | crates/delog-flow/src/eval.rs:94-278 | Over any run of evaluations that share one cache, with graphs, snapshots, windows, targets and cancellations changing freely, every report equals the one from an empty cache, provided an epoch names one snapshot, the host stays the same, and a node that is planned twice with one fingerprint is planned from the same provenance: kinds, ports and data all the way up, and the script nodes on the way. |
| `CacheWiring.WiredAlikeIsConsistent` | crates/delog-flow/src/eval.rs:280-321 | That is so whenever a node that is planned twice with one fingerprint reads those inputs in which scripts take part from the same ports of the same nodes; its other inputs may be moved to any node. |
| `CacheWiring.SilentIsConsistent` | crates/delog-flow/src/eval.rs:538-550 | Where there are no script nodes, or no host to run them, it is always so. |
| `CacheWiring.SilentCacheAgrees` | crates/delog-flow/src/eval.rs:94-278 | So without scripts, which are an optional feature, a shared cache is right over every run, however nodes are rewired. |
| `CacheWiring.SameWiresAreConsistent` | crates/delog-flow/src/eval.rs:280-321 | With scripts it is so whenever no node that two of the graphs have in common is wired to another port: nodes may come and go and change. |
| `CacheExactness.ReportIsRight` | crates/delog-flow/src/eval.rs:94-278 | For one evaluation over any cache whatever: its report is that of an empty cache if and only if every entry that it restores holds what computing the node would give. |
| `CacheExactness.RunIsRight` | crates/delog-flow/src/eval.rs:94-278 | Over any run that shares a cache, with no condition on it, each report is that of an empty cache if and only if every entry that it restores is such a one. |
| `CacheAgreement.EvaluationAgrees` | crates/delog-flow/src/eval.rs:94-278 | One evaluation with any true cache gives the report of an empty cache, and leaves a true cache, if its fingerprints stand for the provenance that its nodes are planned from. |
| `CacheAgreement.PlannedMeaning` | crates/delog-flow/src/eval.rs:280-321 | What a planned node computes is the meaning of its provenance, whatever the graph around it. |
| `CacheAgreement.MeaningUnfolds` | crates/delog-flow/src/eval.rs:538-550 | The meaning of a provenance: its kind computed on the ports that it names of the meanings of its inputs. |
| `CacheAgreement.PlansAgree` | crates/delog-flow/src/eval.rs:280-321 | At every node's turn a consistent run that shares a cache plans what an evaluation from an empty cache plans. |
| `CacheLimits.RewiredReader` | crates/delog-flow/src/eval.rs:280-321 | The simplest such run, two script nodes and a reader that is moved from an output of one to another output: over the same cache it is reported right if and only if both outputs give the same result, since the fingerprint holds neither port nor node. `RunIsRight` is the condition for every run. |
| `CacheLimits.StaleAfterPortChange` | crates/delog-flow/src/eval.rs:300-314 | Moving a reader to another output with other times makes its cached report wrong, always. |
| `CacheLimits.StaleAfterNodeChange` | crates/delog-flow/src/eval.rs:538-550 | Moving a reader to another node with the same script makes its cached report name the wrong timeline, always. |
| `CacheLimits.StaleTimeline` | crates/delog-flow/src/eval.rs:280-321 | Move the reader to a second node with the same script and give the first a script with other times: the report over the shared cache has two sequences of times on one timeline, always. |
| `CacheLimits.StaleTimelineExample` | crates/delog-flow/src/eval.rs:552-575 | A concrete such run, in which the report of an empty cache is sound and the one over the shared cache is not. |
| `TimelineReports.ReportIsSound` | crates/delog-flow/src/eval.rs:94-278 | In the report of an empty cache all signals have sorted times and as many values as times, and signals on one timeline have the same times, if and only if every script keeps its outputs apart: no two outputs that bring times of their own are a multiple of 65536 apart. |
| `TimelineReports.RunIsSound` | crates/delog-flow/src/eval.rs:94-278 | The same, report by report, for every run that shares a cache and is consistent, which is to say under the condition of `SharedCacheAgrees`; `StaleTimeline` shows that it is needed. |
| `TimelineReports.SilentRunIsSound` | crates/delog-flow/src/eval.rs:94-278 | Without scripts, or without a host to run them, every report of every run that shares a cache is sound and every kernel gets well-formed inputs, with no condition on the wiring. |
| `TimelineReports.SmallScriptsKeepApart` | crates/delog-flow/src/script.rs:209-216 | Scripts with at most 65536 outputs always keep them apart. |
| `TimelineLimits.OneOutputTooMany` | crates/delog-flow/src/script.rs:209-216 | A script of 65537 outputs, each with one sample at a time of its own, does not: in its report outputs 0 and 65536 share a timeline. |
| `TimelineReports.KernelsGetSoundInputs` | crates/delog-flow/src/eval.rs:361-434 | Every kernel that a consistent run with a shared cache gets to, its scripts keeping their outputs apart, is given well-formed signals, and inputs that pass the timeline check have equal times; so alignment is then only given sorted times. |
| `Timelines.FieldTimes` | crates/delog-flow/src/eval.rs:323-359 | The times of a field read for a topic depend on the topic, window and snapshot only, and are sorted. |
| `Timelines.SortingSorts` | crates/delog-flow/src/eval.rs:349-359 | The sort after reading sorts by time and keeps every row. |
| `Timelines.SortingIsStable` | crates/delog-flow/src/eval.rs:349-359 | Rows of one time stay in their order. |
| `Timelines.ScriptIsDated` | crates/delog-flow/src/script.rs:130-230 | The four binding rules keep one sequence of times per timeline if no two outputs that bring times are a multiple of 65536 apart, however many there are. |
| `Timelines.WrappedTimelines` | crates/delog-flow/src/script.rs:209-216 | Two outputs a multiple of 65536 apart that both bring times of their own share a timeline with different times: `len as u16` wraps. |
| `Timelines.WrapsExactly` | crates/delog-flow/src/script.rs:130-230 | For one script: its inputs and outputs together have one sequence of times for each timeline if and only if no two outputs that bring times are a multiple of 65536 apart. |
| `EvalLoop.BindOutputs` | crates/delog-flow/src/script.rs:130-230 | The loop that grows `bound` is the rules, or the first error. |
| `EvalLoop.RunKernel` | crates/delog-flow/src/eval.rs:361-434 | A kernel as it runs, alignment through its own loops, is the kernel as a function. |
| `EvalLoop.ReadFieldRows` | crates/delog-flow/src/eval.rs:323-359 | The loops over chunks and rows, then the sort, are `ReadField`: rows in the window, offset and scaled. |
| `EvalLoop.GatherInputs` | crates/delog-flow/src/eval.rs:280-321 | The loop over the ports finds the inputs, their fingerprints and the missing ones. |
| `EvalLoop.EvalCache.EvaluateNode` | crates/delog-flow/src/eval.rs:120-277 | One node: restored from the cache object or computed and stored in it. |
| `EvalLoop.EvalCache.EvaluateTargets` | crates/delog-flow/src/eval.rs:94-278 | The whole evaluation over the cache object, with a cancellation after any number of nodes. |
| `ReportMeaning.ReportSolves` | crates/delog-flow/src/eval.rs:94-278 | The report from an empty cache, said by itself: every node that is visited before the cancellation shows what its kind computes from the values which the report itself has for its inputs, or exactly the issues that its kind, its settings, its connections or the host give it; no other node shows anything. |
| `ReportMeaning.ValidScriptRuns` | crates/delog-flow/src/script.rs:63-104 | A script may run if and only if it has outputs, code that is not blank, and different ASCII identifiers for its inputs and for its outputs. |
| `ReportMeaning.OutputsAreBound` | crates/delog-flow/src/script.rs:130-230 | The outputs of a script are bound if and only if each brings sorted times for its values or all inputs share one timeline of that length; each gets the values returned, its declared or else the returned unit, and its times and timeline by the four rules. |
| `Selection.ResolvesExactly` | crates/delog-flow/src/resolve.rs:16-93 | A selector resolves if and only if just one live topic of a live source is meant by it, and has a live field and a column of that name; and then to these, with the column's unit and multiplier. |
| `Selection.ViewMeans` | crates/delog-core/src/field_view.rs:63-104 | A field has a view if and only if its entry, topic, store, column and source are there, and the view is of these. |
| `Selection.TraceMeans` | crates/delog-cache/src/trace.rs:79-95 | A trace can be drawn if and only if they are and neither field nor topic is removed. |
| `FieldReads.WindowIsRead` | crates/delog-flow/src/eval.rs:323-359 | A read with a window gives exactly the samples that lie in it, sorted, although whole chunks are skipped, if and only if the window minus the offset does not overflow or nothing lies in it; it fails exactly when a time in a chunk that overlaps the window overflows. |
| `FieldReads.EverythingIsRead` | crates/delog-flow/src/eval.rs:323-359 | A read without a window never fails and gives every sample of the field, sorted, if and only if the global range minus the offset does not overflow or the field has no rows. |
| `FieldReads.RangeReachesChunks` | crates/delog-core/src/snapshot.rs:179-199 | The global range of a snapshot overlaps every chunk of every field, and no time under it overflows. |
| `FieldReads.StoreIsRead` | crates/delog-core/src/field_view.rs:122-137 | The chunks skipped by the overlap test have nothing in the window. |
| `Kernels.KernelAccepts` | crates/delog-flow/src/eval.rs:361-534 | A kernel succeeds if and only if its first input is a signal and its second, where it needs one, is a number that it takes or a signal of the same times and length, and a filter has valid limits; otherwise it fails with the first of these that is missing. |
| `Kernels.KernelIsPointwise` | crates/delog-flow/src/eval.rs:361-534 | Every kernel but alignment keeps times and timeline of its first input, and sample `i` is that of the first input put to the kind's own operation, with the second input's where there is one, in that order. |
| `Kernels.AlignmentIsPointwise` | crates/delog-flow/src/eval.rs:415-430 | Alignment keeps times and timeline of its second input, and at each of them gives the linear-scan answer from the first, whose times are sorted. |
| `Kernels.FilterKeeps` | crates/delog-flow/src/filter.rs:76-90 | On the output of a filter node, for each of the six kinds: which samples below, at, between and above the limits are kept, inclusive or not; all others, and gaps, become gaps. |
| `Kernels.KernelUnits` | crates/delog-flow/src/eval.rs:361-519 | The unit that every kernel gives, and when different units are reported. |
| `Kernels.FiltersSplit` | crates/delog-flow/src/filter.rs:76-90 | The outputs of opposite filters, with opposite inclusion, split all samples between them; gaps are in neither. |
| `Align.AlignValues` | crates/delog-core/src/align.rs:29-75 | On any samples the loops are deduplication and binary search; on sorted ones they give what a linear scan of the samples gives, in all three modes. |
| `Align.FastIsAligned` | crates/delog-core/src/align.rs:29-75 | One sample left for each time and a binary search give, on sorted samples, the answer of a linear scan over all of them. |
| `Align.FoundIsAligned` | crates/delog-core/src/align.rs:42-75 | Each answer found by binary search is the linear-scan answer. |
| `Align.NearestIsClosest` | crates/delog-core/src/align.rs:58-66 | In nearest mode the value is that of a sample that no other is closer than. |
| `Align.AlignedMeans` | crates/delog-core/src/align.rs:29-75 | Each aligned value by the neighbours of its time alone: at a sample's time the last such sample; between two samples by the mode, the nearer of the two or the earlier at equal distance; before the first and after the last what the mode says. |
| `Pyramid.ExtentIsExact` | crates/delog-cache/src/pyramid.rs:17-72 | The merged extent of samples is their least and greatest value, gaps ignored, or empty if all are gaps. |
| `Pyramid.ExtentConcat` | crates/delog-cache/src/pyramid.rs:29-34 | The extent of a range is the merge of the extents of its parts. |
| `Pyramid.NodeCovers` | crates/delog-cache/src/pyramid.rs:152-176 | Every node of every level is the extent of exactly its samples. |
| `Pyramid.OnePyramid` | crates/delog-cache/src/pyramid.rs:152-219 | Samples have one pyramid: number of levels, lengths and nodes are determined. |
| `PyramidObject.MinMaxPyramid.Rebuild` | crates/delog-cache/src/pyramid.rs:152-176 | The loop that stacks levels until one node is left makes the pyramid of the data. |
| `PyramidObject.MinMaxPyramid.Extend` | crates/delog-cache/src/pyramid.rs:178-219 | Extending a pyramid of a prefix makes the pyramid of the longer data, a new top level included; with `OnePyramid`, what `Rebuild` makes. |
| `PyramidObject.MinMaxPyramid.ExtendLevel` | crates/delog-cache/src/pyramid.rs:195-218 | Keeping the nodes of untouched full blocks and redoing the others gives the parents of the new level below. |
| `PyramidObject.ParentsOfGrown` | crates/delog-cache/src/pyramid.rs:195-218 | Parents of full blocks that did not change are the old ones. |
| `PyramidObject.SamplesGrow` | crates/delog-cache/src/pyramid.rs:139-150 | More data means more samples, never other ones, at any stride and offset. |
| `PyramidObject.MinMaxPyramid.Query` | crates/delog-cache/src/pyramid.rs:223-258 | For any range the climb over aligned nodes gives the extent of a naive scan, stays inside every level and ends. |
| `PyramidObject.MinMaxPyramid.LargestNode` | crates/delog-cache/src/pyramid.rs:236-252 | The climb stops at a node whose samples start at `i` and end inside the range. |
| `PyramidObject.MinMaxPyramid.Columns` | crates/delog-cache/src/pyramid.rs:262-273 | Column `c` of `n` is the least and greatest value from sample `a + (b - a) * c / n` up to `a + (b - a) * (c + 1) / n`, as far as there are samples. |
| `PyramidObject.ColumnsCoverRange` | crates/delog-cache/src/pyramid.rs:262-273 | The columns split the range: merged, they are its extent. |
| `Trace.TraceCache.constructor` | crates/delog-cache/src/trace.rs:98-137 | A build holds the drawn points of exactly the store's rows, with their pyramid. |
| `Trace.TraceCache.Append` | crates/delog-cache/src/trace.rs:145-192 | If the store only gained rows, appending leaves what a new build with the same origin would hold; it reports whether there were new rows. |
| `Trace.AppendNewRows` | crates/delog-cache/src/trace.rs:160-190 | Skipping the rows already built, chunk by chunk, then appending gives the points of all rows. |
| `Trace.RowOfCell` | crates/delog-cache/src/trace.rs:843-896 | The value of a row in any chunk: the number in its cell, 1 and 0 for flags, none for null, NaN, text and missing cells. |
| `Trace.PointAt` | crates/delog-cache/src/trace.rs:804-824 | Point `i` is row `i`: x is row time plus source offset minus origin in microseconds, saturated twice, over 1000000; y is the value times the multiplier less that product of the first row with a value, and a row without one has no y. |
| `TraceSearch.OrderedRows` | crates/delog-cache/src/trace.rs:207-219 | Rows in order of time give points in order of x. |
| `TraceSearch.IndexRange` | crates/delog-cache/src/trace.rs:212-219 | The range found holds exactly the points in view. |
| `TraceSearch.PartitionPoint` | crates/delog-cache/src/trace.rs:221-233 | Binary search finds the first index at which a falling predicate fails. |
| `TraceSearch.FiniteAtOrBefore` | crates/delog-cache/src/trace.rs:235-262 | Skipping whole blocks without a value finds what a linear search down finds. |
| `TraceSearch.FiniteAtOrAfter` | crates/delog-cache/src/trace.rs:264-290 | Skipping whole blocks without a value finds what a linear search up finds. |
| `TraceSearch.SkippedBlock` | crates/delog-cache/src/trace.rs:247-258 | A block whose node has no value has none among its samples. |
| `TraceSearch.VisiblePoints` | crates/delog-cache/src/trace.rs:369-387 | For a trace of points, the range is the extent of the points in view. |
| `Columns.ViewIsValid` | crates/delog-cache/src/trace.rs:792-795 | The column of an x is within the width, grows with x and does not change when x is clamped to the view. |
| `Columns.ColumnIsInterval` | crates/delog-cache/src/trace.rs:792-795 | In exact numbers: x falls into column `c` if and only if it lies in the `c`-th of `width` equal half-open slices of the view, the end columns taking in what lies outside. |
| `Columns.MinmaxColumns` | crates/delog-cache/src/trace.rs:576-606 | On both paths, and after bridging, every sample in view lies in the range of its own column. Before bridging, where samples are taken one by one each column is the extent of its own samples in view, and elsewhere every bound is the value of a sample at most one column away. Column `c` is drawn at the middle of its slice. |
| `Columns.Canvas.Sweep` | crates/delog-cache/src/trace.rs:608-635 | Sample by sample: each one swept is shown in its column, nothing is made up, and of empty columns each becomes the extent of the swept samples that fall into it. |
| `Columns.Canvas.TakeNode` | crates/delog-cache/src/trace.rs:637-674 | A node, split at the view's edges or narrow enough for its columns, shows all its samples in view. |
| `Columns.Canvas.TakeNodes` | crates/delog-cache/src/trace.rs:637-674 | Node by node, every sample in the range is shown. |
| `Columns.FilledExactly` | crates/delog-cache/src/trace.rs:706-727 | A column has a value after interpolation if and only if it had one or lies in a run of at most `max_run` empty columns between two that have one. |
| `Columns.FilledWithin` | crates/delog-cache/src/trace.rs:706-727 | An interpolated column lies on the straight lines between the two columns at the ends of its run, and so within their range. |
| `Columns.BridgingTouches` | crates/delog-cache/src/trace.rs:690-704 | Bridging only widens columns, fills none beyond interpolation, and neighbouring columns with values meet: each reaches out to the next one just so far that they touch. |
| `Columns.Canvas.BridgeEmpty` | crates/delog-cache/src/trace.rs:706-727 | In place, each run is filled from its ends as they were before. |
| `Columns.Canvas.Bridge` | crates/delog-cache/src/trace.rs:690-727 | In place, interpolation then stretching. |
| `CacheManager.RunIsCoherent` | crates/delog-cache/src/manager.rs:61-181 | Over any run of requests, arrivals, epochs, origin changes, unpinning, reads and evictions, every finished cache is one that a build at some past snapshot would make, and right after an epoch it is the one a build at that snapshot would make. |
| `CacheManager.EpochIsCoherent` | crates/delog-cache/src/manager.rs:114-135 | Right after an epoch every finished cache of a field with data equals a new build at that snapshot with its own origin. |
| `CacheManager.AppendCatchesUp` | crates/delog-cache/src/manager.rs:114-129 | A cache current at one snapshot, appended to at a later one with the same offset, is current there. |
| `CacheManager.OriginsStay` | crates/delog-cache/src/manager.rs:61-66 | Caches and builds keep the manager's origin at every step but one: setting another origin while builds are in flight. |
| `CacheManager.OriginsStayInRun` | crates/delog-cache/src/manager.rs:61-181 | Over a run: all caches and builds have the manager's origin all the time if and only if the origin is never changed while a build is in flight. |
| `CacheManager.StaleOrigin` | crates/delog-cache/src/manager.rs:98-112 | A build in flight when the origin changes arrives as a finished cache with the old origin. |
| `ManagerEffects.RunShows` | crates/delog-cache/src/manager.rs:114-135 | In every run, right after an epoch, each finished cache of a field that can be traced holds the points of all its rows in the current snapshot, at its source's offset. |
| `ManagerEffects.RunUnderWay` | crates/delog-cache/src/manager.rs:68-112 | In every run each slot under way has a build of its field in flight; so once all builds have arrived, every slot is finished. |
| `ManagerEffects.RequestStarts` | crates/delog-cache/src/manager.rs:68-89 | A request pins the field, and starts one build, at the current snapshot, origin and frame, exactly if the field has no slot. |
| `ManagerEffects.ArrivalTakesEffect` | crates/delog-cache/src/manager.rs:98-112 | A build that arrives fills its slot with the trace at the snapshot that it started from, or clears it exactly if there is no trace; nothing else changes. |
| `ManagerEffects.EpochTakesEffect` | crates/delog-cache/src/manager.rs:114-135 | An epoch keeps exactly the slots of live fields that are under way or have the offset that the snapshot has, and exactly the pins of live fields. |
| `ManagerEffects.OriginTakesEffect` | crates/delog-cache/src/manager.rs:59-66 | Another origin clears all slots, the same one does nothing. |
| `ManagerEffects.GetTakesEffect` | crates/delog-cache/src/manager.rs:137-146 | Looking at a finished cache sets the frame of its last use and nothing else. |
| `ManagerEffects.DropsTakeEffect` | crates/delog-cache/src/manager.rs:91-96 | Dropping a slot, unpinning a field and beginning a frame do just that. |
| `ManagerObject.CacheManager.EvictOverBudget` | crates/delog-cache/src/manager.rs:161-181 | Eviction ends within budget or with nothing evictable left, drops no pinned or building slot, drops only caches used no later than any evictable one it keeps, and drops nothing when within budget. |
| `ManagerObject.CacheManager.Victim` | crates/delog-cache/src/manager.rs:163-173 | An unpinned finished cache used least recently, if there is any. |
| `ManagerObject.CacheManager.OnEpoch` | crates/delog-cache/src/manager.rs:114-135 | In place: shifted caches dropped, the others appended to, removed fields forgotten. |
| `ManagerObject.CacheManager.TakeBuild` | crates/delog-cache/src/manager.rs:98-112 | The arriving build replaces its slot, or removes it if it found no data. |
| `ManagerObject.CacheManager.Request` | crates/delog-cache/src/manager.rs:68-89 | Pins the field; starts a build only if there is no slot. |
| `ManagerObject.TotalWithout` | crates/delog-cache/src/manager.rs:183-191 | The total does not depend on the order in which the slots are visited. |
| `Frames.SplitDoesNotMatter` | crates/delog-parsers/src/mavlink.rs:66-126 | However the stream is split into pushes, and polled between them, the frames found and those still to be drained, with counters and lost sequence numbers, are those of one push of all bytes. |
| `Frames.NextSettles` | crates/delog-parsers/src/mavlink.rs:79-126 | A frame that is found is found the same if more bytes are there; if none is found, nothing but waiting was decided. |
| `Frames.RunConserves` | crates/delog-parsers/src/mavlink.rs:66-126 | Over any run: bytes pushed are bytes in frames plus skipped plus pending, and the counters count the frames, the unknown ones and no more checksum failures than skipped bytes. |
| `Frames.LittleIsPending` | crates/delog-parsers/src/mavlink.rs:79-126 | After no frame is found at most 279 bytes are pending. |
| `Frames.NextConserves` | crates/delog-parsers/src/mavlink.rs:79-126 | One call accounts for every byte and counter, and with no frame it stops only to wait for bytes. |
| `Frames.FrameDecoder.NextFrame` | crates/delog-parsers/src/mavlink.rs:79-126 | The loop over buffer, position and counters is one such call. |
| `Frames.FrameDecoder.PushBytes` | crates/delog-parsers/src/mavlink.rs:66-73 | Dropping the consumed bytes and appending changes the pending bytes only by the new ones. |
| `FrameRoundTrip.WrittenDecodes` | crates/delog-parsers/src/mavlink.rs:128-193 | A packet written in version 1 or 2, signed or not, is decoded to its own sender, sequence number, message id and payload. |
| `FrameRoundTrip.StreamComesBack` | crates/delog-parsers/src/mavlink.rs:66-126 | Draining packets with any noise between them, as long as the noise holds no magic byte, gives every packet in order and leaves nothing pending. |
| `FrameRoundTrip.DeliveredInOrder` | crates/delog-parsers/src/mavlink.rs:66-126 | The same however the bytes of the stream are split and polled between. |
| `FrameRoundTrip.CleanCounts` | crates/delog-parsers/src/mavlink.rs:21-31 | On such a stream the counters are exact: one frame per packet, one skipped byte per noise byte, no checksum failure. |
| `FrameRoundTrip.LossesAreCounted` | crates/delog-parsers/src/mavlink.rs:110-121 | For any number of senders mixed in any way, packets left out between those sent, fewer than 256 of a sender at a time, are exactly what the sequence gaps count, across the wrap of the numbers. |
| `FrameScan.DecodesExactlyWritten` | crates/delog-parsers/src/mavlink.rs:128-193 | Bytes of the length of a frame are decoded if and only if they are what some packet, of either version, is written as, its two checksum bytes included, and then to that packet. |
| `FrameScan.RunIsScanned` | crates/delog-parsers/src/mavlink.rs:66-126 | Every run reads its bytes as whole packets, damage and stray bytes: the frames found are those packets in order, `crc_failures` is the number of damages, and `resync_bytes` that of damages and stray bytes. |
| `FrameScan.OneReading` | crates/delog-parsers/src/mavlink.rs:79-126 | There is only one such reading of any bytes. |
| `FrameScan.WrongChecksum` | crates/delog-parsers/src/mavlink.rs:102-108 | A packet with any other checksum is never returned: it adds exactly one to `crc_failures` and one to `resync_bytes`, and the search goes on at its second byte. |
| `FrameScan.RunCountsGaps` | crates/delog-parsers/src/mavlink.rs:110-121 | In any run, if fewer than 256 packets of a sender are missing before each frame found, `seq_gaps` is the number of all that are missing. |
| `Identity.ReachableIsValid` | crates/delog-core/src/identity.rs:154-331 | In every registry reached by adding, removing, relabelling and offsetting: a key resolves to a field exactly when the field is live and has that key, labels of live sources are distinct and are the labels in use, lookups by name hold exactly the live entries, and topics and fields are removed with their source. |
| `Identity.ReachableRemembers` | crates/delog-core/src/identity.rs:154-331 | An id, once given, keeps its topic, source and name in all later registries, and what is removed stays removed; so ids are never used again. |
| `Identity.KeysDiffer` | crates/delog-core/src/identity.rs:404-417 | Two live fields never have the same key. |
| `Identity.LiveKeysAreExact` | crates/delog-core/src/identity.rs:196-227 | The keys written anew by a relabelling are those of the live fields, each to its field. |
| `Identity.RelabelKeepsValid` | crates/delog-core/src/identity.rs:196-227 | Relabelling keeps all of that: old keys stop resolving, new ones start. |
| `Identity.RemoveSourceKeepsValid` | crates/delog-core/src/identity.rs:289-331 | Removing keeps all of that. |
| `Identity.UniqueLabel` | crates/delog-core/src/identity.rs:419-438 | The label was free, the search for a suffix ends, and no other label is taken or given up. |
| `Identity.LabelComesBack` | crates/delog-core/src/identity.rs:289-331 | A removed source's label is free again: adding it gives a new id with that very label. |
| `RegistryEffects.LabelChosen` | crates/delog-core/src/identity.rs:419-438 | The label given is the preferred one, or "source" for an empty one, if it is free; else that with the first free number after the last one given to it. |
| `RegistryEffects.AddSourceTakesEffect` | crates/delog-core/src/identity.rs:164-180 | A new source is live, without offset, under such a label, and nothing else is another. |
| `RegistryEffects.SetOffsetTakesEffect` | crates/delog-core/src/identity.rs:349-361 | The source's offset is the given one, the one before is returned, and nothing else is another; an unknown id changes nothing. |
| `RegistryEffects.RelabelTakesEffect` | crates/delog-core/src/identity.rs:196-227 | A live source has a label chosen as if its old one were free, which every key of its live fields then begins with; no other entry is another. |
| `RegistryEffects.RemoveTakesEffect` | crates/delog-core/src/identity.rs:289-331 | The source, its topics and their fields are marked as removed, and no others. |
| `RegistryEffects.AddTopicTakesEffect` | crates/delog-core/src/identity.rs:229-248 | Under a live source the live topic of that name is given, or one is made, last; under any other none. |
| `RegistryEffects.AddFieldTakesEffect` | crates/delog-core/src/identity.rs:259-287 | The same for fields, with the key of labels and names. |
| `Names.SuffixesDiffer` | crates/delog-core/src/identity.rs:419-438 | Different numbers make different suffixed labels, so one of them is free. |
| `Names.InstanceNameBack` | crates/delog-core/src/identity.rs:93-109 | An instance name parses back into base and number exactly when the base is not empty. |
| `Names.ParsedExactly` | crates/delog-core/src/identity.rs:93-109 | A name is parsed as an instance exactly if it is a base, not empty, with a 32-bit decimal number in brackets after it. |
| `IdentityObject.IdentityRegistry.UniqueSourceLabel` | crates/delog-core/src/identity.rs:419-438 | The loop over candidate suffixes finds that label. |
| `IdentityObject.IdentityRegistry.RemoveSourceAt` | crates/delog-core/src/identity.rs:289-331 | The nested loops over topics and fields tombstone exactly the live topics of the source and their fields, drop their lookups, and return them. |
| `IdentityObject.IdentityRegistry.RelabelSource` | crates/delog-core/src/identity.rs:196-227 | In place: label, label set and all keys of live fields change together. |
| `IdentityObject.IdentityRegistry.AddTopicNamed` | crates/delog-core/src/identity.rs:229-248 | A live topic of that name is found again, else one is added; none under a removed source. |
| `IdentityObject.IdentityRegistry.AddFieldNamed` | crates/delog-core/src/identity.rs:259-287 | A live field of that name is found again, else one is added with its key. |
| `IdentityObject.IdentityRegistry.AddSourceNamed` | crates/delog-core/src/identity.rs:164-180 | The next id, with a label of its own. |
| `Store.ChunksAreValid` | crates/delog-core/src/chunk.rs:58-81 | A chunk is made exactly from a non-empty sorted table with one column per schema field, all of its length; its times, columns and bounds are those of the table. |
| `Store.RefusedChunks` | crates/delog-core/src/chunk.rs:58-81 | Of any other table the first failing check is told: none, the first time below the one before it, the number of columns, their lengths. |
| `Store.ValidateTime` | crates/delog-core/src/chunk.rs:124-147 | The scan reports the first timestamp below the one before it. |
| `Store.AppendKeepsExact` | crates/delog-core/src/store.rs:77-101 | Appending a valid chunk keeps the row count, the time range as exact hull, and the flag true exactly if every chunk starts no earlier than the one before ends. |
| `Store.FromChunks` | crates/delog-core/src/store.rs:43-75 | Building from chunks at once gives the store of appending them one by one, or fails where it would. |
| `Store.AppendedIsExact` | crates/delog-core/src/store.rs:43-101 | However a store comes from valid chunks, its rows, range and flag are exact. |
| `Snapshots.SnapshotIsComplete` | crates/delog-core/src/snapshot.rs:81-142 | A snapshot of a valid registry finds every source, topic and field by its id, each topic with its store, each source with its topics. |
| `Snapshots.RefusedExactly` | crates/delog-core/src/snapshot.rs:81-118 | There is no snapshot if and only if some store has no topic or another name than its topic. |
| `Snapshots.GlobalRangeIsHull` | crates/delog-core/src/snapshot.rs:179-199 | From rows and offsets alone: there is a global range if and only if some topic of a known source has rows and no topic's first or last time leaves 64 bits under the offset, and it then is the least that holds all of them. |
| `Snapshots.RangeIsHull` | crates/delog-core/src/snapshot.rs:179-199 | The global range is the hull of the offset ranges of the live topics, and is missing exactly if one of them overflows or there is none. |
| `Snapshots.ComputeGlobalRange` | crates/delog-core/src/snapshot.rs:179-199 | The loop that stops at the first overflow gives that range. |
| `Snapshots.Assemble` | crates/delog-core/src/snapshot.rs:81-142 | Filling the slots in any order gives the same snapshot or failure. |
| `Snapshots.DataStore.Publish` | crates/delog-core/src/snapshot.rs:241-257 | The epoch goes up by exactly one and the snapshot is replaced, or nothing changes. |
| `IngestSafety.RowsAreConserved` | crates/delog-core/src/ingestor.rs:127-171 | After any run of messages: stored rows followed by buffered rows of each live topic are exactly the accepted batches in order, each sorted by time; `rows_ingested` counts all accepted rows; no seal, append or publication ever failed; stores exist for exactly the live topics and are exact; a topic never diagnosed with a regression has its store in order, and a sealed one is in order only then; no published snapshot has a store for a removed topic. |
| `IngestConservation.SentIsShownOrBuffered` | crates/delog-core/src/ingestor.rs:127-171 | From the messages alone to what readers see: after every message of every run, the batches sent for a topic from the opening of its source on, each sorted by time, are exactly the rows of the published snapshot followed by the buffered rows; the snapshot shows no others. |
| `IngestConservation.RunIsSent` | crates/delog-core/src/ingestor.rs:127-171 | The rows accepted for a topic are those sent for its source and name while the source was open, and the open sources are those opened and not dropped. |
| `IngestHistory.ProcessedFollows` | crates/delog-core/src/ingestor.rs:127-171 | After every message the published snapshot shows the writer's own stores, all that have rows; entries are only added or marked as removed, and stores only gain chunks. |
| `Publications.PublishedIsLineage` | crates/delog-core/src/ingestor.rs:477-493 | In every run of the writer all published snapshots, those that a message publishes on its way included, grow from one another by rows and have exact row counts: what the trace caches rely on. Epochs go up by at most one from each to the next, and the last one is current. |
| `Publications.TracesAreCoherent` | crates/delog-cache/src/manager.rs:114-135 | So beside any run of the writer, right after an epoch, for any of those snapshots, each finished trace cache of a field with data is the one that a new build would make. |
| `Publications.PublishedReportIsSound` | crates/delog-flow/src/eval.rs:94-278 | And reports from an empty cache on any of them are sound exactly if the scripts keep their outputs apart. |
| `IngestSafety.RunIsGood` | crates/delog-core/src/ingestor.rs:127-171 | The invariant behind this holds after every run. |
| `IngestSafety.ProcessedIsGood` | crates/delog-core/src/ingestor.rs:127-171 | Every kind of message keeps it. |
| `IngestRuns.BatchIsGood` | crates/delog-core/src/ingestor.rs:233-330 | A batch is taken in whole, once, sorted by time, into its topic, or not at all if it is empty or its source unknown. |
| `IngestRuns.EnsuredTopic` | crates/delog-core/src/ingestor.rs:332-349 | The topic of a batch is found, or made with its fields and an empty store, and fits the batch. |
| `IngestProofs.SealIsGood` | crates/delog-core/src/ingestor.rs:376-424 | Sealing cannot fail: the buffered rows become stored rows, nothing else changes, and the epoch goes up by one if there was a buffer. |
| `IngestProofs.SealingIsGood` | crates/delog-core/src/ingestor.rs:376-424 | Buffered pieces that follow each other in time merge to a chunk the store takes. |
| `IngestProofs.MonotonicUnlessRegressed` | crates/delog-core/src/ingestor.rs:289-330 | A store is in order whenever its topic never regressed; with an empty buffer, only then. |
| `IngestProofs.PublishSucceeds` | crates/delog-core/src/ingestor.rs:477-493 | Publication succeeds in every such state, raises the epoch by one, and no removed topic has a store in it. |
| `IngestRows.SortedPieceKeepsRows` | crates/delog-core/src/ingestor.rs:503-519 | Sorting a batch keeps every row with its cells. |
| `IngestRows.SealingSucceeds` | crates/delog-core/src/ingestor.rs:521-548 | Merged pieces make a valid chunk of exactly their rows. |
| `IngestRows.MergedRows` | crates/delog-core/src/ingestor.rs:521-548 | Merging keeps the rows in order. |
| `IngestRows.SortedStore` | crates/delog-core/src/store.rs:77-101 | The rows of a store are in order if and only if its chunks are. |
| `IngestSafety.AllOffsetsOrNone` | crates/delog-core/src/ingestor.rs:191-231 | If one listed offset is invalid nothing changes; otherwise every listed source gets its offset and no other changes. |
| `IngestSafety.RemoveIsGood` | crates/delog-core/src/ingestor.rs:426-439 | Removing a source flushes and drops it and its stores, keeps the invariant, and the source is no longer live. |
| `IngestEffects.OffsetTakesEffect` | crates/delog-core/src/ingestor.rs:150-158 | `SetSourceOffset` on a known source sets its offset to the given one and nothing else; if it was another, the epoch goes up by one and the published snapshot shows it. |
| `IngestEffects.OffsetsTakeEffect` | crates/delog-core/src/ingestor.rs:159-163 | A valid list of offsets is set as a whole, and published, once, exactly if one of them was another. |
| `IngestData.OffsetsValidExactly` | crates/delog-core/src/ingestor.rs:191-231 | A list is valid if and only if it names live sources, each once, and every row of theirs, stored or buffered, has a time of 64 bits under the new offset. |
| `IngestEffects.OpenTakesEffect` | crates/delog-core/src/ingestor.rs:174-190 | Opening makes a live source of that kind with its own label; its buffers are sealed at 65536 rows for files and derived data, at 512 for live streams. |
| `IngestEffects.NameTakesEffect` | crates/delog-core/src/ingestor.rs:165-170 | Renaming a live source is published, with its new label. |
| `IngestEffects.DropTakesEffect` | crates/delog-core/src/ingestor.rs:426-439 | Dropping a live source removes it, its topics, fields, stores and buffers, and publishes that. |
| `IngestEffects.BarrierTakesEffect` | crates/delog-core/src/ingestor.rs:127-132 | After a barrier nothing of the listed topics is buffered, and all stores are published. |
| `IngestEffects.CloseTakesEffect` | crates/delog-core/src/ingestor.rs:141-149 | Closing flushes the source, keeps it, and publishes once more exactly if metadata came with it. |
| `IngestSeals.SealTakesEffect` | crates/delog-core/src/ingestor.rs:376-424 | A seal makes one chunk of just the rows buffered, at the end of the topic's store, and publishes it; of an empty buffer it does nothing. |
| `IngestSeals.SealsTakeEffect` | crates/delog-core/src/ingestor.rs:441-475 | A list of seals makes one chunk of each listed buffer that holds rows, with one publication for each, and leaves every other buffer and store alone. |
| `IngestSeals.BatchSeals` | crates/delog-core/src/ingestor.rs:233-330 | A batch makes a chunk of its topic's buffer first exactly if it has an earlier row than one buffered, and of the buffer with its own rows exactly if that has reached the limit; each is published, and no other buffer or store is another. |
| `IngestData.BuffersStaySmall` | crates/delog-core/src/ingestor.rs:174-190 | In every run fewer than 65536 rows of a file, and 512 of a live stream, wait in a buffer. |
| `IngestData.DataIsReported` | crates/delog-core/src/ingestor.rs:233-330 | A batch is reported exactly for an unknown source, for rows out of order, and for a row earlier than one accepted before for its topic. |
| `IngestData.EveryColumnHasAField` | crates/delog-core/src/ingestor.rs:332-349 | In every run each column of a published store has a live field of its name. |
| `IngestObject.Writer.Process` | crates/delog-core/src/ingestor.rs:127-171 | In place, every message does what the specification says. |
| `IngestObject.Writer.TakeBatch` | crates/delog-core/src/ingestor.rs:233-330 | In place: topic, sort, regression note, early seal, buffer, full seal. |
| `IngestObject.Writer.Seal` | crates/delog-core/src/ingestor.rs:376-424 | In place: merge, chunk, append, publish. |
| `IngestObject.Writer.SetOffsets` | crates/delog-core/src/ingestor.rs:191-231 | In place: all offsets checked before the first is set. |
| `IngestObject.MergePieces` | crates/delog-core/src/ingestor.rs:521-548 | Column by column, the loops merge the pieces. |
| `FieldView.PrevSample` | crates/delog-core/src/field_view.rs:198-231 | The sample found is a latest one at or before the time, among those whose effective time does not overflow, if and only if the store is out of order, or there is none, or the last row with a value up to the time is among the last 65536 rows up to it. |
| `FieldView.NextSample` | crates/delog-core/src/field_view.rs:259-288 | The sample found is an earliest one at or after the time, among those whose effective time does not overflow, if and only if the store is out of order, or there is none, or fewer than 65536 steps lead to the first row with a value from the first row at or after the time, a step into the next chunk counting as one. |
| `FieldView.LatestTimeIsOne` | crates/delog-core/src/field_view.rs:198-231 | All latest samples are of one time, so fast lookup and scan agree on it whenever the fast one finds one. |
| `FieldView.EarliestTimeIsOne` | crates/delog-core/src/field_view.rs:259-288 | The same for the earliest samples. |
| `FieldView.WalkIsLatest` | crates/delog-core/src/field_view.rs:233-248 | When the bounded walk back finds the latest sample, exactly. |
| `FieldView.WalkIsEarliest` | crates/delog-core/src/field_view.rs:290-305 | When the bounded walk forward finds the earliest sample, exactly. |
| `FieldView.MonotonicIsSorted` | crates/delog-core/src/store.rs:77-101 | Chunks in order mean that all rows are in order: what binary search relies on. |
| `FieldView.PrevScan` | crates/delog-core/src/field_view.rs:215-230 | The scan of all chunks finds a latest sample; of several, the last one of the first chunk that has one. |
| `FieldView.NextScan` | crates/delog-core/src/field_view.rs:273-287 | The scan of all chunks finds an earliest sample; of several, the first one of the first chunk that has one. |
| `FieldView.RowsAreCells` | crates/delog-core/src/field_view.rs:342-349 | The rows searched are those of the chunks in turn, each with the cell of its column. |
| `FieldView.PrevFast` | crates/delog-core/src/field_view.rs:198-214 | Binary search over chunks, then rows, starts the walk back at the last row up to the time. |
| `FieldView.NextFast` | crates/delog-core/src/field_view.rs:259-272 | Binary search starts the walk on at the first row at or after the time. |
| `FieldView.LowerBound` | crates/delog-core/src/field_view.rs:379-391 | The first row at or after the time. |
| `FieldView.UpperBound` | crates/delog-core/src/field_view.rs:393-405 | The first row after the time. |
| `CommitFilter.WholeLog` | crates/delog-parsers/src/ardupilot.rs:513-716 | Over a whole log, topic by topic: the submitted rows never go back in time and are those that the one-row filter keeps, with the last row if none committed of its topic is later and it is at most a second past some committed row; `row_count` is their number and `time_range` their hull. |
| `LogAccounts.SeenExactly` | crates/delog-parsers/src/ardupilot.rs:723-736 | The rows seen are exactly those from the first record at 0 to 100,000,000 seconds on that lie from a second before it to a day after it, in their order. |
| `LogAccounts.SubmittedIsInTheLog` | crates/delog-parsers/src/ardupilot.rs:513-716 | Every row that is submitted, the flush included, is a record of the log that lies near its start. |
| `LogAccounts.AllPlaced` | crates/delog-parsers/src/ardupilot.rs:513-591 | Before the flush every record is committed, counted as implausible or held back, one held for each topic; and rows are submitted in batches of 8192 only, so fewer wait. |
| `CommitFilter.RunIsKept` | crates/delog-parsers/src/ardupilot.rs:513-591 | Before the final flush, each topic's committed rows, held row and last time are those of the filter applied to its rows in the window. |
| `CommitFilter.FilterAccounts` | crates/delog-parsers/src/ardupilot.rs:567-590 | Every row in the window is committed, dropped or the one held back; committed rows are in order. |
| `CommitFilter.CommittedExactly` | crates/delog-parsers/src/ardupilot.rs:567-590 | A row is committed when the next one comes if and only if no committed row is later and the next one is not earlier. |
| `CommitFilter.FlushAllIsKept` | crates/delog-parsers/src/ardupilot.rs:693-716 | The final flush treats every topic once, against the range before it, and leaves the others alone. |
| `CommitFilter.LogDecoder.DecodeRow` | crates/delog-parsers/src/ardupilot.rs:513-591 | In place: window, then the held row committed or dropped, then the new one held. |
| `CommitFilter.LogDecoder.FlushAll` | crates/delog-parsers/src/ardupilot.rs:693-716 | In place, topic by topic. |

## Left out

Contracts that say less than they might:

- GraphSafety.RunKeepsSound: commands are admissible (`Admissible` in `Commands`), as their callers make them; `AddNodeNeedsFreshId` and `OpenInputNeedsFittingConnection` show that nothing less will do.
- GraphHistory.Undo: the command is admissible.
- GraphSessions.ReachableGraphsAreSound: that refused commands had dropped well-typed edges only is enough, not necessary for one session: a refused batch can lose an edge and leave a sound graph. `SessionsAreSafeExactlyIfTyped` has the exact condition for all sessions.
- GraphSessions.SessionsAreSafeExactlyIfTyped: some id of 32 bits belongs to no node; without one no node can be added.
- GraphModel.Graph.AllocId: the last id, at which `next_id += 1` overflows, is excluded; 32-bit port numbers are unbounded except in documents.
- CacheAgreement.SharedCacheAgrees: a node that keeps its fingerprint keeps its provenance, since `StaleAfterPortChange` and `StaleAfterNodeChange` show runs that go stale otherwise; where no script runs there is no such condition (`SilentCacheAgrees`), and `RunIsRight` says for every run which reports are right. Hashing is taken to be injective and the script host to be deterministic; a cancellation is a number of nodes after which the flag is seen, and is not passed on to the host.
- TimelineReports.RunIsSound: the run is consistent, since `StaleTimeline` shows one in which a stale entry breaks a timeline; the same goes for `KernelsGetSoundInputs`.
- TimelineReports.ReportIsSound: the snapshot's fields stand at the index of their id, which `PublishedReportIsSound` shows of every published snapshot.
- DocumentProofs.DocumentRoundTrip: numbers are finite (section 6 of RFC 8259 has no others), the zoom is positive and unknown nodes have the form in which they were loaded.
- Align.AlignValues: on times that are not sorted the search need not end where the one of the standard library does; `KernelsGetSoundInputs` shows that kernels of consistent runs never pass such times.
- Trace.TraceCache.Append: the source's offset is unchanged; the manager drops the cache otherwise (`DropShifted`).
- CacheManager.RunIsCoherent: a topic's store only gains chunks, as `PublishedIsLineage` shows of the writer; `median_dt` is not modelled and the frame of last use is not compared.
- ManagerObject.CacheManager.EvictOverBudget: the size of a cache is any function of it, not its capacity in bytes.
- Columns.MinmaxColumns: coordinates are exact; of the 32-bit column computation only that it grows with x and is clamped is used, and `ViewIsValid` shows both for exact numbers.
- FieldView.PrevSample: the time asked for is that of some effective time, as in `sample_at`; a null or NaN cell is a gap.
- FieldView.NextSample: the same.
- IngestSafety.RowsAreConserved: a batch has one column per schema field, all of one length, and the schema of its topic; timestamps are not null. Which diagnostics are raised is kept, not their text. Ties in a sort, and the order in which buffers are flushed, are parameters.
- IngestProofs.PublishSucceeds: the epoch and the row counters have no upper limit; `Publish` in `Snapshots` has the limit.
- LogAccounts.SeenExactly: times are 64-bit numbers, as in the source.
- CommitFilter.WholeLog: a record is a topic, a time and a payload; how these are read from the bytes is not modelled.
- Frames.SplitDoesNotMatter: checksums and message parsing are any functions of the bytes of a frame.

Parts of the repository that are not modelled:

- Floating-point rounding and infinities: samples are exact numbers or gaps.
- The arithmetic of sums, products, scaling, conversions and interpolation between samples: any functions of numbers.
- Graph names and viewports under commands, which no command changes.
- The text and throttling of diagnostics, progress reports, metrics, observers.
- Column statistics of chunks, Arrow types and dtype mismatches, string samples, linear interpolation between samples.
- Y ranges of traces drawn as lines or steps, and dotted bridges across gaps.
- ArduPilot record sync, formats, units, parameters, markers and instances.
- MAVLink field extraction, parameters and requests.
- Source metadata and automatic markers.
- Threads, channels and clocks: messages, arrivals of builds and the ageing of live buffers are steps in any order.
- Export, visible-field statistics, Parquet import and its metadata, session files, scripting hosts, live transforms.
- Everything on screen: plots, panels, palettes, shaders, the 3D view.
