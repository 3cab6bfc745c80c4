# Carnot execution engine: a verified model

This project models the core of the Carnot query execution engine of Pixie in Dafny 4.11 and proves what its parts
promise. Carnot runs a plan as a graph of operators that exchange row batches. A row batch is a list of rows with an
end-of-window (eow) and an end-of-stream (eos) marker; a finished stream carries eos on its last batch only, together
with eow.

| file | what it models |
|---|---|
| `Basics.dfy` | types and facts shared by the other files |
| `RowBatches.dfy`, `Runs.dfy` | rows, batches, streams, and interleaved calls from several parents |
| `TimeMerge.dfy`, `UnionNode.dfy` | the time-ordered and the unordered union, and the stable k-way merge it must compute |
| `JoinSpec.dfy`, `JoinMeaning.dfy`, `EquijoinNode.dfy` | the hash equijoin, the nested-loop join it must compute, and what each join type means on the two tables |
| `AggSpec.dfy`, `AggMeaning.dfy`, `TwoPhaseAgg.dfy`, `AggNode.dfy` | group-by aggregation, per-group folds, windows, and partial aggregation over several agents |
| `RowTuple.dfy` | the reused key tuples of the join and aggregation tables |
| `LimitNode.dfy` | the limit operator |
| `Graphs.dfy`, `TopologicalSort.dfy`, `TransitiveDeps.dfy`, `Dag.dfy`, `DagRuns.dfy` | the plan DAG: edits, sorting, dependency search, serialized form |
| `SourceTracker.dfy`, `Streaming.dfy`, `StreamingProgress.dfy`, `GrpcRouter.dfy` | result streams between agents: router, source nodes, scheduler, yield and wakeup, and progress |
| `Varints.dfy`, `Wire.dfy`, `CarnotCodec.dfy` | the protobuf codec of the transfer messages (sections "Base 128 Varints" and "Message Structure" of the Protocol Buffers Encoding specification) |
| `BatchSplitter.dfy` | splitting a batch to a byte target before it is sent |

`dafny verify dfyconfig.toml` checks everything.

## How to read it

Objects that the source updates in place are classes whose methods are proved to keep an invariant that ties the
fields to a specification; drivers such as `RunOrdered`, `RunJoin`, `RunAgg` and `RunLimit` create a node, feed it an
arbitrary sequence of calls and state the outcome. Specifications are defined without reference to the node: a merge
that always takes the least head, a nested loop, a fold per key, a set of arcs, a front-to-back encoding. The
concurrent protocol is a state machine with one atomic step per lock-held region, and its theorems quantify over all
runs.

Values are read as one integer (fixed-size types) or a string. User-defined aggregates are an abstract state with
operations; two-phase aggregation assumes the laws named in `AggSpec.Uda.Lawful` (merging is commutative and folds
both inputs, deserializing undoes serializing, a fresh instance adopts what is merged into it), and nothing else
about them. Hash tables are maps whose iteration order is arbitrary. Clocks and timeouts are arbitrary choices.
Shifts in the varint code work on 64-bit words; the decoding loop or-s bits into its word, and `Varints.OrIsAdd` shows
that this adds them. The decoder of the row batch inside a message is an arbitrary function that may fail.

## Results that differ from what one might expect

- `DAG::DeleteNode` leaves the index entry of the node's first parent behind. After any history of edits the index
  holds exactly the arcs and the stale entries (`DagRuns.RunEdits`), and an entry is stale if and only if the deletion
  of its child left it behind and no later edit rebuilt its row or added its arc (`DagRuns.StaleExactly`).
  `DagRuns.StaleEdge` is a concrete history in which the index reports an edge that is gone.
- `ReplaceChildEdge` and `ReplaceParentEdge` keep the lists coherent if and only if the replaced edge is there and
  the new one is not (or is the same edge). `AddEdge` does if and only if the edge is new.
- `TopologicalSort` keeps the front of its queue in an `int`, so it returns a topological order if and only if the
  graph is acyclic and all node ids fit in 32 bits; with nothing ignored, the same condition decides whether a graph
  survives serialization (`DagRuns.RoundTrip`).
- The health check of a gRPC source reads the queue and then the closed flag, and the stream goes on in between. It
  can therefore fail a source whose end of stream was accepted (`Streaming.HealthCheckRace`, from every state in which
  a check found an empty queue of an open stream). In every run this happens if and only if that end of stream was
  delivered after the check had read the queue (`Streaming.FailedAfterEos`).
- The number of consecutive calls per source is not checked. If it is positive, every queued batch of a running source
  can be served (`StreamingProgress.QueuedBatchIsServed`); if it is not, no batch is ever taken
  (`StreamingProgress.WithoutCalls`).
- A `SinkResult` whose row-batch wrapper is set but holds no row batch does not survive a round trip; every other
  message whose row batch decodes does (`CarnotCodec.RoundTrip`).

## Model

| member | source | states |
|---|---|---|
| `TimeMerge.MergeStep` | src/carnot/exec/union_node.cc:201-236 | any head that is least by (time, parent) is the first element of the merge, and the merge of the remaining rows follows it |
| `TimeMerge.MergeIsStable` | src/carnot/exec/union_node.cc:172-239 | for time-sorted parents the merge is sorted by (time, parent) and contains each parent's rows in their order |
| `TimeMerge.StableMergeUnique` | src/carnot/exec/union_node.cc:172-239 | there is only one such interleaving, so the output is determined by the parent streams alone |
| `TimeMerge.ConfluentAppend` | src/carnot/exec/union_node.cc:186-236 | appending the least head is right for every continuation of the streams, provided only ended parents lack a row |
| `TimeMerge.ConfluentArrive` | src/carnot/exec/union_node.cc:260-266 | an arriving batch keeps the appended rows right for every continuation that is still possible |
| `TimeMerge.ConfluentNow` | src/carnot/exec/union_node.cc:181-200 | what was merged is a prefix of the merge of what arrived, and every row of a parent without buffered rows is in it |
| `UnionNodes.UnionNode.InputsComplete` | src/carnot/exec/union_node.cc:91-98 | true exactly when every parent's end of stream has been popped |
| `UnionNodes.UnionNode.AppendRow` | src/carnot/exec/union_node.cc:114-125 | the mapped columns of the row at the parent's cursor join the builders, and sent rows plus builders remain the rows appended so far |
| `UnionNodes.UnionNode.OptionallyFlushRowBatchIfTimeout` | src/carnot/exec/union_node.cc:128-147 | after a timeout with pending rows exactly those rows are sent as one batch without markers; otherwise nothing changes |
| `UnionNodes.UnionNode.OptionallyFlushRowBatchIfMaxRowsOrEOS` | src/carnot/exec/union_node.cc:150-159 | afterwards the builders are below the batch size, a batch that is sent is full or the last, and the end is sent exactly when all parents have ended |
| `UnionNodes.UnionNode.FlushBatch` | src/carnot/exec/union_node.cc:161-170 | the builders become a batch; eos is set exactly when all inputs are complete; sent rows stay the appended rows |
| `UnionNodes.UnionNode.CacheNextRowBatch` | src/carnot/exec/union_node.cc:241-258 | 0-row batches are popped, a popped eos marks the parent, and the rows left to merge do not change |
| `UnionNodes.UnionNode.AppendNextRow` | src/carnot/exec/union_node.cc:205-235 | the least row is appended and removed from what is left, and the node invariant holds again |
| `UnionNodes.UnionNode.MergeFrom` | src/carnot/exec/union_node.cc:201-236 | taking rows from the least parent until another parent's row comes first makes progress and keeps the invariant |
| `UnionNodes.UnionNode.MergeData` | src/carnot/exec/union_node.cc:172-239 | it merges as far as it can: it stops only when the end was sent or some parent that has not ended has no row left |
| `UnionNodes.UnionNode.ConsumeNextOrdered` | src/carnot/exec/union_node.cc:260-266 | one call adds its rows to what arrived and leaves the end sent exactly when all parents have ended, or else a parent that has not ended without a row; a timeout leaves nothing pending, and without one every sent batch stays full |
| `UnionNodes.UnionNode.ConsumeNextUnordered` | src/carnot/exec/union_node.cc:268-282 | the mapped batch is forwarded; the stream ends exactly when the last parent has |
| `UnionNodes.UnionNode.MergedSoFar` | src/carnot/exec/union_node.cc:172-266 | at any moment output plus builders is a prefix of the merge of every completion of the streams, and at the end it is that merge |
| `UnionNodes.MergeIsInterleaved` | src/carnot/exec/union_node.cc:100-239 | the merge in rows and columns: every row of every parent appears exactly once as its mapped columns, by time, then by parent, then in arrival order |
| `UnionNodes.RunOrdered` | src/carnot/exec/union_node.cc:172-266 | for every interleaving, batching and choice of timeouts: output plus pending rows is a prefix of the final merge and goes as far as some parent that has not ended allows; the finished output is exactly the merge, row by row the mapped columns of an interleaving of the parents sorted by time; the stream is well formed, its batches are within the limit and without timeouts full up to the last |
| `UnionNodes.RunUnordered` | src/carnot/exec/union_node.cc:268-282 | all rows are forwarded in arrival order, output column `i` of each being its mapped column `i`, and the output ends exactly once, when all parents have ended |
| `JoinSpec.UnmatchedExactlyOnce` | src/carnot/exec/equijoin_node.cc:398-411 | the rows emitted without a partner are, as a multiset, the build rows whose key was never probed, each padded with defaults |
| `JoinMeaning.JoinMeans` | src/carnot/exec/equijoin_node.cc:64-90 | as a multiset a join is, for INNER, one row per pair of a left and a right row that agree on all conditions; for LEFT_OUTER also one per left row without a partner; for FULL_OUTER also one per right row without a partner; whichever table is probed |
| `JoinMeaning.OutColumn` | src/carnot/exec/equijoin_node.cc:103-113 | output column `i` is the named column of the left or the right row, or the default of its type if that row is missing |
| `Equijoin.InitImpl` | src/carnot/exec/equijoin_node.cc:53-116 | the probe side follows the time order, unmatched rows are kept as `JoinMeaning.JoinMeans` says of the join type, key and output columns go to the right table, and only an unknown join type is an error |
| `Equijoin.AppendColumns` | src/carnot/exec/equijoin_node.cc:278-325 | the columns of one table grow by that column of every queued output row; the other table's columns do not change |
| `Equijoin.ChunkTiles` | src/carnot/exec/equijoin_node.cc:327-347 | a chunk extends the pairs emitted for a match run by exactly its rows, without gap or overlap |
| `Equijoin.EquijoinNode.HashRowBatch` | src/carnot/exec/equijoin_node.cc:200-239 | the table holds, for every key, the build rows with that key in arrival order, and their number |
| `Equijoin.EquijoinNode.NextOutputBatch` | src/carnot/exec/equijoin_node.cc:266-276 | the builders become the pending batch with exactly the rows whose columns they hold, and the previous pending batch is sent |
| `Equijoin.EquijoinNode.FlushChunkedRows` | src/carnot/exec/equijoin_node.cc:278-325 | the queued chunks become the next batch and the output produced so far does not change |
| `Equijoin.EquijoinNode.QueueRun` | src/carnot/exec/equijoin_node.cc:333-346 | each round queues at least one and at most the available rows of a match run, and the queue never exceeds the batch limit |
| `Equijoin.EquijoinNode.MatchBuildValuesAndFlush` | src/carnot/exec/equijoin_node.cc:327-347 | the output grows by the probe row paired with each match, in order, whatever the batch limit |
| `Equijoin.EquijoinNode.DoProbe` | src/carnot/exec/equijoin_node.cc:349-396 | after a probe batch the output is the nested loop over all rows probed so far |
| `Equijoin.EquijoinNode.EmitUnmatchedBuildRows` | src/carnot/exec/equijoin_node.cc:398-411 | the keys that were never probed are emitted, each once, in some order |
| `Equijoin.EquijoinNode.ConsumeBuildBatch` | src/carnot/exec/equijoin_node.cc:413-429 | build rows join the table; when the build side ends, the waiting probe batches are joined in their order |
| `Equijoin.EquijoinNode.ConsumeProbeBatch` | src/carnot/exec/equijoin_node.cc:431-438 | a probe batch waits until the build side has ended and is joined at once afterwards |
| `Equijoin.EquijoinNode.ConsumeNextImpl` | src/carnot/exec/equijoin_node.cc:440-473 | one call from either parent keeps the node invariant, and the end is sent exactly when both sides have ended |
| `Equijoin.RunJoin` | src/carnot/exec/equijoin_node.cc:53-473 | for every interleaving and batching: the finished output is, as a multiset, what the join type means on the left and the right table; in order it is the nested-loop join followed by the partnerless build rows if they are kept; the output ends only when both streams have, every batch has 1 to the limit rows (one empty batch only for an empty join), and eos is on the last batch only |
| `AggSpec.FoldPermutation` | src/carnot/exec/agg_node.cc:585-619 | under the aggregate laws a fold depends only on the multiset of its inputs |
| `AggSpec.WindowsPartition` | src/carnot/exec/agg_node.cc:171-182 | the closed windows and the open one partition the input rows in order |
| `AggSpec.OneWindow` | src/carnot/exec/agg_node.cc:171-173 | a finished stream of an aggregate that is not windowed is a single window |
| `AggSpec.ReportsWellFormed` | src/carnot/exec/agg_node.cc:397-404 | one batch per closed window, with its markers, is a finished stream if the input is |
| `AggMeaning.ReportsByWindow` | src/carnot/exec/agg_node.cc:171-220 | in a windowed aggregate, output batch `i` has the markers of the `i`-th batch with eow and the aggregate of the rows behind the previous such batch up to it, and there is one for each |
| `AggMeaning.AggregateMeans` | src/carnot/exec/agg_node.cc:323-380 | every row has the output row of its group: the group columns, then each aggregate finalized or serialized over the arguments of the rows that agree on them, in order; every output row is one of these, and no two agree on the group columns |
| `AggMeaning.UngroupedMeans` | src/carnot/exec/agg_node.cc:184-220 | without group columns there is exactly one output row, each aggregate over the arguments of all rows in order |
| `TwoPhaseAgg.MergeIsFold` | src/carnot/exec/agg_node.cc:592-619 | merging serialized states into a fresh instance yields the fold over all inputs behind them |
| `TwoPhaseAgg.TwoPhasePreservesMeaning` | src/carnot/exec/agg_node.cc:284-377 | for every distribution of rows over agents and every arrival order of their partial results, what the merging node emits is an aggregate of all rows |
| `TwoPhaseAgg.AggregateUnique` | src/carnot/exec/agg_node.cc:323-380 | the aggregate of some rows is determined up to the order of its groups |
| `Agg.CreateColumnMapping` | src/carnot/exec/agg_node.cc:514-550 | a partial aggregate stores exactly the columns its aggregates read, each once and where the mapping says; a merging one stores one column per group and value |
| `Agg.CreateUDAInfoValues` | src/carnot/exec/agg_node.cc:561-583 | new aggregates stand for no rows: initialized when folding, merely made when merging |
| `Agg.ExecBatchUpdate` | src/carnot/exec/agg_node.cc:465-505 | updating from the collected columns is updating with the arguments of the collected rows, in order |
| `Agg.EvaluateAggHashValue` | src/carnot/exec/agg_node.cc:465-512 | folding the collected rows of a group and clearing them does not change what the group stands for |
| `Agg.EvaluatePartialAggregates` | src/carnot/exec/agg_node.cc:293-306 | compaction at any threshold leaves the meaning of every group unchanged |
| `Agg.FindGroups` | src/carnot/exec/agg_node.cc:252-270 | afterwards there is an entry for exactly the keys seen, and the entries still stand for the rows before the batch |
| `Agg.ExtractColumns` | src/carnot/exec/agg_node.cc:272-283 | every group's collected columns grow by that group's rows of the batch, and its aggregates do not change |
| `Agg.DeserializeAndMergeGrouped` | src/carnot/exec/agg_node.cc:592-602 | every group's states are merged with the partial states of its rows, in arrival order |
| `Agg.DeserializeAndMergeRow` | src/carnot/exec/agg_node.cc:604-619 | every aggregate takes in its own partial state of the row, and no other |
| `Agg.DeserializeAndMergeNoGroups` | src/carnot/exec/agg_node.cc:585-590 | the single group takes in the partial states of all rows, in order |
| `Agg.EvaluateSingleExpressionNoGroups` | src/carnot/exec/agg_node.cc:423-463 | the aggregate's state becomes the fold over the window including the batch |
| `Agg.ConvertAggHashMapToRowBatch` | src/carnot/exec/agg_node.cc:323-380 | one row per distinct key of the window, with the key and the finalized or serialized fold over that key's rows |
| `Agg.AggNode.HashRowBatch` | src/carnot/exec/agg_node.cc:248-291 | the table stands for the window extended by the batch |
| `Agg.AggNode.ClearAggState` | src/carnot/exec/agg_node.cc:175-182 | afterwards the aggregates stand for no rows |
| `Agg.AggNode.AggregateGroupByNone` | src/carnot/exec/agg_node.cc:184-220 | one call keeps: a report per closed window so far, and states that stand for the open window |
| `Agg.AggNode.AggregateGroupByClause` | src/carnot/exec/agg_node.cc:382-406 | one call keeps: a report per closed window so far, and a table that stands for the open window |
| `Agg.RunAgg` | src/carnot/exec/agg_node.cc:155-406 | for every batching and threshold: a windowed aggregate sends one batch per batch with eow, with its markers and the aggregate of the rows since the previous one; one that is not windowed sends a single aggregate of everything; a finished input gives a finished output |
| `Agg.RunFinalAgg` | src/carnot/exec/agg_node.cc:155-406 | a finalizing node fed the partial results of any agents in any order sends, for every window, the aggregate of all rows the agents had in it |
| `RowTuples.RowTuple.constructor` | src/carnot/exec/row_tuple.h:72-79 | a new tuple has zeroed slots and no values |
| `RowTuples.RowTuple.Reset` | src/carnot/exec/row_tuple.h:81-84 | the values are forgotten although the slots keep their bytes, and bytes behind a column's width stay zero |
| `RowTuples.RowTuple.SetValue` | src/carnot/exec/row_tuple.h:192-203 | writing the next column sets only its width in the slot, and the slot then is a function of the value and the column |
| `RowTuples.RowTuple.GetValue` | src/carnot/exec/row_tuple.h:206-221 | the value that was set is read back, strings through their index |
| `RowTuples.RowTuple.Equals` | src/carnot/exec/row_tuple.h:109-133 | two fully written tuples compare equal exactly when all their column values agree |
| `RowTuples.RowTuple.Hash` | src/carnot/exec/row_tuple.h:140-153 | the hash is a function of the column values alone, whatever the tuple held before |
| `RowTuples.RowTuple.CheckSequentialWriteOrder` | src/carnot/exec/row_tuple.h:160-177 | the check succeeds on every tuple that was written in column order |
| `RowTuples.ComparePooled` | src/carnot/exec/row_tuple.h:72-177 | after any two histories of reuse, tuples are equal exactly when their last rows are, and equal tuples hash equally |
| `Limit.LimitNode.ConsumeNextImpl` | src/carnot/exec/limit_node.cc:55-99 | one call keeps: the sent rows are the selected columns of the first rows, and after the limit nothing more is sent and the sources are stopped |
| `Limit.RunLimit` | src/carnot/exec/limit_node.cc:55-99 | the output has as many rows as the input but at most `record_limit`, output column `i` of row `k` being the selected column `i` of input row `k`; it is a finished stream for a finished input, and the abortable sources are stopped exactly when the limit is reached |
| `TopologicalSorting.TopologicalSort` | src/carnot/dag/dag.cc:311-347 | on every coherent graph, parallel edges included, it stops; it returns every node once with each edge leading forward exactly when the graph has no cycle and its ids fit in 32 bits; with such ids it fails exactly on a cycle |
| `TopologicalSorting.Finished` | src/carnot/dag/dag.cc:330-346 | when the queue runs dry, all nodes were ordered if and only if the graph is acyclic |
| `Graphs.LeftoverMeansCycle` | src/carnot/dag/dag.cc:345-345 | nodes that each have a parent among themselves contain a cycle |
| `Graphs.OrderMeansAcyclic` | src/carnot/dag/dag.cc:345-346 | a graph with a topological order has no cycle |
| `TransitiveDependencies.TransitiveDepsFrom` | src/carnot/dag/dag.cc:268-299 | it terminates, fails exactly when a cycle is reachable, and otherwise returns exactly the nodes reached over one or more edges |
| `TransitiveDependencies.CycleFound` | src/carnot/dag/dag.cc:290-290 | a gray dependency closes a cycle that is reachable from the start |
| `TransitiveDependencies.StartMeasure` | src/carnot/dag/dag.cc:281-296 | starting a visit leaves fewer unvisited nodes, or the node was finished and only a pending visit is used up |
| `Dag.DAG.HasEdge` | src/carnot/dag/dag.cc:263-266 | it holds exactly for the arcs and the stale entries |
| `Dag.DAG.AddNode` | src/carnot/dag/dag.cc:100-106 | the node is added with empty lists; the arcs and the index do not change |
| `Dag.DAG.AddEdge` | src/carnot/dag/dag.cc:121-144 | the edge is appended to both lists and indexed, and is not stale any more; the lists stay coherent exactly when it is new |
| `Dag.DAG.DeleteEdge` | src/carnot/dag/dag.cc:191-209 | the arc is removed from both lists and the index, present or not, and the row of the index loses its stale entries |
| `Dag.DAG.ReplaceChildEdge` | src/carnot/dag/dag.cc:211-235 | the child is replaced in place and the index row rebuilt; the lists stay coherent exactly when the replaced edge was there and the new one was not |
| `Dag.DAG.ReplaceParentEdge` | src/carnot/dag/dag.cc:237-261 | the parent is replaced in place, one index row rebuilt and one extended; the lists stay coherent exactly when the replaced edge was there and the new one was not |
| `Dag.DAG.DeleteParentEdges` | src/carnot/dag/dag.cc:146-168 | all edges into the node leave both lists, and the index loses every parent's entry but the first one's |
| `Dag.DAG.DeleteDependentEdges` | src/carnot/dag/dag.cc:170-189 | all edges out of the node leave both lists and the index |
| `Dag.DAG.DeleteNode` | src/carnot/dag/dag.cc:110-119 | lists lose exactly the node's arcs and keep their order; the index keeps the first parent's entry, so without stale entries before there is none after exactly when there was no parent or the first was the node itself |
| `Dag.DAG.Init` | src/carnot/dag/dag.cc:44-55 | the graph holds exactly the serialized nodes, their ordered children and parents, and an index entry per child; the check for new nodes fails exactly when an id occurs twice |
| `Dag.EraseFirst` | src/carnot/dag/dag.cc:191-209 | erasing takes out the first occurrence and keeps the order of what stays |
| `Dag.ShowsCoherent` | src/carnot/dag/dag.cc:311-347 | duplicate-free transposed lists form a coherent graph, so sorting applies to every graph the edits can build |
| `DagRuns.RunEdits` | src/carnot/dag/dag.cc:100-266 | after any sequence of allowed edits the lists show exactly the arcs the edits leave, with parents and children in the order of the edits, and the index holds exactly those arcs and the stale entries |
| `DagRuns.StaleExactly` | src/carnot/dag/dag.cc:100-261 | an entry is stale exactly when a deletion of its child left it behind, as the entry of the first parent, and no later edit settled it |
| `DagRuns.StaleEdge` | src/carnot/dag/dag.cc:110-168 | a history of allowed edits after which the index reports an edge that neither list has |
| `DagRuns.ToProto` | src/carnot/dag/dag.cc:57-98 | the nodes outside the ignored ones in the order of the sort, with their remaining children and parents in order; the order is topological exactly when the graph is acyclic with ids that fit in 32 bits, and with such ids it fails exactly on a cycle |
| `DagRuns.RoundTrip` | src/carnot/dag/dag.cc:44-98 | serializing and reading back an acyclic graph with ids that fit in 32 bits yields the induced subgraph on the nodes not ignored; with nothing ignored, the graph comes back exactly when it is such a graph |
| `DagRuns.InducedByNothing` | src/carnot/dag/dag.cc:44-73 | with nothing ignored, nodes, ordered children, ordered parents and `HasEdge` are restored |
| `DagRuns.InducedEdges` | src/carnot/dag/dag.cc:75-98 | the induced subgraph has exactly the edges between nodes not ignored, in lists and index |
| `SourceTracking.CloseSafety` | src/carnot/exec/exec_graph.cc:142-154 | a health check that reads the queue and later the closed flag fails a source exactly when everything delivered before the first read was consumed, no end was sent and the stream had ended by the second; an end of stream it misses arrived in between |
| `GrpcRouter.SourceNodeTracker.EnqueueRowBatch` | src/carnot/exec/grpc_router.cc:44-69 | the batch joins the backlog or the node's queue, conservation holds, and a restart is asked for exactly when the node is registered |
| `GrpcRouter.SourceNodeTracker.MarkResultStreamClosed` | src/carnot/exec/grpc_router.cc:71-84 | the close is noted in the tracker or the node, after all batches that were accepted |
| `GrpcRouter.SourceNodeTracker.AddGRPCSourceNode` | src/carnot/exec/grpc_router.cc:223-241 | the node takes over the flags and the whole backlog in order |
| `GrpcRouter.SourceNodeTracker.GenerateNext` | src/carnot/exec/grpc_source_node.cc:52-83 | the oldest batch is taken, and the source has ended once an end of stream was taken |
| `Streaming.StepKeepsInv` | src/carnot/exec/exec_graph.cc:124-299 | every step of every thread keeps the protocol invariant |
| `Streaming.Conservation` | src/carnot/exec/grpc_router.cc:44-241 | in every run, for every source: batches popped, queued and in the backlog are the batches accepted, in order |
| `Streaming.FailedAfterEos` | src/carnot/exec/exec_graph.cc:142-173 | in every run, a failing health check had the end of stream of its source accepted exactly when it found the connection closed and that end was delivered after its read of the queue; a check that misses its deadline never had |
| `Streaming.HealthCheckRace` | src/carnot/exec/exec_graph.cc:149-154 | from every state in which a check found an empty queue of an open stream, an end of stream and a close can follow before the second read, and the check fails the complete source |
| `Streaming.OpenCheckReached` | src/carnot/exec/exec_graph.cc:187-222 | the first check of a query reaches such a state |
| `Streaming.NoLostWakeup` | src/carnot/exec/exec_graph.cc:247-295 | in every run, if a running source has data while the executor yields or is blocked, `continue_` is set or a handler is about to set it |
| `Streaming.WakeupArrives` | src/carnot/exec/exec_graph.cc:124-140 | from a blocked executor with a handler about to wake it, every run of the streams in which that handler takes two more steps ends with the executor able to wake |
| `Streaming.WakeupPossible` | src/carnot/exec/exec_graph.cc:124-140 | nothing blocks those steps: a blocked executor with a wakeup coming can be woken within three steps |
| `Streaming.EosDiscipline` | src/carnot/exec/exec_graph.cc:187-299 | in every run: at most one end of stream per source, no generation after it or after a stop, no ended source running at the loop head, and on success every source has ended or was stopped |
| `StreamingProgress.CallsEnd` | src/carnot/exec/exec_graph.cc:221-226 | in every run, the calls for a source go on exactly as long as fewer batches than chosen were generated, its queue holds a batch, and it has neither ended nor been stopped |
| `StreamingProgress.NeverStuck` | src/carnot/exec/exec_graph.cc:187-299 | in every run, an executor that is not blocked can take a step of its own other than a failure |
| `StreamingProgress.QueuedBatchIsServed` | src/carnot/exec/exec_graph.cc:187-299 | from every reachable state, for any positive number of calls per source, steps of the executor and of handlers that wake it hand any queued batch of a running source to it, after those before it, or end the source; they do hand it over unless the source has ended, has an end of stream before it, or is found closed by a check under way |
| `StreamingProgress.CanReturn` | src/carnot/exec/exec_graph.cc:187-299 | from every reachable state in which every running source has ended or has its end of stream queued, such steps make the query return successfully |
| `StreamingProgress.WithoutCalls` | src/carnot/exec/exec_graph.cc:221-226 | in a run without calls no source takes a batch, so the number of calls must be positive |
| `Varints.SovIsLength` | src/carnot/carnotpb/carnot.pb.go:1552-1554 | the bit-length formula is the number of bytes of the varint |
| `Varints.VarintMeans` | src/carnot/carnotpb/carnot.pb.go:1383-1393 | the low seven bits of the bytes are the number in base 128, least significant first; all bytes but the last have the top bit set, and the last is not a needless zero |
| `Varints.EncodeVarint` | src/carnot/carnotpb/carnot.pb.go:1383-1393 | the varint is written so that it ends at the offset, and nothing else changes |
| `Varints.VarintRoundTrip` | src/carnot/carnotpb/carnot.pb.go:1958-1973 | decoding a 64-bit varint returns the number and consumes exactly its bytes, whatever follows |
| `Varints.OrIsAdd` | src/carnot/carnotpb/carnot.pb.go:1959-1969 | or-ing the bits of the next byte into what the bytes before it gave adds them, and the sum fits below the next byte or in 64 bits |
| `Varints.TopBit` | src/carnot/carnotpb/carnot.pb.go:1959-1969 | of the tenth byte only the lowest bit reaches the 64-bit word |
| `Varints.DecodeVarintAt` | src/carnot/carnotpb/carnot.pb.go:1958-1973 | the loop decodes the varint at an index to a 64-bit number, with the overflow and end-of-buffer errors |
| `Wire.SkipCarnot` | src/carnot/carnotpb/carnot.pb.go:2362-2439 | the skipping loop with its group depth computes the end of the field, or the error, of the reference definition |
| `Wire.SkipField` | src/carnot/carnotpb/carnot.pb.go:2362-2439 | skipping from the start of any well-formed field, nested groups included, ends right behind it |
| `CarnotCodec.Size` | src/carnot/carnotpb/carnot.pb.go:1462-1549 | the computed size is the length of the encoding |
| `CarnotCodec.MarshalToSizedBuffer` | src/carnot/carnotpb/carnot.pb.go:1198-1380 | writing backwards puts the front-to-back encoding at the end of the buffer and changes nothing else |
| `CarnotCodec.Marshal` | src/carnot/carnotpb/carnot.pb.go:1183-1351 | the buffer of the computed size is filled exactly with the fields of the message by number: 1 `success` if true, 2 `message` if not empty; 1 row batch if there is one, then 2 source id or 3 table name |
| `CarnotCodec.MessageIsFields` | src/carnot/carnotpb/carnot.proto:46-95 | the front-to-back encoding is the encoding of those fields by number and wire type |
| `CarnotCodec.Unmarshal` | src/carnot/carnotpb/carnot.pb.go:1953-2360 | the field loops decode the buffer to the message, or the error, of the reference definition, whatever the decoder of the row batch says |
| `CarnotCodec.DecodesFields` | src/carnot/carnotpb/carnot.pb.go:1953-2360 | well-formed fields in any order, with repetitions and unknown ones between them: decoding gives the last field of each number (`success` is a nonzero value; source id and table name displace each other), and otherwise the error of the first field with the wrong wire type or a row batch that does not decode |
| `CarnotCodec.LastOfMeans` | src/carnot/carnotpb/carnot.pb.go:1953-2360 | the last field with one of some numbers: it occurs, and no later field has one of them |
| `CarnotCodec.RoundTrip` | src/carnot/carnotpb/carnot.pb.go:1198-2360 | decoding an encoded message returns it exactly when its row batch decodes and it has no empty row-batch wrapper; otherwise the error of the row batch, or the message without the wrapper |
| `CarnotCodec.Transfer` | src/carnot/carnotpb/carnot.pb.go:1183-2360 | marshalling and unmarshalling through the buffer returns the message, or the error of its row batch |
| `CarnotCodec.UnknownFieldIgnored` | src/carnot/carnotpb/carnot.pb.go:2069-2087 | an unknown well-formed field between any two fields changes neither whether a buffer decodes nor to what |
| `BatchSplitter.GetRowSizes` | src/carnot/exec/grpc_sink_node.cc:216-234 | per row the number of characters of its strings in string columns, joined, and the bytes of the fixed-size columns |
| `BatchSplitter.SplitGreedily` | src/carnot/exec/grpc_sink_node.cc:241-255 | the loop returns the greedy split: positive sizes that cover all rows, each fitting the target or a single row, and none that could take one more row |
| `BatchSplitter.SplitEvenly` | src/carnot/exec/grpc_sink_node.cc:257-272 | the division path returns the greedy split as well |
| `BatchSplitter.GreedyUnique` | src/carnot/exec/grpc_sink_node.cc:236-274 | there is only one greedy split, so both paths return the same list |
| `BatchSplitter.GreedyOptimal` | src/carnot/exec/grpc_sink_node.cc:236-274 | no valid contiguous split uses fewer batches |
| `BatchSplitter.SplitAndSendBatch` | src/carnot/exec/grpc_sink_node.cc:276-303 | the slices of the greedy split are sent in order, they concatenate to the batch, and only the last carries its markers |

## Left out

- Reconnecting, retries, cancellation, authentication and wall-clock deadlines of the gRPC sink and router; a deadline is an arbitrary choice in the protocol.
- Deleting queries and source nodes from the router, requests without a row batch, execution statistics and upstream error lists.
- Sources other than gRPC sources in the scheduler (memory, UDTF, ClickHouse), which have no upstream connection to check.
- Memory-level races: a lock-held region is one step, the source queue is a FIFO, and a health check is two steps, the read of the queue and the reads of the connection flags.
- Downstream connection checks beyond the fact that any of them may fail the query.
- Arrow builders, memory pools and column types: a batch is a list of rows, and slicing clears both markers.
- How the join stores build columns: the table keeps whole build rows, and columns are taken from them when chunks are flushed.
- The row tuples inside the join and aggregation tables are replaced by keys that compare by value, which `RowTuples.ComparePooled` justifies.
- The row batch inside a `SinkResult` is kept as its encoding; the codec of `RowBatchData` and of the other messages is not part of this model.
- Descriptor checks in `InitImpl` of the join and the aggregation, operator names and debug strings.
- Agg.RunAgg: a group-by aggregate that folds rows must read at least one column (`Agg.Runnable`), because early folding looks at the first collected column and the source does not check that there is one.
- Agg.RunFinalAgg: every window has at least one agent, because without any the finalizing node has nothing to merge.
- BatchSplitter.SplitAndSendBatch: needs at least one row and rows of positive size without string columns, as the source divides by that size and counts down from the number of batches.
- RowTuples.RowTuple.SetValue: columns are written in index order, which the source only checks in debug builds.
- Map, filter and the expression evaluators, ClickHouse and OpenTelemetry nodes, `DAG::Orphans`, and all of Stirling would only add easy members or rest on sources outside this model.
