# Verified model of the embedding server

The server turns texts into vectors around one opaque ONNX call. This project
models the logic around that call and proves what it promises: how concurrent
requests are coalesced into batches, how sessions are pooled, how one request is
cut into sub-batches and put back together, how tensors are built and pooled, how
a graph is rewritten, how responses are cached, and how sparse vectors, rankings
and wire frames are produced. `dafny verify dfyconfig.toml` checks all of it.

| files | what they model |
|---|---|
| `BatchGates`, `BatchReplies`, `BatchMachine`, `BatchInvariant`, `BatchTheorems`, `BatchCarry`, `BatchWorker`, `BatchExamples` | the dynamic batcher: admission gates, one dispatch, the worker as a machine over arbitrary schedules with its invariant and whole-run theorems, the worker's own nested loops proved to be runs of that machine, and runs that show where a promise stops |
| `SlotPool`, `PoolTheorems`, `EvictablePool`, `SharedPool` | the evictable session pool: every locked section and unlocked read of every thread as one step, theorems over all interleavings, the operations in place, and `acquire` as one thread runs it among the others |
| `SeqLen`, `Sorting`, `Subbatch`, `Pooling`, `PoolingExact`, `EmbedModel` | rounding of lengths, stable sorting, the greedy sub-batch plan, tensor building and mean pooling in place, and the whole of `embed_tokens` |
| `OnnxGraph`, `TopoSort`, `AlibiBias`, `AlibiPatch`, `AlibiSite`, `AlibiOrder`, `AlibiCycle`, `AlibiTheorems`, `AlibiExample`, `AlibiCyclicExample` | a semantics of ONNX graphs, the topological sort, the ALiBi rewrite and the theorem that it preserves meaning |
| `CacheFlow` | the response cache and the handler around it |
| `Splade`, `SpladeExamples`, `Rerank`, `Frames` | sparse encoding on both paths, rerank results, length-prefixed frames |

Abstractions. The model call is any function that is row-wise when it returns one
vector per row; timeouts, arrivals, disconnects, evictions and clock readings are
events or parameters, so every theorem holds for all of them. Floating-point
operations are uninterpreted in pooling (only their order matters) and real
numbers elsewhere. Library functions enter as parameters with their documented
contract: the partial selection, the exponential, `ln(1 + x)`, the text hash
(assumed collision-free), the codec (assumed to round-trip).

Where the code and what is written about it differ, the model follows the code:

- A length ratio that a batch respects when it is formed can be broken once a
  client disconnects: `RatioLostByCancellation` gives the run,
  `RatioSurvivesCancellation` the exact condition. The three caps always survive.
- The queue gate of a batcher with `max_queue` 1 has threshold 0 and refuses
  everything: `GateNeedsTwo`.
- The shutdown timeout counts a carry as lost before the worker is aborted, so
  the count can be wrong both ways (`CarryCountedNotLost`, `CarryLostUncounted`);
  `CountMatchesLoss` says exactly when the request counted is the one lost, and
  exactly when the number counted is the number lost.
- The `expect` on a claimed slot is not dead code: an eviction between the two
  locks of `acquire` reaches it. `PanicReachableExactly` says when.
- `round_up_seq_len` returns 1 even for a context window of 0 and its comment
  says the configuration rejects 0, which the parser at `src/config.rs:1015` does
  not: `WindowNeedsOne` shows the window is exact only from 1 on.
- The removability check of the graph rewrite tests membership in the whole chain
  and not in the removed set: `ExportedBiasBreaksPatch` is a graph it ruins,
  `PatchPreserves` the exact condition, which also asks that Gather does not
  depend on a reader of the bias (`LateGatherBreaksPatch` is a graph where it does).
- The sigmoid is documented to preserve the ranking; because of the clamp it does
  not for the logits 60 and 70 (`ClampChangesBest`), and does so exactly under the
  condition of `NormalizedOrderExactly`.
- The worker path of sparse encoding truncates `top_k` to 32 bits
  (`WrappedLimitDropsEntry`), and for `top_k` 0 it runs a session the in-process
  path skips (`ZeroLimitMasksFailure`); `WorkerMatchesInProcess` says exactly when
  the two responses are the same.

## Model

| member | source | states |
|---|---|---|
| `BatchGates.PushMeasures` | src/batcher.rs:435-439 | the running aggregate always equals the text count, longest sequence and token sum of the batch, computed from the batch itself |
| `BatchGates.LongestRowIsMaximum` | src/batcher.rs:99-101 | no row of a request is longer than its length, and some row is as long |
| `BatchGates.SumRowsIsTotal` | src/batcher.rs:104-106 | its token count is the length of all its rows put together |
| `BatchGates.MeasuresOfRows` | src/batcher.rs:425-439 | the measures of a batch are the number of its rows, the longest of them and their tokens |
| `BatchGates.AdmittedExactly` | src/batcher.rs:452-476 | an item is admitted beside others if and only if all rows together stay within item cap, sequence cap and strict budget and each of its own is at most ratio times some row before it, in terms of the rows alone |
| `BatchGates.SaturatedExactly` | src/batcher.rs:540-549 | the worker stops waiting if and only if the rows have reached the item cap or the budget |
| `BatchGates.AdmissionKeepsGates` | src/batcher.rs:452-476 | an item that no gate defers leaves a batch of two or more within item cap, sequence cap, strict token budget and ratio |
| `BatchGates.SaturationIsExact` | src/batcher.rs:540-549 | the early breaks never refuse an item that would have fitted |
| `BatchGates.RoundedTensorBound` | src/batcher.rs:16-21 | the rounded tensor of a padded batch within the caps stays below twice the token budget, whatever its ratio and also when its longest row exceeds the window |
| `BatchGates.CancellationKeepsCaps` | src/batcher.rs:627-631 | cancelling any members keeps item cap, sequence cap and budget |
| `BatchGates.RatioSurvivesCancellation` | src/batcher.rs:591-605 | the ratio survives every cancellation if and only if each item is within the ratio of every earlier one |
| `BatchReplies.DispatchIsInvisible` | src/batcher.rs:676-717 | one reply per item: the row-wise result on its own rows if the call returns one vector per row, else one and the same error for all |
| `BatchReplies.SlicesConserve` | src/batcher.rs:708-711 | draining hands out every vector exactly once and in order |
| `BatchReplies.GatherRows` | src/batcher.rs:677-689 | all rows in order, with the number each item contributed |
| `BatchReplies.DrainVectors` | src/batcher.rs:708-711 | each item gets its own slice of the vectors |
| `BatchReplies.DispatchBatch` | src/batcher.rs:676-717 | the dispatch sends exactly the replies `DispatchIsInvisible` speaks of |
| `BatchReplies.FanError` | src/batcher.rs:692-696 | every item of the batch gets the error once |
| `BatchInvariant.StepKeepsInv` | src/batcher.rs:479-674 | every step of worker or environment keeps order, ledger, control, gate and carry invariants |
| `BatchInvariant.RunsKeepInv` | src/batcher.rs:479-674 | every reachable state satisfies them |
| `BatchTheorems.NoLossNoOvertaking` | src/batcher.rs:486-673 | dispatched batches, open batch, carry and queue are the arrivals in order with exactly the cancelled ones deleted, and only disconnected clients are cancelled |
| `BatchTheorems.BatchesRespectGates` | src/batcher.rs:536-631 | every dispatched batch is non-empty and, from two items on, within the caps and with a rounded tensor below twice the budget, cancellations included; the open batch also within the ratio |
| `BatchTheorems.ReceiveExactly` | src/batcher.rs:558-616 | a received item is skipped if its client has gone, joins the batch if the rows together are within caps and ratio, and is carried exactly otherwise |
| `BatchTheorems.DeferredAtMostOnce` | src/batcher.rs:488-492 | no request is deferred twice and every deferred one but the pending one has opened a batch |
| `BatchTheorems.CarryOpensNextBatch` | src/batcher.rs:486-508 | whatever follows, the next batch opened is opened by the carried request |
| `BatchTheorems.BatchingIsInvisible` | src/batcher.rs:479-717 | for every row-wise model and schedule no request is resolved twice, a value sent is the model's on the request's own rows, and only disconnect or abort leave one unanswered |
| `BatchTheorems.DispatchedAreAnswered` | src/batcher.rs:698-717 | a request of a call that came back is answered for good: its own result on success, an error on failure or count mismatch |
| `BatchTheorems.ShutdownResolvesEveryone` | src/batcher.rs:361-392 | after exit or abort every accepted request is resolved exactly once and nothing is queued or carried |
| `BatchTheorems.DrainIsBounded` | src/batcher.rs:486-507 | once the sender is dropped the worker takes at most a bounded number of further steps under any schedule |
| `BatchTheorems.OuterIterationDrains` | src/batcher.rs:487-673 | each outer iteration then leaves strictly less queued and carried |
| `BatchTheorems.DrainNeverStuck` | src/batcher.rs:487-673 | until it has finished, one of the worker's own steps is enabled |
| `BatchTheorems.FlagFollowsCarry` | src/batcher.rs:376-391 | the shared flag equals "a carry is present" in every state before an abort, so the timeout counts a carry exactly when one is pending as it fires |
| `BatchCarry.CountMatchesLoss` | src/batcher.rs:361-392 | the request counted is the one the later abort loses if and only if no batch was opened in between, or, with none counted, every request deferred in between has opened a batch; the number counted is the number lost if and only if a deferred request is unopened at the abort exactly when one was counted |
| `BatchCarry.CountIsRightIfStill` | src/batcher.rs:386-390 | in particular when the worker takes no step between timeout and abort |
| `BatchExamples.RatioLostByCancellation` | src/batcher.rs:536-672 | a run that dispatches a batch breaking the ratio it was formed under |
| `BatchExamples.CarryLostUncounted` | src/batcher.rs:376-391 | a run in which the abort loses a carry the timeout did not count |
| `BatchExamples.CarryCountedNotLost` | src/batcher.rs:376-391 | a run in which the carry the timeout counted is served before the abort |
| `BatchWorker.GateNeedsTwo` | src/batcher.rs:319-325 | the 80% gate admits anything at all if and only if the queue holds at least two |
| `BatchWorker.AdmitExactly` | src/batcher.rs:305-342 | an empty request is answered at once, any other is queued if and only if fewer than eight tenths of the queue, rounded down, are taken |
| `BatchWorker.Worker.constructor` | src/batcher.rs:232-290 | a new worker is at the machine's initial state |
| `BatchWorker.Worker.Submit` | src/batcher.rs:296-342 | a request is appended to the queue exactly when the gate admits it; the fields stay those of the machine |
| `BatchWorker.Worker.Receive` | src/batcher.rs:561-615 | the received item is skipped, carried or admitted as the machine's step does |
| `BatchWorker.Worker.Coalesce` | src/batcher.rs:536-619 | the inner loop is a run of machine steps and ends with a batch to cut |
| `BatchWorker.Worker.CutBatch` | src/batcher.rs:627-635 | exactly the members whose client is still there are kept, in order |
| `BatchWorker.Worker.Dispatch` | src/batcher.rs:672 | one call, every live item answered by it |
| `BatchWorker.Worker.ResumeCarry` | src/batcher.rs:488-492 | the carry opens the next batch and the flag is cleared with it |
| `BatchWorker.Worker.TakeFirst` | src/batcher.rs:488-507 | an item opens a batch and the work left shrinks, or the worker exits with queue and carry empty |
| `BatchWorker.Worker.Serve` | src/batcher.rs:509-672 | one outer iteration is a run of machine steps back to the loop head |
| `BatchWorker.Worker.Run` | src/batcher.rs:479-674 | for every script of the environment the worker terminates with every accepted request resolved once, values right, and only disconnected clients unanswered |
| `SlotPool.StepKeepsInv` | src/evictable_pool.rs:123-276 | every step of every thread keeps ownership, gap and conservation invariants |
| `PoolTheorems.OneOwnerPerSlot` | src/evictable_pool.rs:123-242 | over all interleavings a slot has at most one owner, hence at most one factory call in flight, is busy exactly then, and is then empty |
| `PoolTheorems.SweepStopsExactly` | src/evictable_pool.rs:258-262 | the eviction loop goes for a slot if and only if it is not busy and `now >= last_used + threshold`, or the threshold is 0 |
| `PoolTheorems.SweepEmptiesExactly` | src/evictable_pool.rs:262-268 | under the lock it empties it if and only if there is a session and it is still not busy |
| `PoolTheorems.SessionsConserved` | src/evictable_pool.rs:123-276 | idle + held + in transit = initial + factory successes - evictions, and each session made is in exactly one of these places |
| `PoolTheorems.ExpectHoldsWithoutEviction` | src/evictable_pool.rs:213-236 | the second lock finds its session whenever no eviction fell into the gap since the first |
| `PoolTheorems.PanicReachableExactly` | src/evictable_pool.rs:136-276 | some run reaches the failing `expect` if and only if eviction is on, there is a slot and there are two threads |
| `PoolTheorems.PanickedSlotIsLost` | src/evictable_pool.rs:231-236 | a slot on which the `expect` fired stays busy and empty for ever |
| `EvictablePool.EvictablePool.FromItems` | src/evictable_pool.rs:93-116 | one idle slot per item |
| `EvictablePool.EvictablePool.Acquire` | src/evictable_pool.rs:123-242 | the first free slot is taken, re-created if evicted; a failed factory and a full pool leave everything as it was |
| `EvictablePool.EvictablePool.Release` | src/evictable_pool.rs:367-407 | the session is back, the slot free, the others untouched |
| `EvictablePool.EvictablePool.EvictIdle` | src/evictable_pool.rs:247-276 | with eviction on, a slot loses its session if and only if it held one, was not busy and `now >= last_used + threshold` or the threshold is 0; the count is the number of such slots; with eviction off nothing happens |
| `EvictablePool.CountIsExpired` | src/evictable_pool.rs:268 | the count is the number of slots that meet that condition |
| `EvictablePool.AcquireThenRelease` | src/evictable_pool.rs:123-407 | acquiring and dropping the guard changes one slot's clock at most, apart from re-creating an evicted session |
| `SharedPool.SharedPool.TakeOccupied` | src/evictable_pool.rs:213-240 | the second lock gives the session, moves on, or fails its `expect`, and the last only on a slot evicted since the first lock |
| `SharedPool.SharedPool.CrossGap` | src/evictable_pool.rs:160-240 | the gap between the two locks with any steps of other threads in it: the `expect` fails only if one of them evicted this very slot |
| `SharedPool.SharedPool.Reinitialize` | src/evictable_pool.rs:163-210 | the factory outside the lock: a guard on success, an empty free slot on failure, whatever the others do |
| `SharedPool.SharedPool.Acquire` | src/evictable_pool.rs:123-242 | under any steps of other threads between its own, the call ends owning the session it returns, owning nothing, or dead in its `expect`, and the last only if that slot was evicted during the call |
| `SeqLen.NextPow2IsLeast` | src/model.rs:957 | the result is the least power of two not below n and less than 2n |
| `SeqLen.RoundUpMonotone` | src/model.rs:947-958 | rounding is monotone |
| `SeqLen.RoundUpBounds` | src/batcher.rs:16-21 | the width stays in the window, covers every length that fits it, and is less than twice any non-empty length |
| `SeqLen.RoundUpExactly` | src/model.rs:947-958 | the width is the least power of two that covers the length, or the window if that is smaller; 1 for lengths up to 1 |
| `Sorting.SortIsStable` | src/model.rs:921-922 | descending by key, equal keys in input order |
| `Sorting.SortPermutes` | src/api_rerank.rs:214 | sorting loses and invents nothing |
| `Sorting.StableOrderUnique` | src/model.rs:895-904 | there is only one such arrangement, so the plan is deterministic |
| `Sorting.SortMap` | src/api_rerank.rs:199-214 | sorting records by a field sorts what they are made from |
| `Subbatch.PlanSubbatches` | src/model.rs:905-945 | every index once; for a ratio above 1 non-empty groups each within it, longest first with ties by index; for NaN and ratios up to 1 one group |
| `Subbatch.PlanPartitions` | src/model.rs:905-945 | any plan holds every index exactly once; for `r > 1.0` the members of a group are at most r times as long as each other (zero counting as one) and the whole is longest first; otherwise it is one group |
| `Subbatch.GreedyIsOptimal` | src/model.rs:905-945 | for `r > 1.0` no cover of the indices by groups within r has fewer groups |
| `Subbatch.PaddingBounds` | src/model.rs:436-452 | real tokens <= padded cells <= cells of a single pass |
| `Subbatch.PaddingWithinRatio` | src/model.rs:436-452 | for a ratio above 1 and non-empty texts, padded cells < 2 * ratio * real tokens |
| `Pooling.BuildTensors` | src/pool.rs:19-48 | each row at its offset, cut or padded to the width; mask ones over its tokens then zeros |
| `Pooling.TensorCell` | src/pool.rs:26-45 | cell by cell: the j-th token of row i and a one, or the pad id and a zero |
| `Pooling.BuiltMaskIsPrefix` | src/pool.rs:38-45 | every mask built is ones then zeros with its cut at the row's visible length |
| `Pooling.CutIsExact` | src/pool.rs:103-108 | cutting at the first zero selects exactly the masked positions if and only if nothing positive follows a zero and nothing negative precedes every zero |
| `Pooling.GapMaskDiffers` | src/pool.rs:96-108 | a mask with a gap on which the cut drops a token |
| `Pooling.PoolRow` | src/pool.rs:103-149 | the fast loop computes the pooled vector of the tokens before the cut |
| `Pooling.PoolRowReference` | src/pool.rs:172-209 | the masked loop computes the pooled vector of the selected tokens |
| `Pooling.FastPoolingRefines` | src/pool.rs:78-152 | both agree on every mask built, truncated rows included |
| `PoolingExact.MeanIsAverage` | src/pool.rs:128-136 | over exact arithmetic the number of tokens times the mean is their sum |
| `PoolingExact.ExactCountsByOnes` | src/pool.rs:185-190 | counting up by ones gives the same count as the cast of the number of tokens |
| `PoolingExact.NormalizedIsUnit` | src/pool.rs:138-146 | normalising a vector that is not zero gives a positive multiple of it whose squares sum to 1 |
| `PoolingExact.PooledIsUnit` | src/pool.rs:78-152 | the pooled vector is the unit vector in the direction of the token sum, and zero if that sum is |
| `PoolingExact.ThreeFour` | src/pool.rs:128-146 | one token (3, 4) is pooled to (0.6, 0.8) |
| `PoolingExact.OrderOfOperations` | src/pool.rs:110-146 | which operation is applied to what: add from zero, scale by the inverse count, then by the inverse root of the squares of that mean |
| `Pooling.PaddingIsInvisible` | src/pool.rs:38-45 | any two widths that show the same tokens give the same vector, whatever is in the padding |
| `EmbedModel.WindowIsExact` | src/model.rs:499-505 | a pass shows exactly the first `max_len` tokens of each row, whatever its batch-mates |
| `EmbedModel.WindowNeedsOne` | src/model.rs:947-958 | this holds for all requests if and only if `max_len` is at least 1 |
| `EmbedModel.PaddedIsAllocated` | src/model.rs:436-452 | the padded count reported is the number of cells the passes allocate |
| `EmbedModel.MeanPoolNormalize` | src/pool.rs:78-152 | every row pooled over its unmasked tokens, or an error exactly when the shape is wrong |
| `EmbedModel.OnePass` | src/model.rs:481-615 | each row gets the vector it has by itself |
| `EmbedModel.EmbedGroup` | src/model.rs:458-475 | one group's vectors land at their original positions, earlier groups untouched |
| `EmbedModel.EmbedGroups` | src/model.rs:457-478 | every position holds its own text's vector; fails exactly when a group's pass does |
| `EmbedModel.EmbedTokens` | src/model.rs:427-478 | for every ratio the vector at each position is the one its text has alone |
| `OnnxGraph.EvalFollows` | scripts/precompute_alibi.py:199-204 | a list in producer order computes any valuation that satisfies its nodes |
| `OnnxGraph.EvalSound` | scripts/precompute_alibi.py:199-204 | what a single-assignment list computes satisfies every node's equation |
| `OnnxGraph.EvalNeedsOrder` | scripts/precompute_alibi.py:199-204 | a list runs if and only if it is in producer order |
| `OnnxGraph.OrderedExactly` | scripts/precompute_alibi.py:219-233 | a list is in producer order if and only if every input read was there from the start or is the output of a node before |
| `OnnxGraph.SlicingRule` | scripts/precompute_alibi.py:417-466 | what a slice keeps, with bounds beyond the axis and negative ones |
| `OnnxGraph.SliceAxes` | scripts/precompute_alibi.py:445-466 | axis 2 cuts rows, axis 3 columns |
| `OnnxGraph.OrderIrrelevant` | scripts/precompute_alibi.py:199-239 | two producer orders of the same nodes compute the same values |
| `TopoSort.Pass` | scripts/precompute_alibi.py:219-233 | one pass takes exactly the nodes that become ready in list order |
| `TopoSort.ProgressIfOrderable` | scripts/precompute_alibi.py:233-236 | if any valid order exists, a pass over what is left takes something |
| `TopoSort.Sort` | scripts/precompute_alibi.py:199-239 | a permutation, in producer order if and only if some order is, unchanged when already in order; the pass limit never ends the loop |
| `AlibiBias.SlicedBias` | scripts/precompute_alibi.py:72-91 | slicing rows then columns of the precomputed bias gives the bias of the shorter length |
| `AlibiBias.ConstIsAlibi` | scripts/precompute_alibi.py:72-91 | a tensor is the precomputed constant if and only if it is 1 by heads by n by n with `-slope * (j - i)` at (i, j) and (j, i) for i <= j |
| `AlibiBias.HalfSlope` | scripts/precompute_alibi.py:86-91 | the constant of slope 1/2 and two positions |
| `AlibiBias.SliceIsRuntimeBias` | scripts/precompute_alibi.py:417-470 | the slices have those entries for length S if and only if S <= max_len |
| `AlibiPatch.WalkBack` | scripts/precompute_alibi.py:342-352 | the recursive walk adds exactly what is reachable and not yet visited, each node once |
| `AlibiPatch.FindChain` | scripts/precompute_alibi.py:314-361 | the walked nodes are exactly those reachable from Unsqueeze_3 behind the wall |
| `AlibiPatch.GatherNotWalked` | scripts/precompute_alibi.py:328-354 | Gather is never walked, hence never removed |
| `AlibiPatch.LocateExactly` | scripts/precompute_alibi.py:277-296 | the site is found if and only if there is one encoder Range, the first Unsqueeze_3 and Gather have outputs and somebody reads the bias |
| `AlibiPatch.ProducerIsLast` | scripts/precompute_alibi.py:316-320 | a tensor's producer is the last node that outputs it |
| `AlibiPatch.WalkGoesOnExactly` | scripts/precompute_alibi.py:346-352 | the walk goes on from a tensor if and only if it is no input, initializer or output of Gather |
| `AlibiPatch.WalkIsClosed` | scripts/precompute_alibi.py:342-354 | whatever else a walked node reads was walked or is nobody's output |
| `AlibiPatch.CollectRemovable` | scripts/precompute_alibi.py:143-191 | exactly the chain nodes whose outputs are no graph output and read only within chain and Adds |
| `AlibiPatch.ConsumedWithin` | scripts/precompute_alibi.py:176-188 | the flag of the inner loops is that condition |
| `AlibiPatch.Rebuild` | scripts/precompute_alibi.py:497-514 | every reference to the bias is rewired, removed nodes are gone, the order is kept |
| `AlibiPatch.Patch` | scripts/precompute_alibi.py:366-524 | succeeds exactly when the site is found, and then returns the rewritten graph with a constant whose entries are minus slope times distance |
| `AlibiSite.CleanExactly` | scripts/precompute_alibi.py:161-191 | nothing kept reads a removed tensor if and only if no kept chain node and no Add does |
| `AlibiSite.PatchKeepsExactly` | scripts/precompute_alibi.py:476-514 | the nodes of the result, said in full: the new ones and every other node but the walked ones that are read only within |
| `AlibiSite.RewireExactly` | scripts/precompute_alibi.py:497-502 | a rewired node reads the slice where it read the bias and is the same otherwise |
| `AlibiSite.StartExactly` | scripts/precompute_alibi.py:206-210 | a run starts from the inputs fed and, for the other names, the initializers |
| `AlibiOrder.RebuiltOrderable` | scripts/precompute_alibi.py:470-521 | if then Gather does not depend on a reader of the bias, the rewritten nodes have a producer order |
| `AlibiCycle.CycleHasNoOrder` | scripts/precompute_alibi.py:470-521 | if it does, they have none |
| `AlibiTheorems.CleanPatchPreserves` | scripts/precompute_alibi.py:476-524 | then the rewritten graph runs and every graph output keeps its value |
| `AlibiTheorems.DanglingPatchFails` | scripts/precompute_alibi.py:497-514 | if something dangles the rewritten graph runs on no input |
| `AlibiTheorems.CyclicPatchFails` | scripts/precompute_alibi.py:494-521 | nor if Gather depends on a reader of the bias |
| `AlibiTheorems.PatchPreserves` | scripts/precompute_alibi.py:366-524 | for every operator semantics and every run of length S <= max_len whose bias has the ALiBi entries: runs if and only if nothing dangles and Gather does not depend on a reader of the bias, and then all outputs are preserved |
| `AlibiExample.ExportedBiasBreaksPatch` | scripts/precompute_alibi.py:161-191 | a graph that passes the check and whose every rewrite is unusable |
| `AlibiExample.EncoderIsPreserved` | scripts/precompute_alibi.py:366-524 | a graph that meets every hypothesis of the preservation theorem, for every S <= max_len |
| `AlibiCyclicExample.LateGatherBreaksPatch` | scripts/precompute_alibi.py:470-521 | a graph in which nothing dangles and whose every rewrite is cyclic and unusable |
| `CacheFlow.KeyCollisions` | src/api.rs:28-33 | two cache keys coincide exactly when model and kind do or one model is named like the other's query key |
| `CacheFlow.SeparatedExactly` | src/api.rs:28-33 | a set of models is kept apart if and only if no name is another's plus `:query` |
| `CacheFlow.ConfiguredNamesSeparated` | src/config.rs:1003-1027 | names split off at a colon are always kept apart |
| `CacheFlow.InsertKeepsSound` | src/cache.rs:105-111 | inserting a direct embedding keeps every entry a direct embedding |
| `CacheFlow.EmbeddingCache.constructor` | src/cache.rs:65-80 | capacity 0 is a disabled, empty cache |
| `CacheFlow.EmbeddingCache.HitIsDirect` | src/cache.rs:93-97 | on a sound cache a hit is the direct embedding of the text asked for |
| `CacheFlow.EmbeddingCache.Insert` | src/cache.rs:105-111 | the next look-up of the text finds the vector unless the cache is disabled, and every other look-up finds what it did |
| `CacheFlow.EmbeddingCache.Interfere` | src/cache.rs:14-17 | arbitrary evictions and other requests' inserts keep the cache sound |
| `CacheFlow.AppliedExactly` | src/cache.rs:99-111 | an evicted entry is gone, an inserted one is there when enabled, every other stays |
| `CacheFlow.PartitionHitsAndMisses` | src/cache_flow.rs:46-63 | under interference before each probe, a position is a hit if and only if its key is in the store at that moment, hits are direct embeddings and each miss text lists exactly its missed positions in order |
| `CacheFlow.HitXorPending` | src/cache_flow.rs:41-45 | each index is a hit, or in exactly one pending list and once in it |
| `CacheFlow.ScatterAll` | src/api.rs:486-498 | every position is filled with its own text's vector, and the store is the old one with every new vector inserted amid the interference |
| `CacheFlow.Embeddings` | src/api.rs:136-506 | a successful response is the direct embedding of every text in order; the backend is asked for exactly the texts missed at a probe, once each; failure exactly when it fails or miscounts on them; without interference every text is cached afterwards |
| `Splade.PoolIsMaximum` | src/model_splade.rs:391-409 | the running value is the maximum of log(1 + relu) over all positions |
| `Splade.PoolInPlainWords` | src/model_splade.rs:391-409 | at least zero, at least ln(1 + logit) for every positive logit, and equal to one of these |
| `Splade.LogitsExactly` | src/model_splade.rs:321-369 | the session sees the first tokens, as many as the window holds, and its answer counts if and only if the shape is right |
| `Splade.FusedMaxPool` | src/model_splade.rs:387-409 | the in-place sweep computes it for every vocabulary entry |
| `Splade.TopKIsTopK` | src/model_splade.rs:411-434 | sorted, distinct ids, length min(top_k, entries above the threshold), nothing omitted heavier than anything kept |
| `Splade.EncodeSparse` | src/model_splade.rs:308-436 | the whole of the encoding, with its empty and error cases, returns such a result |
| `Splade.EncodedExactly` | src/model_splade.rs:308-436 | nothing for an empty text or limit zero, the session's failure, or the heaviest entries of the pooled logits |
| `Splade.Encode` | src/model.rs:2142-2161 | one result per text in order; fails exactly when some text does |
| `Splade.FilterResponse` | src/api_splade.rs:161-185 | the two vectors stay aligned and hold the filtered, truncated pairs |
| `Splade.HeavyExactly` | src/api_splade.rs:171-178 | the filter keeps exactly the pairs above the threshold, in order |
| `Splade.TruncatedExactly` | src/api_splade.rs:177-178 | truncation keeps a prefix of at most the limit |
| `Splade.WorkerLimitExactly` | src/model.rs:2149-2153 | the request's own limit below 2^32, none for 0, and wrapping beyond |
| `Splade.LimitsAgreeExactly` | src/api_splade.rs:156-180 | the two limits keep the same entries if and only if the limit is below 2^32, wraps to 0, or leaves nothing out after wrapping |
| `Splade.TextMatches` | src/model.rs:2142-2161 | for one text the worker path equals the in-process result exactly then, error cases included |
| `Splade.RespondViaWorker` | src/api_splade.rs:152-196 | the response through the worker: encode all texts, filter and truncate each |
| `Splade.RespondInProcess` | src/api_splade.rs:228-279 | the response without it: one text after the other, the first failure fails the request |
| `Splade.WorkerMatchesInProcess` | src/api_splade.rs:152-279 | for a whole request the two responses are the same if and only if it fails in process or the two paths agree on each text |
| `SpladeExamples.ZeroLimitMasksFailure` | src/model_splade.rs:314-319 | a request with `top_k` 0 that succeeds in process and fails through the worker |
| `SpladeExamples.WrappedLimitDropsEntry` | src/api_splade.rs:156-180 | a request with `top_k` 2^32 + 1 for which the worker returns one of the two entries |
| `Rerank.ApplyNormalize` | src/api_rerank.rs:88-101 | every score is replaced in place by its normalised value |
| `Rerank.NormalizedExactly` | src/api_rerank.rs:91-99 | the value: times one plus exp(-x) it is 1 within [-50, 50], constant beyond, strictly between 0 and 1 |
| `Rerank.ZeroIsHalf` | src/api_rerank.rs:97 | a logit of 0 gives 1/2 |
| `Rerank.SigmoidFollowsClamp` | src/api_rerank.rs:88-101 | normalised scores compare exactly as the clamped logits do |
| `Rerank.SomeExpIsExp` | src/api_rerank.rs:97 | what the ranking theorems ask of the exponential can be met |
| `Rerank.BuildSortedResults` | src/api_rerank.rs:194-219 | the best n entries with their documents, best first, ties by index, nothing omitted ahead of anything kept; their indices are the first n of the ranking of the scores |
| `Rerank.TopInPlainWords` | src/api_rerank.rs:199-218 | the same in terms of scores, indices and documents alone |
| `Rerank.RankNormalized` | src/api_rerank.rs:566-573 | normalise, then build the results: their indices are those of the raw ranking if and only if the clamp keeps the top n, and they are always weakly consistent with the logits |
| `Rerank.NormalizedOrderExactly` | src/api_rerank.rs:86-101 | for every n, the first n are those of the raw ranking if and only if no logit is tied by the clamp to a larger one behind it among them |
| `Rerank.ClampChangesBest` | src/api_rerank.rs:86-101 | for the logits 60 and 70 the best result changes |
| `Rerank.UnclampedOrderKept` | src/api_rerank.rs:86-101 | in particular, for every n, when all logits lie in [-50, 50] |
| `Rerank.TopIsConsistent` | src/api_rerank.rs:86-101 | a kept result has a larger logit than what follows it or was omitted, or came first and is equal to it or clamped to the same end |
| `Frames.HeaderRoundTrip` | src/ipc/frame.rs:20 | the little-endian header reads back |
| `Frames.LittleEndian` | src/ipc/frame.rs:20 | least significant byte first |
| `Frames.HeaderIsUnique` | src/ipc/frame.rs:31 | every four bytes are the header of exactly one length |
| `Frames.FitsExactly` | src/ipc/frame.rs:12-19 | refused exactly when it cannot be encoded or exceeds 64 MiB |
| `Frames.ReadExactly` | src/ipc/frame.rs:31-42 | a complete frame of up to 64 MiB: its payload goes to the parser, what follows is left |
| `Frames.WriteFrame` | src/ipc/frame.rs:7-24 | appends exactly one frame, or nothing when the value is refused |
| `Frames.ReadFrame` | src/ipc/frame.rs:27-43 | result and bytes consumed, in every case: exactly 4 + length on success, only the header when it is above the cap |
| `Frames.FrameRoundTrip` | src/ipc/frame.rs:7-43 | reading a frame gives back the value and leaves what follows it |
| `Frames.StreamRoundTrip` | src/ipc/frame.rs:7-43 | reading back any list of frames gives the same list |
| `Frames.TruncatedFrameFails` | src/ipc/frame.rs:27-43 | a frame cut short never reads as a value |

## Left out

- Metrics, logging, tracing and the text of error messages: no effect on results.
- Rounding of floating point: the batcher's and the planner's ratio comparisons, ALiBi, sparse weights and rerank scores are over real numbers; NaN appears only as a ratio.
- Integer overflow other than the batcher's saturating product, the 32-bit `top_k` and the 32-bit token ids; indices, counts and `next_power_of_two` are unbounded.
- ONNX Runtime, tokenizers, the cache library, the codec and the async runtime: abstract functions, an abstract map and arbitrary schedules.
- Mutex poisoning, panicking factories and weak memory in the pool; the unlocked reads of `busy` and `last_used` by the eviction loop are one step, with the clock and the threshold arbitrary.
- The instants between setting `carry` and setting `carry_pending`: the worker does not await between them, and the flag is compared with the carry in the states between its steps.
- EmbedModel.OnePass: assumes the session's tensor has the width it was given, as the source's slicing does; the session pool it draws from is modelled on its own, and a failed `acquire` is a failed run.
- EmbedModel.EmbedTokens: the guard on a group's vector count is proved never to fire and is not written out.
- EvictablePool.EvictablePool.Acquire: runs alone, so the gap between its locks is not visible in it; `SharedPool.SharedPool.Acquire` is the same call with the other threads' steps in every gap.
- AlibiTheorems.PatchPreserves: assumes single-assignment nodes in producer order, new names that are free, and a run whose chain computes minus slope times distance with the same slopes; operators other than unit slices on axes 2 and 3 and `Unsqueeze` of a scalar are uninterpreted and total.
- AlibiPatch.Patch: the slopes are a parameter (`get_alibi_slopes` is not modelled), as are loading and saving the file; a site node without outputs is an error result, where the script raises an index error.
- CacheFlow.Embeddings: the rejection of malformed requests, token accounting, encoding of the response and HTTP status codes are not modelled; the three backends are one abstract function.
- Splade.RespondViaWorker: the transport to the worker and its time-outs are not modelled; the worker's answer is that of `Encode`.
- Splade.FusedMaxPool: the attention mask is all ones in the source and is not a parameter.
- Frames.ReadFrame: at end of file the bytes already taken count as consumed; the error kind is not modelled.
- `src/config.rs` except the split at colons, `src/main.rs`, `src/api_health.rs`, `src/supervisor`, `src/arena.rs`, `src/mlock.rs`, `src/onnx_cache.rs`, `src/proc.rs`: wiring, parsing and system calls.
