# torch_gcu: models and proofs

torch_gcu is a PyTorch backend for GCU devices. Most of it forwards to device kernels, but several
components carry an algorithm or a protocol of their own. This project models those in Dafny and
proves what they are there for:

| file | component |
|---|---|
| `AdvancedIndexing.dfy` (with `Options.dfy`, `Shapes.dfy`, `Picking.dfy`) | the advanced-index planner: mask expansion, broadcasting, transposition to the front, restriding, reshaped indexers |
| `LazyInit.dfy`, `LazySeeds.dfy` | lazy initialisation: double-checked locking, the re-entrancy flag, the growing call queue, the seed tracker |
| `Attention.dfy` | attention routing: gates, priority, head-dimension padding, scale, slice |
| `Checkpoint.dfy` | checkpoint save and load: keys, types, records, sharing, byte order |
| `MatmulShapes.dfy` | shape inference of matmul and linear, and the fold test |
| `GraphedCallables.dfy` | graphed callables: static buffers, replay, backward, capture order |
| `Reductions.dfy` | rebuilding shared tensors in other processes: reference counters and the weak cache |
| `AllocatorConfig.dfy` (with `SettingsText.dfy`, `DivisionTable.dfy`) | the allocator settings string and the table of round-up divisions |
| `HalfRetry.dfy` | the half-to-float retry of the CPU fallback |
| `OpStatistics.dfy` | operator statistics: equality, hash, hash map, counts |
| `DebugConfig.dfy` (with `Text.dfy`) | the operator debug configuration string |
| `Visibility.dfy` | TOPS_VISIBLE_DEVICES: device count and device index |
| `Contexts.dfy` | device and stream contexts |

Concurrent protocols (`LazyInit`, `Reductions`) are state machines over the points at which threads
or processes can interleave, and their theorems hold in every state of every interleaving. Code that
mutates objects or runs loops is a class or a method proved against a function that says what it
computes, and the properties are lemmas about that function. Pure code is functions and lemmas.

Several properties that one would expect turned out false of the code; the code is modelled as it is,
a lemma gives a failing input, and another says exactly when the property holds:

- A deferred call is not always run. A plain call queued after the queue was found exhausted, but before
  initialisation is marked complete, never runs (`LazyInit.LateCallIsLost`). A seed call that reaches the
  tracker after a pass has read it never runs either, although the queue is not exhausted
  (`LazySeeds.LateSeedIsLost`), and an earlier seed call of the same kind is superseded. The pass that
  completes initialisation runs exactly the plain calls queued before exhaustion and the seed calls that
  were the latest of their kind when it, or an earlier pass that raised, read the tracker
  (`LazySeeds.CompletingPassRunsExactly`).
- A process can hold two live imports of one (handle, offset) (`Reductions.TwoImportsFromTheStart`).
  Taking a non-empty message can lead to that, without a further message for the allocation, unless every
  live import of it is the cached one and no other thread of the process may still import it
  (`Reductions.ReachableTakeIsSafeIff`); in orderly runs that is the same as no other thread importing it
  (`Reductions.OrderlyTakeIsSafeIff`), in others it is not (`Reductions.StrayImport`).
- A reference counter that arrives with an empty message is neither owned nor released
  (`Reductions.EmptyMessageLosesCounter`); all others are released exactly once
  (`Reductions.SettledReturnsEverything`).
- The settings parser reads past its tokens (`AllocatorConfig.UnclosedListOverruns`), exactly on accepted
  options followed by a division list that is left open after a value
  (`AllocatorConfig.StringOverrunsIff`).
- The copy-unless-same-pointer loop delivers its arguments in every memory exactly when no buffer that
  is overwritten is a later source and no buffer has two sources (`GraphedCallables.CopiesExactlyIff`).
- The backward of a graphed call is right, whatever it computes, exactly while the tape cells hold what
  that call recorded (`GraphedCallables.BackwardRightIff`); after a second call of the same callable the
  first one's backward returns the second one's gradients (`GraphedCallables.EarlierBackwardCanFail`).
- A checkpoint without a byte-order mark is read back exactly when the loader's default makes it swap
  between different byte orders and not between equal ones (`Checkpoint.UnmarkedSurviveIff`).
- The half retry keeps the result of every written half slot, whatever the operator, exactly when no
  tensor is written through two slots (`HalfRetry.EveryWriteKeptIff`). Otherwise the last one stays, where
  tensor arguments come before elements of tensor lists (`HalfRetry.Store.Retry`).
- Index masks are expanded to int64 columns, which the int32 check then refuses: an index list with a mask
  of rank 1 or more is never accepted (`AdvancedIndexing.AcceptedAreInt32`).
- A debug option can read another key's token (`DebugConfig.ForeignKeyMisleads`). It reads its own,
  whatever the values, exactly when no earlier key ends with its key (`DebugConfig.OptionReadsOwnIff`),
  which holds of the keys in the table.
- Nested device contexts restore the current device exactly when every device has a primary context: a
  pending target device is not cleared when the runtime is already, or is switched to, the device to
  restore (`Contexts.PendingTargetSticks`, `Contexts.RestoresIffPrimary`). The default
  `hasPrimaryContext` answers true for every device.
- A parameter list equals itself exactly when it holds no storage, since equal storages are reported
  different (`OpStatistics.ReflexiveIffNoStorage`).

Other deviations from what the code's comments say: a `[` list that ends after the bracket or a comma is
accepted unclosed; two vectors of different lengths are accepted by the dot route of matmul shape
inference; `raise DeferredGCUCallError` names a class that does not exist, which still raises.

## Model

| member | source | states |
|---|---|---|
| AdvancedIndexing.MakeInfo | torch_gcu/csrc/efficient_ops/ops.cpp:221-264 | succeeds exactly on accepted index lists (types, mask shapes, broadcastable, same device, int32); the record then addresses, at every output coordinate before ++ index ++ after, the byte of the element naive multi-dimensional indexing selects, with naive indexing's output shape in the adjacent and in the transposed case |
| AdvancedIndexing.PlanMeansNaive | torch_gcu/csrc/efficient_ops/ops.cpp:13-90 | a record built from any prepared view (indexed dimensions in one slice, remaining ones around it) has the naive output shape and addresses |
| AdvancedIndexing.AddressIsNaive | torch_gcu/csrc/efficient_ops/ops.cpp:45-90 | base offset of the restrided view plus index values times original byte strides is the offset of the naively selected element |
| AdvancedIndexing.RestridedDot | torch_gcu/csrc/efficient_ops/ops.cpp:13-26 | the zero strides of the replacement dimensions contribute nothing: the view addresses exactly the remaining dimensions |
| AdvancedIndexing.ReshapedValue | torch_gcu/csrc/efficient_ops/ops.cpp:28-43 | an indexer padded with size-1 dimensions reads, at x ++ b ++ y, the value at b |
| AdvancedIndexing.ExpandToAt | torch_gcu/csrc/efficient_ops/ops.cpp:226-235 | broadcasting an index tensor changes none of the values it reads |
| AdvancedIndexing.CommonShapeExpands | torch_gcu/csrc/efficient_ops/ops.cpp:226-235 | the shape folded from all index tensors is one every index tensor expands to |
| AdvancedIndexing.SelectedCoordInBounds | torch_gcu/csrc/efficient_ops/ops.cpp:45-90 | with in-range index values the selected coordinate lies inside the tensor |
| AdvancedIndexing.BuildAdvancedIndex | torch_gcu/csrc/efficient_ops/ops.cpp:45-90 | the constructor's loops compute the plan, refuse an empty indexed dimension with non-empty indices, and dims before + indexed + after is the rank |
| AdvancedIndexing.ReshapeDefined | torch_gcu/csrc/efficient_ops/ops.cpp:85-89 | the last loop reshapes exactly the defined indices, in order |
| AdvancedIndexing.ContiguousIffAdjacent | torch_gcu/csrc/efficient_ops/ops.cpp:170-178 | the forward and backward scans answer true exactly when no undefined index lies between two defined ones |
| AdvancedIndexing.TransposeToFront | torch_gcu/csrc/efficient_ops/ops.cpp:186-204 | indices, sizes and strides of defined dimensions come first, the others after, both in order |
| AdvancedIndexing.FrontOrderIsStablePermutation | torch_gcu/csrc/efficient_ops/ops.cpp:186-204 | the dimension order lists every dimension once, defined ones first, increasing within both groups |
| AdvancedIndexing.ExpandTensors | torch_gcu/csrc/efficient_ops/ops.cpp:108-144 | the loop replaces each mask by its index columns and keeps everything else, or fails at the first mask whose shape does not match |
| AdvancedIndexing.MaskRowsAreTruePositions | torch_gcu/csrc/efficient_ops/ops.cpp:108-144 | the columns of a mask list exactly its true positions, once each, in row-major order |
| AdvancedIndexing.ExpandedWithoutMasks | torch_gcu/csrc/efficient_ops/ops.cpp:108-144 | without masks the list is unchanged |
| AdvancedIndexing.AcceptedAreInt32 | torch_gcu/csrc/efficient_ops/ops.cpp:255-260 | every index of an accepted list is int32, undefined or a mask without dimensions, and of the lists that expand exactly such pass the int32 check, since the columns of a mask are int64 |
| LazyInit.StepKeepsInv | torch_gcu/gcu/__init__.py:160-212 | every atomic step of every thread keeps the invariant tying lock, thread-local flag, stacks and history together |
| LazyInit.RunKeepsInv | torch_gcu/gcu/__init__.py:120-212 | the invariant holds after every interleaving |
| LazyInit.MutualExclusion | torch_gcu/gcu/__init__.py:160-212 | at most one thread is in the init section, at any nesting depth |
| LazyInit.NoDeadlock | torch_gcu/gcu/__init__.py:160-212 | a thread that cannot advance waits for a lock another thread holds, and that thread can advance; no thread waits for its own lock |
| LazyInit.OwnFirstTest | torch_gcu/gcu/__init__.py:160-163 | a re-entrant _lazy_init of a thread running queued calls returns at once |
| LazyInit.PassesFollowTheQueue | torch_gcu/gcu/__init__.py:190-212 | queued calls start only after _gcu_init; every pass runs a prefix of the queue in order; a completed initialisation has one non-raising pass that ran everything up to exhaustion exactly once |
| LazyInit.SettledStep | torch_gcu/gcu/__init__.py:120-212 | once initialised no step runs a queued call again or initialises again |
| LazyInit.SettledRun | torch_gcu/gcu/__init__.py:120-212 | the same over any continuation |
| LazyInit.QueuedCallsRunIffInTime | torch_gcu/gcu/__init__.py:125-139 | entries of the queue before exhaustion, also those of other queued calls, are run in queue order by the completing pass; entries appended after it are not |
| LazySeeds.CompletingPassRunsExactly | torch_gcu/gcu/__init__.py:125-212 | over any run, a call is run by the completing pass if and only if it was queued as a plain call before exhaustion, or was the latest of its seed kind when that pass or an earlier raising one read the tracker |
| LazySeeds.TrackerIsLatest | torch_gcu/gcu/__init__.py:132-136 | at every moment the tracker holds the latest seed call of each kind, and its order lists exactly those |
| LazySeeds.StepGains | torch_gcu/gcu/__init__.py:125-212 | every step of every thread changes what is in the completing pass's reach by exactly a plain call it queues or the tracker it reads |
| LazySeeds.LateSeedIsLost | torch_gcu/gcu/__init__.py:132-200 | an interleaving in which a seed call made before exhaustion is never run |
| LazyInit.LateCallIsLost | torch_gcu/gcu/__init__.py:125-212 | an interleaving of two threads in which a queued call is never run |
| Attention.AttentionIsReference | torch_gcu/csrc/aten/RegisterSPDA.cpp:430-494 | whichever backend is selected, the result is reference attention of the caller's arguments; it fails exactly on invalid input or when nothing is usable |
| Attention.FlashIsReference | torch_gcu/csrc/aten/RegisterSPDA.cpp:400-456 | whenever the flash gates hold, padding the head dimension to a multiple of 8, the scale of the original dimension, the dropped mask and the output slice give reference attention; the padded size is at most 256 |
| Attention.PaddedWeight | torch_gcu/csrc/aten/RegisterSPDA.cpp:137-178 | under the gates none of padding, explicit scale, dropped mask and lower-right causal diagonal changes a softmax weight |
| Attention.PaddedSize | torch_gcu/csrc/aten/RegisterSPDA.cpp:400-412 | the padded size is the next multiple of 8, and at most 256 if the size is |
| Attention.EfficientIsReference | torch_gcu/csrc/aten/RegisterSPDA.cpp:180-221 | whenever the efficient gates hold its kernel computes reference attention |
| Attention.MathIsReference | torch_gcu/csrc/aten/RegisterSPDA.cpp:343-365 | the converted boolean mask biases every key as the boolean mask does |
| Attention.SelectionFollowsPriority | torch_gcu/csrc/aten/RegisterSPDA.cpp:223-284 | flash whenever its gates hold, else efficient whenever its gates hold, else math if enabled, else none, although the priority array repeats math |
| Checkpoint.Saver.PersistentId | torch_gcu/gcu/storage_narrow.py:494-540 | rejects exactly a type clash and then changes nothing; otherwise updates the three dictionaries and returns the id |
| Checkpoint.Save | torch_gcu/gcu/storage_narrow.py:478-576 | the archive of a whole reference sequence: ids in order, byte-order mark, one record per key |
| Checkpoint.WriteRecords | torch_gcu/gcu/storage_narrow.py:562-576 | one record per key, holding the storage's bytes |
| Checkpoint.SaveFacts | torch_gcu/gcu/storage_narrow.py:494-540 | keys are handed out once, never move, and the type recorded per data pointer is the type of every reference to it |
| Checkpoint.SaveAcceptsIffConsistent | torch_gcu/gcu/storage_narrow.py:518-529 | saving succeeds exactly when no allocated data pointer is referenced with two types |
| Checkpoint.RejectionHasWitness | torch_gcu/gcu/storage_narrow.py:518-529 | a rejection always has two references that disagree |
| Checkpoint.Loader.PersistentLoad | torch_gcu/gcu/storage_narrow.py:911-969 | one load: the cached storage, or a new one that is cached if not empty; nothing changes on failure |
| Checkpoint.Load | torch_gcu/gcu/storage_narrow.py:863-969 | loads every id of an archive in order |
| Checkpoint.LoadFacts | torch_gcu/gcu/storage_narrow.py:911-969 | every loaded storage is right for its id, non-empty ones are shared by key, empty ones shared with nobody |
| Checkpoint.ArchiveIsLoadable | torch_gcu/gcu/storage_narrow.py:494-576 | every id of a saved archive can be loaded and ids share a key exactly when the references shared a storage |
| Checkpoint.SaveThenLoad | torch_gcu/gcu/storage_narrow.py:478-969 | load undoes save: same types, element counts and element values (the very bytes when byte orders agree), and two non-empty references share a storage exactly when they had the same _cdata |
| Checkpoint.SwapKeepsElements | torch_gcu/gcu/storage_narrow.py:926-928 | swapping bytes shows the other byte order the same element values |
| Checkpoint.AllBytesKeptIffWhole | torch_gcu/gcu/storage_narrow.py:505-516 | every byte survives exactly when the storage is a whole number of elements |
| Checkpoint.UnmarkedSurviveIff | torch_gcu/gcu/storage_narrow.py:877-928 | without a byte-order mark every consistent reference list survives if and only if the loader's default makes it swap exactly between machines of different byte order |
| Checkpoint.UnmarkedOrderIsLost | torch_gcu/gcu/storage_narrow.py:877-928 | under every other default a two-byte element is lost, for all byte orders of saver and loader |
| MatmulShapes.MatmulAgrees | torch_gcu/csrc/aten/RegisterLinearOverrideGCU.cpp:151-338 | every route terminates and gives broadcast(batch1, batch2) ++ rows ++ columns, failing exactly when the product is undefined (two vectors excepted) |
| MatmulShapes.FoldAgrees | torch_gcu/csrc/aten/RegisterLinearOverrideGCU.cpp:180-228 | the folded and the transposed folded route give the product shape |
| MatmulShapes.BmmAgrees | torch_gcu/csrc/aten/RegisterLinearOverrideGCU.cpp:280-328 | expanding, folding the batch, multiplying and unfolding give the product shape |
| MatmulShapes.SqueezedBatch | torch_gcu/csrc/aten/RegisterLinearOverrideGCU.cpp:262-277 | squeezing a leading 1 changes no product shape, on either side |
| MatmulShapes.ScanStrides | torch_gcu/csrc/aten/RegisterLinearOverrideGCU.cpp:92-102 | the scan answers whether the leading strides telescope |
| MatmulShapes.FoldAddressesSameElements | torch_gcu/csrc/aten/RegisterLinearOverrideGCU.cpp:42-102 | when the strides decide for folding, one row stride addresses the same element for every coordinate of any rank, and row numbers and batch coordinates correspond one to one |
| MatmulShapes.RowStrideImpliesTelescoping | torch_gcu/csrc/aten/RegisterLinearOverrideGCU.cpp:92-102 | the stride test is necessary: if one row stride addresses every coordinate and all leading sizes are at least 2, the strides telescope |
| MatmulShapes.FlattenedDim | torch_gcu/csrc/aten/RegisterLinearOverrideGCU.cpp:350-367 | the loop multiplies all sizes but the last |
| MatmulShapes.LinearAgrees | torch_gcu/csrc/aten/RegisterLinearOverrideGCU.cpp:369-405 | every route of linear with a matching bias or none gives input sizes without the last ++ [out], and fails exactly when the inner sizes differ |
| GraphedCallables.CopiesExactlyIff | torch_gcu/gcu/graphs.py:445-447 | the copy loop makes the buffers hold the arguments in every memory if and only if no overwritten buffer is a later source and no buffer has two sources |
| GraphedCallables.NoAliasDelivers | torch_gcu/gcu/graphs.py:445-447 | distinct buffers and arguments that alias no other argument's buffer satisfy that condition |
| GraphedCallables.Device.Forward | torch_gcu/gcu/graphs.py:443-450 | copies and replays; under the condition the outputs are the original function of the current arguments and parameters |
| GraphedCallables.Device.Backward | torch_gcu/gcu/graphs.py:452-470 | copies the incoming gradients past the gaps and replays; under the condition the gradients are the original ones of the tape and the incoming gradients |
| GraphedCallables.ForwardIsOriginal | torch_gcu/gcu/graphs.py:443-450 | one call returns the original value whatever memory held before, and leaves a tape of its inputs and intermediates |
| GraphedCallables.BackwardIsOriginal | torch_gcu/gcu/graphs.py:452-470 | one backward returns the original gradients of the tape in memory |
| GraphedCallables.BackwardRightIff | torch_gcu/gcu/graphs.py:452-470 | for every backward function, the backward of a call is right if and only if the tape cells hold what that call recorded |
| GraphedCallables.EarlierBackwardRightIff | torch_gcu/gcu/graphs.py:441-470 | after a second call the first one's backward is right if and only if both recorded the same tape |
| GraphedCallables.EarlierBackwardCanFail | torch_gcu/gcu/graphs.py:441-470 | a callable and two calls for which the first one's backward returns the second one's gradient |
| GraphedCallables.StepAgrees | torch_gcu/gcu/graphs.py:441-506 | every allowed event (write, call in either training state, backward of any call whose tape is intact) keeps graphed and eager program in step |
| GraphedCallables.DropInReplacement | torch_gcu/gcu/graphs.py:441-506 | after any allowed program over any number of callables and calls, from any memory, every usable variable holds the value, and every intact tape the record, of the eager program |
| GraphedCallables.PadGradients | torch_gcu/gcu/graphs.py:412-420 | the loop with its counter computes the padding |
| GraphedCallables.PadFacts | torch_gcu/gcu/graphs.py:412-420 | the entries at inputs that need a gradient are autograd's in order; None exactly where none is needed or autograd gave none, so exactly at inputs that need none when every input was used |
| GraphedCallables.PadUnique | torch_gcu/gcu/graphs.py:412-420 | nothing else has those properties |
| GraphedCallables.CaptureBackward | torch_gcu/gcu/graphs.py:385-427 | backward graphs are captured last callable first, and after the final reversal position i belongs to callable i |
| Reductions.StepKeepsCensus | torch_gcu/gcu/reductions.py:103-130 | every step of share, rebuild and drop keeps the census of all reference counters |
| Reductions.EveryCounterHasOnePlace | torch_gcu/gcu/reductions.py:103-130 | in every interleaving every counter is in exactly one place (message, one rebuilding thread, one live storage, released, lost with an empty message) and none is released twice |
| Reductions.SettledReturnsEverything | torch_gcu/gcu/reductions.py:103-130 | when nothing is in flight, pending or alive, exactly the counters of non-empty messages have been released |
| Reductions.TakeIsSafeIff | torch_gcu/gcu/reductions.py:109-125 | in every state that keeps the invariants, taking a non-empty message leads to no two live imports in any continuation without a further one if and only if every live import of the allocation is the cached one and no other thread of the process may still import it |
| Reductions.ReachableTakeIsSafeIff | torch_gcu/gcu/reductions.py:109-125 | the same in every state of every interleaving |
| Reductions.OrderlyTakeIsSafeIff | torch_gcu/gcu/reductions.py:109-125 | after an orderly run, that is so if and only if no other thread of the process is before its lookup of a non-empty message, has missed, or has not yet published, for the same (handle, offset) |
| Reductions.OneImportPerAllocation | torch_gcu/gcu/reductions.py:109-125 | if every non-empty message is taken under that condition, a process never has two live imports of one (handle, offset), whatever else interleaves |
| Reductions.StepKeepsSound | torch_gcu/gcu/reductions.py:103-130 | every step keeps: an unpublished import belongs to one thread, holders know what they hold, cache entries are dead or imports of their own allocation |
| Reductions.StepKeepsUnique | torch_gcu/gcu/reductions.py:109-130 | each orderly step keeps: a cache miss means absence, and every live import is cached or about to be |
| Reductions.StepKeepsSolo | torch_gcu/gcu/reductions.py:109-130 | while one thread alone may import an allocation, every step without a further message for it keeps that, and what is live is cached or that thread's |
| Reductions.RaceImportsTwice | torch_gcu/gcu/reductions.py:109-125 | two threads before their lookup can always end with two imports, even of a cached allocation: its holders can all let it go first |
| Reductions.OverlapImportsTwice | torch_gcu/gcu/reductions.py:109-125 | two threads before their lookup of an allocation that is not cached can end with two live imports |
| Reductions.TwoImportsFromTheStart | torch_gcu/gcu/reductions.py:103-125 | a complete interleaving that ends with two live imports of one allocation |
| Reductions.StrayImport | torch_gcu/gcu/reductions.py:103-130 | a complete interleaving after which no other thread is importing the allocation and the next message for it is still not safe to take, because a live import is no longer the cached one |
| Reductions.EmptyMessageLosesCounter | torch_gcu/gcu/reductions.py:103-108 | a complete interleaving in which a counter is neither owned nor released |
| SettingsText.LexArgs | torch_gcu/csrc/gcu/gcu_allocator_config.cpp:40-59 | the loop computes the token list |
| SettingsText.LexCharacterised | torch_gcu/csrc/gcu/gcu_allocator_config.cpp:40-59 | the token list is the one list of delimiters and separated words that spells the string without spaces |
| SettingsText.LexIdempotent | torch_gcu/csrc/gcu/gcu_allocator_config.cpp:40-59 | lexing the joined tokens gives the tokens |
| SettingsText.ScanDecimal | torch_gcu/csrc/gcu/gcu_allocator_config.cpp:71 | a printed number is read back by stoi and stoul within their ranges |
| DivisionTable.SlotsAgree | torch_gcu/csrc/gcu/gcu_allocator_config.cpp:22-38 | the slot written for k MB is the slot read for a size exactly when the size lies in [k MB, 2k MB), both ends clamped |
| DivisionTable.DivisionLookup | torch_gcu/csrc/gcu/gcu_allocator_config.cpp:102-171 | for increasing keys any size reads: the '>' value from the last listed interval upward, else the value of its interval, the first value below the first interval, 0 in gaps |
| AllocatorConfig.GCUAllocatorConfig.ParseArgs | torch_gcu/csrc/gcu/gcu_allocator_config.cpp:191-259 | outcome and new state are those of the token grammar, also when rejected midway, and validity is kept |
| AllocatorConfig.GCUAllocatorConfig.ParseRoundUpPower2Divisions | torch_gcu/csrc/gcu/gcu_allocator_config.cpp:102-171 | single value or list; on acceptance the returned index is larger, and inside the tokens unless the list was left open |
| AllocatorConfig.GCUAllocatorConfig.ParseDivisionList | torch_gcu/csrc/gcu/gcu_allocator_config.cpp:108-158 | the list loop against the list grammar; the index stops on the closing bracket or at the end |
| AllocatorConfig.GCUAllocatorConfig.ParseMaxSplitSize | torch_gcu/csrc/gcu/gcu_allocator_config.cpp:67-83 | value checked, clamped and scaled, or rejected with the state unchanged; the index is two further and inside |
| AllocatorConfig.GCUAllocatorConfig.ParseGarbageCollectionThreshold | torch_gcu/csrc/gcu/gcu_allocator_config.cpp:85-100 | a value strictly between 0 and 1, or rejected with the state unchanged |
| AllocatorConfig.GCUAllocatorConfig.ParseAllocatorConfig | torch_gcu/csrc/gcu/gcu_allocator_config.cpp:173-189 | accepts exactly native or topsMallocAsync, and only the one that is running; the state never changes |
| AllocatorConfig.GCUAllocatorConfig.ParsePinnedNumRegisterThreads | torch_gcu/csrc/gcu/gcu_allocator_config.cpp:276-294 | a power of two up to 128, or rejected with the state unchanged |
| AllocatorConfig.GCUAllocatorConfig.ParseFlag | torch_gcu/csrc/gcu/gcu_allocator_config.cpp:222-238 | exactly True or False sets the named flag, anything else is rejected with the state unchanged |
| AllocatorConfig.GCUAllocatorConfig.RoundupPower2Divisions | torch_gcu/csrc/gcu/gcu_allocator_config.cpp:22-38 | the clamped table lookup |
| AllocatorConfig.ReachableIsValid | torch_gcu/csrc/gcu/gcu_allocator_config.cpp:191-259 | after any sequence of strings from the initial state, accepted or rejected midway: 16 table entries each 0 or a power of two, split size unlimited or a non-wrapping multiple of 1 MB above the large buffer, threshold 0 or below 1 |
| AllocatorConfig.StringDeterminesOutcome | torch_gcu/csrc/gcu/gcu_allocator_config.cpp:191-259 | the outcome and the reset fields depend on the string alone; every other flag has the value given last among the options the parse read, and keeps its old value if none of them gives one |
| AllocatorConfig.RenderThenParse | torch_gcu/csrc/gcu/gcu_allocator_config.cpp:40-259 | any list of allowed settings rendered as name:value pairs, spaces anywhere, is accepted and parsed back to exactly those settings |
| AllocatorConfig.DivisionTextFillsTable | torch_gcu/csrc/gcu/gcu_allocator_config.cpp:102-171 | the text of an increasing division list, spaces anywhere, is accepted and leaves the table that DivisionLookup describes |
| AllocatorConfig.ListOverrunsIff | torch_gcu/csrc/gcu/gcu_allocator_config.cpp:108-158 | a division list is read past the tokens if and only if it is readable key:value pairs, separated by commas, that end after a value |
| AllocatorConfig.StringOverrunsIff | torch_gcu/csrc/gcu/gcu_allocator_config.cpp:102-259 | a string is read past its tokens if and only if they are accepted options and then such a list, whatever the state before |
| AllocatorConfig.UnclosedListOverruns | torch_gcu/csrc/gcu/gcu_allocator_config.cpp:108-158 | a string that does it in every state |
| AllocatorConfig.ClosedListStaysInside | torch_gcu/csrc/gcu/gcu_allocator_config.cpp:155-158 | a list with a closing bracket is never read past the end of the tokens |
| HalfRetry.Store.Retry | torch_gcu/csrc/aten/aten_cpu_fallback.cpp:193-318 | the whole retry on the caller's arguments: a written half tensor holds the rounding of the operator's result, on float values, for the last slot it is written through; other written ones hold the result itself, nothing else changes, and outputs have the types of the meta run |
| HalfRetry.Store.RunOperator | torch_gcu/csrc/aten/aten_cpu_fallback.cpp:224-228 | the operator stores its results in written arguments and nowhere else, and its outputs in new tensors |
| HalfRetry.ConvertedReady | torch_gcu/csrc/aten/aten_cpu_fallback.cpp:219-265 | the converted arguments satisfy what the operator and the write-back need |
| HalfRetry.ConvertedInputs | torch_gcu/csrc/aten/aten_cpu_fallback.cpp:219-228 | the operator's inputs are the caller's values with half ones as floats |
| HalfRetry.EveryWriteKeptIff | torch_gcu/csrc/aten/aten_cpu_fallback.cpp:230-265 | every written half slot's own rounded result is in its tensor afterwards, for every operator, if and only if no half tensor is written through two slots (others are written through one slot each) |
| HalfRetry.AliasedWriteIsLost | torch_gcu/csrc/aten/aten_cpu_fallback.cpp:230-265 | with a tensor written through two slots, one operator's results are not all kept, in every outcome |
| HalfRetry.LastWriteExists | torch_gcu/csrc/aten/aten_cpu_fallback.cpp:230-265 | every written tensor has a last slot in write-back order |
| HalfRetry.Store.ConvertTensorToF32 | torch_gcu/csrc/aten/aten_cpu_fallback.cpp:101-132 | every half slot is replaced by its own new float copy, listed with its position, tensors before list elements and each kind in order; everything else is untouched |
| HalfRetry.Store.WriteBack | torch_gcu/csrc/aten/aten_cpu_fallback.cpp:230-265 | a written target holds the rounding of its last copy, every other tensor is as it was |
| HalfRetry.Store.FixList | torch_gcu/csrc/aten/aten_cpu_fallback.cpp:293-318 | every defined output gets the type of the meta run, converted only if it differs |
| HalfRetry.OperatorSeesFloats | torch_gcu/csrc/aten/aten_cpu_fallback.cpp:101-132 | the operator sees the float value of every half argument and the other arguments themselves |
| HalfRetry.WrittenHalfIsRounded | torch_gcu/csrc/aten/aten_cpu_fallback.cpp:193-265 | for any heaps the three stages lead through, a written half argument holds the rounding of the operator's float result, with its shape, for the last slot it is written through |
| HalfRetry.OthersAreDirect | torch_gcu/csrc/aten/aten_cpu_fallback.cpp:193-265 | likewise other written arguments hold the operator's result and every tensor not written is unchanged |
| OpStatistics.EqualTo | torch_gcu/csrc/aten/op_statistics.h:247-295 | the comparison loop decides positionwise equality |
| OpStatistics.HashParams | torch_gcu/csrc/aten/op_statistics.h:217-240 | the hash loop with its carried seed |
| OpStatistics.ReflexiveIffNoStorage | torch_gcu/csrc/aten/op_statistics.h:276-281 | a parameter list equals itself exactly when it holds no storage |
| OpStatistics.EqualHashEqually | torch_gcu/csrc/aten/op_statistics.h:217-295 | equality is symmetric and equal lists hash equally although the seed carries over between parameters |
| OpStatistics.SameTransitive | torch_gcu/csrc/aten/op_statistics.h:247-295 | equality is transitive |
| OpStatistics.Statistics.RecordCall | torch_gcu/csrc/aten/op_statistics.cpp:488-506 | one call inserts or bumps its entry and the total |
| OpStatistics.Statistics.ClearAll | torch_gcu/csrc/aten/op_statistics.cpp:721-725 | clearing forgets everything |
| OpStatistics.TotalsAgree | torch_gcu/csrc/aten/op_statistics.cpp:488-506 | over any run the total is the number of calls since the last clear and the sum of the per-parameter counts |
| OpStatistics.CountsAreExact | torch_gcu/csrc/aten/op_statistics.cpp:488-506 | over any run, whatever the buckets, looking up parameters gives the number of calls with equal parameters since the last clear |
| DebugConfig.ReadingIsFirstMatch | torch_gcu/csrc/aten/op_debug_config.cpp:211-236 | the substring search reads the first token whose key ends with the key searched for, and nothing if there is none |
| DebugConfig.TableIsSuffixFree | torch_gcu/csrc/aten/op_debug_config.cpp:39-56 | no key of the table is the end of another |
| DebugConfig.OptionReadsOwnToken | torch_gcu/csrc/aten/op_debug_config.cpp:39-81 | with keys from the table every option reads exactly its own token, or nothing |
| DebugConfig.ForeignKeyMisleads | torch_gcu/csrc/aten/op_debug_config.cpp:211-236 | a key outside the table that ends with an option's key is read instead |
| DebugConfig.OptionReadsOwnIff | torch_gcu/csrc/aten/op_debug_config.cpp:211-236 | for any keys, an option reads its own token for all values if and only if no earlier key ends with its key |
| DebugConfig.ParserOperators | torch_gcu/csrc/aten/op_debug_config.cpp:207-249 | the cutting loop inserts every non-empty piece |
| DebugConfig.InsertAllCollects | torch_gcu/csrc/aten/op_debug_config.cpp:214-225 | exactly the include, exclude and select-all sets of the non-empty pieces |
| Text.PiecesSplit | torch_gcu/csrc/aten/op_debug_config.cpp:234-247 | the pieces contain no comma and joined by commas give the value back |
| DebugConfig.ParserBoolFlags | torch_gcu/csrc/aten/op_debug_config.cpp:251-276 | a flag changes only for true or false, in any case |
| DebugConfig.OpDebugConfig.Init | torch_gcu/csrc/aten/op_debug_config.cpp:59-81 | every flag, operator selection and the dump path get exactly what their own token says, or keep their default |
| Visibility.ParseOrdinals | torch_gcu/gcu/__init__.py:525-537 | the ordinal loop: stops at a negative number, empties on a repetition, raises on a bare sign |
| Visibility.CollectFacts | torch_gcu/gcu/__init__.py:525-537 | the collected ordinals are pairwise distinct and are the list up to its first negative number, unless empty |
| Visibility.CollectIs | torch_gcu/gcu/__init__.py:525-537 | exactly what is collected: nothing if a number repeats before the first negative or unreadable one, else an exception if an unreadable one comes first, else the numbers up to there |
| Visibility.ParseListWithPrefix | torch_gcu/gcu/__init__.py:508-518 | exactly the longest leading run of elements with the prefix, or nothing if an element repeats in it |
| Visibility.ParseVisibleDevices | torch_gcu/gcu/__init__.py:491-537 | the exact reading of every value: unset gives 64 ordinals, a UUID form the run of names with the prefix of the first, any other form the collected ordinals |
| Visibility.UuidToOrdinal | torch_gcu/gcu/__init__.py:593-602 | the search loop with its ambiguity test |
| Visibility.OrdinalIsUniqueMatch | torch_gcu/gcu/__init__.py:593-602 | an ordinal is returned exactly when it is the only device whose UUID starts with the candidate |
| Visibility.TransformUuidToOrdinals | torch_gcu/gcu/__init__.py:590-614 | the ordinals of the candidates, up to the first invalid one, empty on a repetition |
| Visibility.DeviceCount | torch_gcu/gcu/__init__.py:617-646 | raises exactly on an unreadable number; negative exactly on a failure (MIG names, no UUIDs, or a failed raw count); otherwise the number of visible ordinals before the first that is not present |
| Visibility.DeviceIndex | torch_gcu/gcu/__init__.py:649-667 | the visible ordinal of an index, raising exactly outside the list |
| Visibility.VisibleDevices | torch_gcu/gcu/__init__.py:617-667 | the count is that exact number and the devices are exactly the ordinals below it; it never exceeds the devices present, every index denotes a present device, different indices different ones, and with UUIDs the unique match of its prefix |
| Contexts.ContextsAreScoped | torch_gcu/gcu/__init__.py:254-271 | with primary contexts everywhere every nested program restores the current device and all current streams, and all work sees the device and stream of its enclosing contexts |
| Contexts.Execute | torch_gcu/gcu/__init__.py:388-442 | running a program with one context object per block gives exactly that |
| Contexts.RestoreStreams | torch_gcu/gcu/__init__.py:431-442 | leaving a stream context undoes entering it, on the same or another device |
| Contexts.StreamContext.Enter | torch_gcu/gcu/__init__.py:416-429 | remembers the stream of both devices involved and selects the new one |
| Contexts.StreamContext.Exit | torch_gcu/gcu/__init__.py:431-442 | restores the remembered streams, the original device last |
| Contexts.DeviceContext.Enter | torch_gcu/gcu/__init__.py:266-267 | selects a device and remembers the one that was current |
| Contexts.DeviceContext.Exit | torch_gcu/gcu/__init__.py:269-271 | goes back to the remembered device, if any |
| Contexts.Runtime.ExchangeDevice | torch_gcu/csrc/gcu/gcu_functions.cpp:214-227 | switches, clears the pending target and returns the device that was current |
| Contexts.Runtime.MaybeExchangeDevice | torch_gcu/csrc/gcu/gcu_functions.cpp:229-246 | switches at once only to a device with a primary context, else leaves a pending target |
| Contexts.Runtime.SetCurrentStream | torch_gcu/csrc/python/gcu_module.cpp:216-246 | moves to the stream's device if that is not current and records the stream |
| Contexts.PendingTargetSticks | torch_gcu/csrc/gcu/gcu_functions.cpp:229-246 | two nested contexts after which a device without a primary context stays current |
| Contexts.RestoresIffPrimary | torch_gcu/csrc/gcu/gcu_functions.cpp:229-246 | on two or more devices nested contexts always restore the current device if and only if every device has a primary context |

## Left out

- Kernels, streams, graph capture, autograd, the pickle layer and the management library: used by contract only (a kernel computes its mathematical function, capture gives results cells of their own, pickling carries persistent ids faithfully).
- Code generation, the collective process group and the caching allocator itself: string templates, declarations or foreign code.
- AdvancedIndexing.MakeInfo: needs at least one index tensor, since the adjacency scan compares meaningless iterators without one, and at most as many indices as dimensions, which its caller checks first (ops.cpp:305); storage bounds of as_strided are not modelled.
- Lazy initialisation in a forked child, a missing driver and the environment variable set before _gcu_init: error returns before the protocol starts.
- Attention for nested tensors and MPS, dropout, the unused preprocess_mask: the model is over reals, so rounding is not covered; a mask together with the causal flag is combined by the reference definition.
- Checkpoint: legacy tar files, container source patches, fake and meta storages, skip_data, memory-mapped loading and narrowing of 64-bit types on the device, which is taken to preserve values; complex types swap as one element.
- MatmulShapes: the out= variants and named tensors; zero-dimensional operands are an error.
- Graphed callables: warm-up iterations, hooks, tree flattening and autocast; a callable's outputs are cells of their own, so a function that returns its input unchanged is not covered.
- GraphedCallables.DropInReplacement: a backward whose tape cells were overwritten is not an allowed event; what it returns then is EarlierBackwardRightIff.
- Reductions: a message is consumed once; the producer's side of counters, event handles and the tensor metadata are not modelled.
- AllocatorConfig: stod is a parameter; the backend warning at the end of parseArgs and the switch message of setAllocatorSettings have no effect on the state.
- HalfRetry: optional tensor lists, whose float copies are never put back on the stack; the stack holds exactly the operator's arguments; an in-place operator's output is a tensor of its own.
- HalfRetry.Store.Retry: a tensor that is not half and is written through two slots is left to the operator, which is given that very tensor twice.
- OpStatistics.CountsAreExact: covers parameter lists without storages, because equal storages compare as different; equality and hash of atoms are assumed coherent.
- Dumping statistics and the recording of inputs and outputs: printing.
- Debug configuration tolerances (parserTolValue), dump directories and the deprecated variable.
- Visibility: digits and blanks are ASCII; library errors are the failure results.
- Contexts: a context object entered again while it is active, and device indices beyond the device count, which raise on entry.
- Transfer patches, autocast registration, slow-path macros, the fallback registry, memory statistics and profiling: wrappers.
