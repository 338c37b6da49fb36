# A verified model of the serving and training core

This project models, in Dafny 4.11, the parts of the repository whose behaviour is hardest to see from the code, and
proves what they promise over whole runs.

- **Block manager of the key/value cache** (`BlockManager`, `UncachedAllocator`, `Conservation`, `Swapping`, `Paging`,
  `GroupSwaps`, `SwapRepeats`, `Isolation`, `Appending`, `Slots`, `SwapReads`, `Prompts`, `Runs`, `Admission`,
  `SlidingWindow`, `WindowReads`, `WindowFork`, `Copying`): allocation with reference counts, sharing by fork, copy on
  write, swapping between two devices, the sliding-window ring and the admission checks. The main theorem is
  isolation: with the returned copies executed, every sequence reads a private token list. `BlockSpaceManager` holds
  the objects of the program; each method is proved against the functions.
- **Prefix caching** (`Evictor`, `OrderedDict`, `CachedAllocator`, `PrefixCache`, `PrefixSoundness`, `PrefixAppend`,
  `PrefixRuns`, `PrefixReuse`, `PrefixSharing`, `PrefixAdmission`, `PrefixSteps`, `PrefixRoom`, `PrefixCopies`,
  `PrefixSwap`, `CopyOrder`, `SwapOverwrites`, `EvictionOrder`): blocks shared by the hash of their content. The main
  theorems: whatever is shared, every sequence reads entries computed from its own prefix under its own LoRA id; and
  two live sequences share a full block exactly if they agree on the tokens up to its end. `CachingManager` holds the
  objects.
- **Paged attention on the CPU** (`KvLayout`, `QueryKey`, `RealSums`, `Softmax`, `Attention`): the scatter into the
  blocked cache, the lane-wise kernels, and the two versions of attention, over the reals. The partitioned version is
  proved equal to the plain one up to its smoothing term.
- **Allgather** (`Allgather`): the hand-written collective as a message-passing protocol.
- **Smaller run-level laws**: the LRU cache with pinned keys (`Lru`), the thinned training history
  (`TrainingHistory`), delta replication of sequence data (`SequenceDelta`), streaming with hold-back (`Streaming`),
  and the packed scalar-type ids (`ScalarTypes`).

`Wrappers`, `Holding` and `Arith` hold shared definitions. `dafny verify dfyconfig.toml` checks everything.

## What the model takes as given

- Sequence ids are new when a sequence is allocated or forked, and a sequence grows by one token between two calls of
  `append_slots`.
- Block hashes are injective and never collide with the default counter; a hash is represented by what it stands for.
- The order in which Python goes through a `set` is an input of `free`; the results hold for every order.
- The exponential function is a parameter with the laws exp(a + b) = exp(a) exp(b), exp(0) = 1 and exp(a) > 0.
- Channels between two ranks keep the order of messages (section 3.5 of the MPI standard); sends may complete as early
  as they like for safety and only when received for progress.
- Access times, losses, the texts of tokens and the initial contents of buffers are inputs.

## Where the code does less than one might expect

- `can_swap_in` leaves the watermark out of its NEVER test, so a group can be told LATER for ever
  (`Admission.SwapInLaterExact`, `Admission.SwapInStarves`).
- `allocate` sets counts to the number of all sequences of the group, which is right exactly if all of them are waiting
  (`Conservation.AllocateConservesIff`).
- A value put into a full LRU cache whose other keys are all pinned is dropped at once (`Lru.PutKeeps`).
- With a `training_history_length` below two, thinning raises TypeError (`TrainingHistory.ThinnedFails`).
- A reset while tokens are pending makes the replica lose them (`SequenceDelta.Replication`).
- With `min_tokens`, one character of a stop string can be streamed before the string is cut (`Streaming.RunExact`).
- The evictor can pass over the least recently used block when blocks are freed out of the order of their accesses;
  exactly when it does not is `Evictor.EvictChoosesIff`, and `EvictionOrder.OppositeOrderEvictsWrong` is a run.
- With prefix caching, an allocation that has to evict can evict the very block that a later position of the same
  table would have found (`PrefixReuse.EvictsItsOwn`); exactly when a block is found again is
  `PrefixReuse.AllocateExact`, and `PrefixReuse.FoundAgain` gives a condition known before the call.
- With prefix caching, the copies of one step are right in their order (`PrefixSteps.StepBatches`), but the kernel
  goes through them in a parallel loop. Any order is right if no append takes a block that an earlier copy of the step
  reads (`PrefixCopies.StepCopiesAnyOrder`), for instance when there is a new block for each append and no two fill a
  block alike (`PrefixRoom.RoomConflictFree`). Otherwise an order can make a sequence read another's entry
  (`PrefixCopies.ReorderedReadsWrong`; `CopyOrder.LastCopyFirstReadsWrong` is a run).
- With prefix caching, a block that is not full keeps the hash of a shorter prefix, so that swapping can overwrite the
  block of a sequence swapped before (`SwapOverwrites.SecondSwapOverwrites`; exactly when it does no harm is
  `PrefixSwap.ArrivalReadsIff`).
- With a sliding window, swapping a sequence that has more blocks than the window raises for a double free
  (`SwapRepeats.WindowSwapIff`).
- With a sliding window, a forked sequence can write its newest token into a block that only its parent still counts
  (`WindowFork.ForkedRingOverwrites`; exactly when it does not is `WindowFork.RingGoesOnIff`).
- With a sliding window that is not a number of whole blocks, decoding cuts the block table shorter than the window and
  misses tokens of it (`WindowReads.SeesWindowIff`, `WindowReads.PartBlockWindowMisses`).

## Model

| member | source | states |
|---|---|---|
| Runs.RunRefines | infra/cray_infra/vllm/core/block_manager_v1.py:359-697 | every run of allocate, append_slots, fork, swap_out, swap_in and free, with the copy pairs executed and the tokens written, reads for each table exactly a private token list that only that table's own operations change; the only possible error is running out of memory |
| Runs.StepRefines | infra/cray_infra/vllm/core/block_manager_v1.py:359-697 | one operation: the new views are the old ones changed as the operation says for its own tables and unchanged for all others, and the world stays valid |
| Runs.InitialValid | infra/cray_infra/vllm/core/block_manager_v1.py:240-292 | the manager before any request is valid and has no views |
| Runs.AllocateStepReads | infra/cray_infra/vllm/core/block_manager_v1.py:359-388 | after allocate the new sequences (and the request's encoder table) read their prompt, everybody else what they read before |
| Runs.ForkStepReads | infra/cray_infra/vllm/core/block_manager_v1.py:516-531 | after fork the child reads what the parent reads, nobody else changes |
| Runs.FreeStepReads | infra/cray_infra/vllm/core/block_manager_v1.py:673-687 | free removes one table and changes what no other table reads |
| Runs.SwapInReads | infra/cray_infra/vllm/core/block_manager_v1.py:597-623 | swap_in succeeds exactly when the distinct blocks fit, and nobody's view changes once the data is moved along the returned pairs |
| SwapReads.SwapOutReads | infra/cray_infra/vllm/core/block_manager_v1.py:629-654 | swap_out succeeds exactly when the distinct blocks fit, and nobody's view changes once the data is moved along the returned pairs |
| Isolation.SlotReads | infra/cray_infra/vllm/core/block_manager_v1.py:468-514 | append_slots with its copy pairs executed adds one position to what its own sequence reads, keeps the positions before it, and changes nothing for the others |
| Appending.AppendStepReads | infra/cray_infra/vllm/core/block_manager_v1.py:468-514 | a scheduling step that appends once to each of several sequences gives each its own token; it fails only if there are fewer free blocks than sequences |
| Appending.StepCopiesAnyOrder | infra/cray_infra/vllm/core/block_manager_v1.py:468-514 | the pairs collected over one such step have distinct destinations and no destination is a source, so executing them in any order gives the same store |
| Slots.StepSlotsDistinct | infra/cray_infra/vllm/core/block_manager_v1.py:468-514 | the slots of the new tokens of one step are pairwise distinct, as the scatter of their keys and values needs it |
| Paging.ViewAt | infra/cray_infra/vllm/sequence.py:463-464 | what a sequence reads at position i * block_size + j is entry j of its i-th block |
| Paging.NBlocksIsCeiling | infra/cray_infra/vllm/sequence.py:463-464 | the number of blocks is the rounded-up quotient of length and block size |
| Conservation.AllocateForm | infra/cray_infra/vllm/core/block_manager_v1.py:330-388 | allocate runs out of memory exactly when the free list is shorter than the blocks it needs, and otherwise hands the top of the free list to all sequences of the group (and a second table to the request) |
| Conservation.GrantConserves | infra/cray_infra/vllm/core/block_manager_v1.py:330-388 | handing a fresh table to new owners keeps every count equal to the number of tables that hold the block |
| Conservation.AllocateConservesIff | infra/cray_infra/vllm/core/block_manager_v1.py:359-378 | since the count is set to the number of all sequences of the group but only waiting ones get the table, allocate keeps the counts right if and only if every sequence of the group is waiting (or there are no blocks) |
| Conservation.FinishedSequenceMiscounts | infra/cray_infra/vllm/core/block_manager_v1.py:359-378 | in every conserved state with room, a group of one waiting and one finished sequence is allocated with wrong counts |
| Conservation.AllocateConserves | infra/cray_infra/vllm/core/block_manager_v1.py:359-388 | for a group of waiting sequences with new ids, allocate keeps the counts or is out of memory |
| Conservation.AppendSlotsKeeps | infra/cray_infra/vllm/core/block_manager_v1.py:468-514 | append_slots keeps the counts in all cases (in place, new block, copy on write, with the exact tables, counts and pairs) and fails exactly when it needs a block and none is free |
| Conservation.ForkConserves | infra/cray_infra/vllm/core/block_manager_v1.py:516-531 | fork keeps the counts although it counts each distinct block once |
| Conservation.FreeConserves | infra/cray_infra/vllm/core/block_manager_v1.py:656-687 | free never reports a double free, removes exactly that table and keeps the counts, so a block is free again exactly when no table holds it |
| Conservation.ResetFreesEverything | infra/cray_infra/vllm/core/block_manager_v1.py:689-697 | reset succeeds from every conserved state and leaves every block free and no table |
| UncachedAllocator.FreeCount | infra/cray_infra/vllm/core/block_manager_v1.py:205-222 | the reported number of free blocks is the total minus the distinct blocks held by some table |
| UncachedAllocator.LastFreedFirst | infra/cray_infra/vllm/core/block_manager_v1.py:205-219 | the block freed last is the first to be allocated again, which undoes the release |
| Swapping.SwapGroupMoves | infra/cray_infra/vllm/core/block_manager_v1.py:573-654 | swapping a group succeeds exactly when the destination has a free block for each distinct block; the mapping is one to one, the counts move with it, and tables outside the group keep theirs |
| Swapping.SwapTableMoves | infra/cray_infra/vllm/core/block_manager_v1.py:573-595 | the swap of one table, continuing a mapping: shared blocks are moved once, and the counts stay right on both devices after every table |
| GroupSwaps.SwapOutMovesGroup | infra/cray_infra/vllm/core/block_manager_v1.py:629-654 | swap_out of a group from a conserved state: it succeeds exactly when the CPU has a free block for each distinct block of the running sequences and of the cross table; then each of those tables has its old length with all its blocks on the CPU, every other table is as it was, counts are right, and the pairs tell once for each block that left where its contents go |
| GroupSwaps.SwapInMovesGroup | infra/cray_infra/vllm/core/block_manager_v1.py:597-623 | swap_in: the same with the swapped sequences, from the CPU to the GPU |
| GroupSwaps.CountedBlocks | infra/cray_infra/vllm/core/block_manager_v1.py:533-548 | the blocks that the swap checks count are exactly those of the unfinished sequences' tables and of the cross table |
| SwapRepeats.SwapOutIff | infra/cray_infra/vllm/core/block_manager_v1.py:573-654 | for a group that shares blocks only among its own sequences, with or without a window: swap_out succeeds if and only if no table repeats a block and the CPU has room for the distinct blocks |
| SwapRepeats.WindowSwapIff | infra/cray_infra/vllm/core/block_manager_v1.py:573-654 | with a sliding window, in every state that a run reaches: swap_out succeeds if and only if no running sequence has more blocks than the window and the CPU has room, since a table that has gone around its ring is given back twice |
| SwapRepeats.WrappedRaises | infra/cray_infra/vllm/core/block_manager_v1.py:214-219 | a conserved state and a wrapped ring whose swap raises for a double free |
| Admission.CanAllocateExact | infra/cray_infra/vllm/core/block_manager_v1.py:297-328 | can_allocate is OK if and only if allocate succeeds and leaves at least the watermark free, with or without a window |
| Admission.CanAllocateAnswers | infra/cray_infra/vllm/core/block_manager_v1.py:297-328 | for every group with a waiting sequence: NEVER if and only if the rounded-up blocks of the first waiting sequence and of the encoder sequence, within the window, exceed the total together with the watermark; OK if and only if they fit beside the blocks held; LATER otherwise |
| Admission.NeverMeansNever | infra/cray_infra/vllm/core/block_manager_v1.py:297-328 | NEVER: no state of a GPU of the same size is OK for the group |
| Admission.LaterBecomesOk | infra/cray_infra/vllm/core/block_manager_v1.py:297-328 | LATER becomes OK after reset, which frees the last window of each table if there is a window |
| Admission.CanAppendSound | infra/cray_infra/vllm/core/block_manager_v1.py:390-401 | can_append_slots means that one append for every running sequence of the group succeeds |
| Admission.CanSwapOutSound | infra/cray_infra/vllm/core/block_manager_v1.py:625-654 | can_swap_out means that swap_out succeeds and moves the tables of all running sequences and the cross table |
| Admission.CanSwapOutExact | infra/cray_infra/vllm/core/block_manager_v1.py:625-627 | can_swap_out is true if and only if the blocks held on the CPU and the distinct blocks of the unfinished sequences do not exceed its total; when those sequences are all running, that is exactly when swap_out succeeds |
| Admission.CanSwapInExact | infra/cray_infra/vllm/core/block_manager_v1.py:550-571 | the three answers of can_swap_in by the distinct blocks, the number of swapped sequences, the blocks held on the GPU, the watermark and the total |
| Admission.CanSwapInFits | infra/cray_infra/vllm/core/block_manager_v1.py:550-623 | can_swap_in = OK means that swap_in succeeds and leaves the watermark and a block for each swapped sequence and the cross table; when the unfinished sequences are all swapped, it is OK exactly then |
| Admission.SwapInNeverStays | infra/cray_infra/vllm/core/block_manager_v1.py:550-571 | NEVER stays NEVER in every state that holds the group's tables on a GPU of that size |
| Admission.CanSwapInSound | infra/cray_infra/vllm/core/block_manager_v1.py:550-623 | can_swap_in = OK means that swap_in succeeds and so does one append for each sequence right after it |
| Admission.SwapInLaterExact | infra/cray_infra/vllm/core/block_manager_v1.py:550-571 | can_swap_in does not count the watermark when it decides NEVER: a group that is not told NEVER is never OK, whatever else is freed or allocated, unless it fits together with the watermark, and on a GPU that is otherwise empty it is OK if and only if it does |
| Admission.SwapInStarves | infra/cray_infra/vllm/core/block_manager_v1.py:550-571 | a concrete conserved state and group that is told LATER there and in every conserved state of the same GPU that still holds it |
| Admission.SwapRoundTrip | infra/cray_infra/vllm/core/block_manager_v1.py:573-654 | swap_out followed by swap_in keeps table lengths, the exact sharing pattern between all positions of the group's tables, and what every table reads |
| Admission.SwapKeepsSharing | infra/cray_infra/vllm/core/block_manager_v1.py:573-595 | two positions of a group's tables hold the same block after a swap if and only if they did before |
| SlidingWindow.RingRunKeeps | infra/cray_infra/vllm/core/block_manager_v1.py:330-357 | over every run of single-sequence groups, however many tokens are appended, each table satisfies T[i] = T[i mod w] on at most w blocks, no two tables share a block, counts are right, and only running out of memory can fail |
| SlidingWindow.WindowSlotsDistinct | infra/cray_infra/vllm/core/block_manager_v1.py:258-262 | any window of consecutive positions occupies pairwise distinct slots |
| SlidingWindow.ReleaseKeepsRings | infra/cray_infra/vllm/core/block_manager_v1.py:656-679 | freeing a ring gives each of its blocks back exactly once |
| SlidingWindow.GrowKeepsRings | infra/cray_infra/vllm/core/block_manager_v1.py:468-514 | appending a token keeps the ring, asks for no copy, and fails only while the ring is short and no block is free |
| SlidingWindow.EmptyRings | infra/cray_infra/vllm/core/block_manager_v1.py:240-292 | the manager before any request is a ring state, so every run can start from it |
| WindowFork.RingGoesOnIff | infra/cray_infra/vllm/core/block_manager_v1.py:480-514 | when a sequence that has filled its window goes on, with each block counted once for each table that has it in its last window: its newest token goes where no other sequence looks if and only if the block at index length mod window of its table is not counted exactly once, or is still in its own window |
| WindowFork.ForkedRingOverwrites | infra/cray_infra/vllm/core/block_manager_v1.py:480-531 | fork under a sliding window, from a state that a run reaches: after two appends to the child its newest token goes, without a copy, into the only block of its parent |
| WindowReads.WindowRunReads | infra/cray_infra/vllm/worker/cpu_model_runner.py:274-291 | over every run from there, with the prompt written from the window on and each token at its slot: each sequence reads its last min(length, window) tokens, however often the ring has gone around, and only running out of memory can fail |
| WindowReads.WindowStepKeeps | infra/cray_infra/vllm/worker/cpu_model_runner.py:274-291 | admission, one more token and freeing each keep that, for the sequence concerned and for all others |
| WindowReads.DecodeReadsWindow | infra/cray_infra/vllm/worker/cpu_model_runner.py:374-390 | when the window is a number of whole blocks, decoding through the cut block table reads each of the last min(length, window) tokens exactly once, in rotated order |
| WindowReads.SeesWindowIff | infra/cray_infra/vllm/worker/cpu_model_runner.py:374-390 | for any window: decoding looks at every position of the window if and only if the window is a number of whole blocks, or the sequence is no longer than those, or the window is within one block and begins at a block's start |
| WindowReads.PartBlockWindowMisses | infra/cray_infra/vllm/worker/cpu_model_runner.py:387-389 | a window of 6 tokens in blocks of 4: with 5 tokens, decoding misses one |
| Copying.CopyInAnyOrder | infra/csrc/cpu/cache.cpp:15-32 | copies whose destinations are distinct and are no sources give the same result in any order |
| Copying.SafeInAnyOrder | infra/csrc/cpu/cache.cpp:15-32 | whatever the blocks hold: if no destination is a source and copies to one destination are of one source, every order gives the same result |
| Copying.AnyOrderIff | infra/csrc/cpu/cache.cpp:15-32 | for blocks that all hold different contents, every order gives the same result if and only if that is so |
| Copying.SequentialIsAtOnce | infra/csrc/cpu/cache.cpp:15-32 | for such pairs the copies one after the other equal the copies from the original contents all at once |
| Copying.CopyBlocks | infra/csrc/cpu/cache.cpp:15-32 | the copy loop over a flat cache does to the blocks what the pairs say, in their order |
| Copying.CopyRange | infra/csrc/cpu/cache.cpp:18-31 | one block copy replaces the elements of the destination by those of the source and leaves all others |
| BlockSpaceManager.UncachedBlockAllocator.constructor | infra/cray_infra/vllm/core/block_manager_v1.py:183-203 | a new allocator lists its numbered blocks, all free and of count zero |
| BlockSpaceManager.UncachedBlockAllocator.Allocate | infra/cray_infra/vllm/core/block_manager_v1.py:205-212 | the allocator object pops the last free block and sets its count, or runs out of memory |
| BlockSpaceManager.UncachedBlockAllocator.Free | infra/cray_infra/vllm/core/block_manager_v1.py:214-219 | the allocator object lowers the count and lists the block as free at zero, or reports a double free |
| BlockSpaceManager.Manager.AllocateSequence | infra/cray_infra/vllm/core/block_manager_v1.py:330-357 | the loop over the logical blocks builds the specified table and pool, wrapping at the window |
| BlockSpaceManager.Manager.Allocate | infra/cray_infra/vllm/core/block_manager_v1.py:359-388 | the manager object after allocate is the specified state; from a conserved state and for a group of waiting sequences with new ids it stays conserved or reports that memory is out, and nothing else |
| BlockSpaceManager.Manager.AppendSlots | infra/cray_infra/vllm/core/block_manager_v1.py:468-514 | the manager object after append_slots is the specified state and returns the specified pairs; from a conserved state and for a table that may grow it stays conserved, or reports that memory is out and is unchanged: no double free, no failed assertion |
| BlockSpaceManager.Manager.WritableLastBlock | infra/cray_infra/vllm/core/block_manager_v1.py:496-514 | the last block is written in place when its count is one and replaced by copy on write otherwise |
| BlockSpaceManager.Manager.Fork | infra/cray_infra/vllm/core/block_manager_v1.py:516-531 | the manager object after fork is the specified state, and stays conserved for a new child id |
| BlockSpaceManager.Manager.FreeBlockTable | infra/cray_infra/vllm/core/block_manager_v1.py:656-671 | the loop over the set of blocks gives each back to its device, in any order |
| BlockSpaceManager.Manager.Free | infra/cray_infra/vllm/core/block_manager_v1.py:673-679 | the manager object after free is the specified state, for every order of the blocks; from a conserved state it succeeds and stays conserved |
| BlockSpaceManager.Manager.SwapBlockTable | infra/cray_infra/vllm/core/block_manager_v1.py:573-595 | the loop over one table yields the specified table, mapping and pools |
| BlockSpaceManager.Manager.SwapTables | infra/cray_infra/vllm/core/block_manager_v1.py:597-654 | the loop over the tables of a group yields the specified tables, mapping and pools |
| BlockSpaceManager.Manager.SwapOut | infra/cray_infra/vllm/core/block_manager_v1.py:629-654 | from a conserved state and for tables on the GPU: out of memory, or the tables of all running sequences and the cross table lie on the CPU with their old lengths, all others are as before, and the returned pairs tell where each block's contents go |
| BlockSpaceManager.Manager.SwapIn | infra/cray_infra/vllm/core/block_manager_v1.py:597-623 | from a conserved state and for tables on the CPU: out of memory, or the tables of all swapped sequences and the cross table lie on the GPU with their old lengths, all others are as before, and the returned pairs tell where each block's contents go |
| BlockSpaceManager.Manager.GetPhysicalBlocks | infra/cray_infra/vllm/core/block_manager_v1.py:533-548 | the loop collects the distinct blocks of the unfinished sequences of a group and of its cross table, or raises KeyError if one of them has no table |
| BlockSpaceManager.Manager.CanAllocate | infra/cray_infra/vllm/core/block_manager_v1.py:297-328 | raises for an encoder/decoder group with a window; in a conserved state the three answers follow from the blocks of the first waiting sequence, the blocks held, the watermark and the total, and for waiting sequences with new ids OK is exactly when allocate will succeed and leave the watermark |
| BlockSpaceManager.Manager.CanAppendSlots | infra/cray_infra/vllm/core/block_manager_v1.py:390-401 | in a conserved state: true if and only if the blocks that tables hold and one more for each running sequence fit the GPU |
| BlockSpaceManager.Manager.CanSwapOut | infra/cray_infra/vllm/core/block_manager_v1.py:625-627 | KeyError if a table is missing; in a conserved state true exactly if the blocks held on the CPU and the distinct blocks of the unfinished sequences fit it, and then swap_out of the group succeeds |
| BlockSpaceManager.Manager.CanSwapIn | infra/cray_infra/vllm/core/block_manager_v1.py:550-571 | KeyError if a table is missing; in a conserved state the three answers by the blocks wanted, the blocks held and the total, and OK promises that swap_in of the group succeeds and leaves the watermark and a block for each sequence brought in |
| BlockSpaceManager.Manager.Reset | infra/cray_infra/vllm/core/block_manager_v1.py:689-697 | the loop over all tables leads to the specified state; from a conserved state it succeeds and leaves every block of both devices free |
| CachedAllocator.AcquireKeeps | infra/cray_infra/vllm/core/block_manager_v1.py:101-141 | allocate of the caching allocator fails only when nothing is free, never by an assertion; it yields the block with the wanted hash if there is one and otherwise a block nobody used, and changes no other block |
| CachedAllocator.AcquireSource | infra/cray_infra/vllm/core/block_manager_v1.py:101-141 | where the block comes from: the one with the hash; else the first never used; else, when all have been used, the evictor's victim, which keeps its access time |
| CachedAllocator.ReleaseKeeps | infra/cray_infra/vllm/core/block_manager_v1.py:143-152 | free of a block in use never fails; at count zero the block moves from cached_blocks to the evictor under its own hash |
| CachedAllocator.UpdateHashKeeps | infra/cray_infra/vllm/core/block_manager_v1.py:160-169 | update_hash of a block in use to a hash nobody has never fails and keeps the bookkeeping |
| CachedAllocator.HashesDistinct | infra/cray_infra/vllm/core/block_manager_v1.py:119-152 | no two created blocks, in use or freed, have the same hash |
| CachedAllocator.FreeCount | infra/cray_infra/vllm/core/block_manager_v1.py:154-155 | the reported number of free blocks is the total minus the distinct blocks held by some table |
| Evictor.EvictChooses | infra/cray_infra/vllm/core/evictor_v1.py:68-85 | on a table in order of access, evict picks a block of least last access with the most hashed tokens among those, so the early exit agrees with a full search |
| Evictor.EvictChoosesIff | infra/cray_infra/vllm/core/evictor_v1.py:68-85 | on any table: evict picks a block of least last access with the most hashed tokens among those if and only if some such block has more hashed tokens than all before it and no entry up to it was accessed later than the most hashed one before that entry |
| Evictor.EvictorRunChooses | infra/cray_infra/vllm/core/evictor_v1.py:68-95 | a run that adds blocks in nondecreasing order of access keeps the table in order through add, remove and evict, so every eviction is the right one |
| EvictionOrder.OppositeOrderEvictsWrong | infra/cray_infra/vllm/core/block_manager_v1.py:656-679 | a run of the manager whose next eviction is wrong: two sequences freed in the opposite order of their accesses |
| PrefixRuns.RunSound | infra/cray_infra/vllm/core/block_manager_v1.py:330-531 | over every run of allocate, append_slots, fork, free and access: each sequence reads at each position the entry computed from its own prefix under its own LoRA id, a block shared by two tables sits at the same index of both, a content key is a prefix of every owner's tokens with the owner's LoRA id, cached_blocks and the evictor hold the blocks in use and the freed ones under their own hashes with disjoint keys, counts and the free count are right, and the only possible error is running out of memory |
| PrefixRuns.StepSound | infra/cray_infra/vllm/core/block_manager_v1.py:330-531 | one operation keeps all of this |
| PrefixRuns.AllocateKeeps | infra/cray_infra/vllm/core/block_manager_v1.py:330-378 | allocate of a new sequence keeps the invariant; it fails exactly if the free blocks do not cover the blocks whose content no live sequence holds, uses up exactly those, files every block of the table under the tokens up to its end with the LoRA id, and reuses the blocks filed so before that it has not evicted for an earlier position |
| PrefixAppend.AppendKeeps | infra/cray_infra/vllm/core/block_manager_v1.py:403-514 | append_slots keeps the invariant in all five cases (new block, in place, promotion to the content hash, replacement by an existing block, copy on write), takes at most one free block, and fails only if there is none |
| PrefixAppend.AllocateLastKeeps | infra/cray_infra/vllm/core/block_manager_v1.py:440-466 | the block allocated as the last one is unused by others or already holds the wanted content, and its assertion on the count never fails |
| PrefixAppend.AppendReplaced | infra/cray_infra/vllm/core/block_manager_v1.py:403-421 | giving way to the block that has the hash already neither runs out nor changes what anybody reads |
| PrefixRuns.ForkKeeps | infra/cray_infra/vllm/core/block_manager_v1.py:516-531 | fork keeps the invariant and the free count |
| PrefixRuns.FreeKeeps | infra/cray_infra/vllm/core/block_manager_v1.py:656-679 | free keeps the invariant, for every order of the blocks, and never fails |
| PrefixRuns.AccessKeeps | infra/cray_infra/vllm/core/block_manager_v1.py:712-722 | setting access times keeps the invariant; every block of the table has the new time, every other block keeps its own, and nothing else changes |
| PrefixRuns.InvShared | infra/cray_infra/vllm/core/block_manager_v1.py:330-531 | tables that hold the same block hold it at the same logical index, under a key that fits both owners |
| PrefixRuns.InvReadsOwn | infra/cray_infra/vllm/sequence.py:555-566 | every sequence reads the entries of its own prefixes, even while a partial block keeps its old key |
| PrefixAdmission.CanAllocateExact | infra/cray_infra/vllm/core/block_manager_v1.py:297-328 | with caching: NEVER if and only if the rounded-up blocks of the prompt and the watermark exceed the total, OK if and only if they fit beside the blocks held, LATER otherwise |
| PrefixAdmission.OkFits | infra/cray_infra/vllm/core/block_manager_v1.py:297-328 | OK: allocate succeeds and leaves the watermark |
| PrefixAdmission.NeverFits | infra/cray_infra/vllm/core/block_manager_v1.py:297-328 | NEVER: in no sound world with as many blocks does allocate succeed and leave the watermark |
| PrefixAdmission.LaterBecomesOk | infra/cray_infra/vllm/core/block_manager_v1.py:297-328 | LATER: once all sequences of this very world are freed, in any order of tables and blocks, the answer is OK |
| PrefixReuse.PrefixKeyIff | infra/cray_infra/vllm/sequence.py:286-297 | a key is that of a block if and only if it stands for the tokens up to the block's end (or all there are), the LoRA id, and the place where the prompt ends |
| PrefixReuse.KeysAgreeIff | infra/cray_infra/vllm/sequence.py:555-563 | two sequences have the same hash at a block if and only if they agree on the tokens up to its end, on the LoRA id, and on where the prompt ends within them |
| PrefixReuse.AllocateExact | infra/cray_infra/vllm/core/block_manager_v1.py:338-378 | allocate from any well-formed pool: succeeds if and only if the free blocks cover the blocks whose content no live sequence holds, and uses up exactly those; every block of the new table is filed under the tokens up to its end; a block filed so before stands at its position if and only if it was not evicted for an earlier one |
| PrefixReuse.FoundAgain | infra/cray_infra/vllm/core/block_manager_v1.py:338-357 | a block filed under the tokens up to the end of position i is the one at position i of the new table whenever it is in use, or the never used blocks suffice for what is missing before it |
| PrefixReuse.SecondIsFree | infra/cray_infra/vllm/core/block_manager_v1.py:338-357 | allocating the same tokens under the same LoRA id while the first table lives gives the same table and takes no free block |
| PrefixReuse.EvictsItsOwn | infra/cray_infra/vllm/core/block_manager_v1.py:101-141 | without such room the condition can fail: a pool in which the block evicted for the first position is the one filed for the second |
| PrefixSharing.RunShares | infra/cray_infra/vllm/core/block_manager_v1.py:330-531 | over every run: two live sequences have the same physical block at a full position if and only if they agree on the tokens up to its end (and on LoRA id and prompt end), and every full block is filed under its tokens |
| PrefixSharing.StepFiled | infra/cray_infra/vllm/core/block_manager_v1.py:330-531 | one operation keeps every full block of every live sequence filed under the tokens up to its end |
| PrefixRuns.CanAppendSound | infra/cray_infra/vllm/core/block_manager_v1.py:390-401 | with caching: one free block per sequence means that one append for each of them succeeds |
| PrefixSteps.StepBatches | infra/cray_infra/vllm/core/block_manager_v1.py:440-514 | a whole step of appends with caching: all copies in their order and then all entries give the same world as the appends one by one, with every sequence reading its own entries; it fails only by running out of memory |
| PrefixSteps.StepFits | infra/cray_infra/vllm/core/block_manager_v1.py:390-401 | with caching: one free block per sequence means that the whole step succeeds |
| PrefixSteps.StepConflictFreeIff | infra/cray_infra/vllm/core/block_manager_v1.py:440-514 | the copies of such a step have distinct destinations, none of them a source, if and only if no append takes (by its hash, or as the next new or evicted block) a block that an earlier copy of the step reads or writes; and no destination is a source if and only if no append takes one that an earlier copy reads |
| PrefixSteps.NoneFullConflictFree | infra/cray_infra/vllm/core/block_manager_v1.py:440-514 | a step in which no block becomes full has conflict-free copies |
| PrefixRoom.RoomConflictFree | infra/cray_infra/vllm/core/block_manager_v1.py:440-514 | so has a step that starts with a never used block for each append, if no two appends fill a block with the same content |
| PrefixSteps.SameTokenClashes | infra/cray_infra/vllm/core/block_manager_v1.py:440-514 | three sequences share a block and two of them fill it with the same token: the step asks twice for the same copy, which conflicts but overwrites no source |
| PrefixCopies.StepAsks | infra/cray_infra/vllm/core/block_manager_v1.py:440-514 | each copy of a step is asked for by an append of its own, and before the step its source held the entries of all tokens of that append's sequence but the new one |
| PrefixCopies.StepCopiesAnyOrder | infra/csrc/cpu/cache.cpp:15-32 | if no append takes a block that an earlier copy of the step reads, the copies may be carried out in any order: once the entries are written, every block is as after the appends one by one, even where several copies go to one block |
| PrefixCopies.ReorderedReadsWrong | infra/csrc/cpu/cache.cpp:15-32 | if a copy goes to the source of another and the two sources hold different entries for a token that the other's sequence had before, there is an order of the same copies after which that sequence reads the wrong entry |
| CopyOrder.LastCopyFirstReadsWrong | infra/cray_infra/vllm/core/block_manager_v1.py:440-514 | a run and a step of the manager, with a free block before each append, whose three copies are right in their order, while with the last one first two sequences read the entry of another prompt |
| CopyOrder.SameCopyTwice | infra/cray_infra/vllm/core/block_manager_v1.py:440-514 | a run and a step that asks for one copy twice |
| PrefixSwap.SwapArrives | infra/cray_infra/vllm/core/block_manager_v1.py:573-595 | swapping a table with caching allocates on the destination by the hash and position of each source block, one after the other, and returns where each went |
| PrefixSwap.CounterUnused | infra/cray_infra/vllm/core/block_manager_v1.py:119-141 | allocating under a given hash does not depend on the default counter |
| PrefixSwap.ArrivalReadsIff | infra/cray_infra/vllm/core/block_manager_v1.py:573-595 | after the copy every sequence on the destination reads its own entries if and only if each block put into one that others hold has their entries too; it fails only by running out of memory |
| PrefixSwap.FullBlocksWelcome | infra/cray_infra/vllm/core/block_manager_v1.py:573-595 | which is so whenever the blocks put into ones that others hold are full and filed under their content |
| SwapOverwrites.SecondSwapOverwrites | infra/cray_infra/vllm/core/block_manager_v1.py:573-654 | a run in which it is not: two sequences with one prompt and different next tokens are swapped out one after the other into the same block, and the first reads the second's entry |
| PrefixCache.PrefixKeyTokens | infra/cray_infra/vllm/sequence.py:286-297 | the key of a block stands for the first tokens of its sequence up to the end of the block |
| CachingManager.LRUEvictor.Evict | infra/cray_infra/vllm/core/evictor_v1.py:68-85 | the scanning loop with early exit removes and returns the specified victim |
| CachingManager.LRUEvictor.Add | infra/cray_infra/vllm/core/evictor_v1.py:87-88 | the entries are the old ones but for the hash of the block, which now has the block; a latecomer with a new hash keeps the table in order of access |
| CachingManager.LRUEvictor.Remove | infra/cray_infra/vllm/core/evictor_v1.py:90-95 | exactly the entry of the hash goes, its block is returned, and the order of access stays; ValueError if there is none |
| CachingManager.CachedBlockAllocator.AllocateBlock | infra/cray_infra/vllm/core/block_manager_v1.py:101-117 | a new or an evicted block gets the hash, as specified |
| CachingManager.CachedBlockAllocator.Allocate | infra/cray_infra/vllm/core/block_manager_v1.py:119-141 | the allocator object after allocate is the specified pool and stays valid |
| CachingManager.CachedBlockAllocator.Free | infra/cray_infra/vllm/core/block_manager_v1.py:143-152 | the allocator object after free is the specified pool and stays valid |
| CachingManager.CachedBlockAllocator.UpdateHash | infra/cray_infra/vllm/core/block_manager_v1.py:163-169 | the allocator object after update_hash is the specified pool and stays valid |
| CachingManager.CachedBlockAllocator.ContainsBlock | infra/cray_infra/vllm/core/block_manager_v1.py:160-161 | true if and only if some created block, in use or freed, has the hash |
| CachingManager.CachedBlockAllocator.GetNumFreeBlocks | infra/cray_infra/vllm/core/block_manager_v1.py:154-155 | the returned number is the total minus the held blocks |
| CachingManager.Manager.Allocate | infra/cray_infra/vllm/core/block_manager_v1.py:359-378 | the object after allocate: it succeeds exactly if the free blocks cover the content that no sequence holds, every block of the new table is filed under its tokens, and what was there is reused; in a world where every sequence reads its own entries, a new id keeps it so |
| CachingManager.Manager.AllocateSequence | infra/cray_infra/vllm/core/block_manager_v1.py:338-357 | the loop over the logical blocks files each block under the tokens up to its end, finds again what was filed so, and fails exactly if the free blocks do not cover the rest |
| CachingManager.Manager.AllocateLastPhysicalBlock | infra/cray_infra/vllm/core/block_manager_v1.py:440-466 | the specified block and pool |
| CachingManager.Manager.MaybePromoteLastBlock | infra/cray_infra/vllm/core/block_manager_v1.py:403-438 | the specified block and pool |
| CachingManager.Manager.AppendSlots | infra/cray_infra/vllm/core/block_manager_v1.py:468-514 | the caching manager object after append_slots is the specified state and returns the specified pairs; in a world where every sequence reads its own entries it stays so, and the only error is running out of memory |
| CachingManager.Manager.Fork | infra/cray_infra/vllm/core/block_manager_v1.py:516-531 | the caching manager object after fork is the specified state; right counts keep it valid, and a new child keeps every sequence reading its own entries |
| CachingManager.Manager.Free | infra/cray_infra/vllm/core/block_manager_v1.py:656-679 | the caching manager object after free is the specified state, for every order of the blocks; in a world where every sequence reads its own entries it succeeds and the others go on doing so |
| CachingManager.Manager.AccessAllBlocksInSeq | infra/cray_infra/vllm/core/block_manager_v1.py:712-722 | the loop gives the new access time to all blocks of the table and to no other, or raises KeyError; what the sequences read stays |
| CachingManager.Manager.CanAppendSlots | infra/cray_infra/vllm/core/block_manager_v1.py:390-401 | with right counts: true if and only if the blocks that tables hold and one more for each running sequence fit the GPU |
| CachingManager.Manager.CanAllocate | infra/cray_infra/vllm/core/block_manager_v1.py:297-328 | with right counts the three answers by the rounded-up blocks of the prompt, the blocks held, the watermark and the total; OK promises that allocate will succeed and leave the watermark, and after NEVER it does not do both |
| KvLayout.ReshapeAndCache | infra/csrc/cpu/cache.cpp:36-82 | every cell of the two caches holds the element of the last token whose slot it belongs to, or what it held before; tokens with a negative slot are skipped |
| KvLayout.ScatterRoundTrip | infra/csrc/cpu/cache.cpp:36-82 | with distinct slots, the cell of a token's slot holds that token's key or value in every head and element |
| KvLayout.KeyAddrInjective | infra/csrc/cpu/cache.cpp:56-70 | different key elements never share an address when the head size is a multiple of x |
| KvLayout.ValueAddrInjective | infra/csrc/cpu/cache.cpp:72-78 | different value elements never share an address |
| KvLayout.KeyAddrIs | infra/csrc/cpu/attention.cpp:269-281 | the address that the scatter and the query-key kernel compute for an element of a key is its address in the blocked layout |
| KvLayout.WriteKeyHead | infra/csrc/cpu/cache.cpp:63-70 | the chunk loops write one head of one token's key and nothing else |
| KvLayout.WriteValueHead | infra/csrc/cpu/cache.cpp:72-78 | the loop writes one head of one token's value and nothing else |
| QueryKey.KernelsFit | infra/csrc/cpu/attention.cpp:125-138 | the group sizes of the kernels of 4-byte and of 2-byte elements fill a block of 16 tokens and are unrolled without a rest |
| QueryKey.ReduceQKBlock | infra/csrc/cpu/attention.cpp:124-200 | the logits of the first token_num tokens are the scaled dot products of the query and their keys, for full and for partly filled blocks; nothing outside the block's logits is written |
| QueryKey.ScoreGroup | infra/csrc/cpu/attention.cpp:187-198 | the unrolled loop over one group puts the scaled dot products of its tokens in place and writes nothing outside the block's logits |
| QueryKey.Accumulate | infra/csrc/cpu/attention.cpp:144-185 | after all chunks each lane holds the sum of its products, for the unrolled full-block loop and the stepped partial loop |
| QueryKey.AddChunkPartial | infra/csrc/cpu/attention.cpp:164-185 | the stepped loop stays within the block and covers the groups of all tokens |
| QueryKey.ReduceLanes | infra/csrc/cpu/attention.cpp:187-198 | adding up the lanes of a token gives its dot product |
| RealSums.LanesSum | infra/csrc/cpu/attention.cpp:124-200 | adding up row by row in lanes and then across the lanes gives the plain sum |
| Softmax.ReduceSoftmax | infra/csrc/cpu/attention.cpp:47-71 | returns the maximum and the sum of shifted exponentials (at least one), leaves the normalised weights and zeros up to the capacity |
| Softmax.ReduceSoftmaxAlibi | infra/csrc/cpu/attention.cpp:73-103 | the same on the biased logits of a range that starts at any position: the newest token of the sequence keeps its logit, and each step back costs the slope once more |
| Softmax.BiasedLosesWithAge | infra/csrc/cpu/attention.cpp:73-86 | the biased logits fall behind the plain ones by the slope for each token between the position and the newest one |
| Softmax.ReducePartitionSoftmax | infra/csrc/cpu/attention.cpp:105-122 | the factors are the rescaled sums divided by their total plus 1e-8 |
| Softmax.MergedAttention | infra/csrc/cpu/attention.cpp:105-122 | merging reduced partitions gives the attention of all tokens times S / (S + 1e-8), S being the rescaled sum and at least one |
| Softmax.MergeParts | infra/csrc/cpu/attention.cpp:105-122 | the rescaled sums and outputs of the first partitions add up to those of their tokens |
| Softmax.AttendShifted | infra/csrc/cpu/attention.cpp:47-71 | the weighted mean is the same for every shift of the logits |
| Attention.ReduceValues | infra/csrc/cpu/attention.cpp:202-217 | the accumulated lanes add up to the weighted sum of the values for every element of the head |
| Attention.ComputeLogits | infra/csrc/cpu/attention.cpp:269-281 | the block loop computes the logit of every position through the block table |
| Attention.ScoresLoseWithAge | infra/csrc/cpu/attention.cpp:73-86 | the scores the attention is stated with: without a slope the logits; with one, the last position keeps its logit and neighbouring scores differ by the difference of the logits plus the slope |
| Attention.AttendRange | infra/csrc/cpu/attention.cpp:254-335 | logits, softmax and values of a range of positions: output times sum is the sum of exponentials times values, for all elements of the head |
| Attention.PagedAttentionV1 | infra/csrc/cpu/attention.cpp:222-341 | the output is the softmax-weighted mean of the values of all positions, with or without bias, and nothing else is written |
| Attention.PagedAttentionV2 | infra/csrc/cpu/attention.cpp:474-651 | with one partition the output is that mean; with more, output times (S + 1e-8) is that mean times S, where S >= 1 is the sum of exponentials shifted by the maximum |
| Attention.MergeError | infra/csrc/cpu/attention.cpp:105-122 | the merged output differs from the exact one by at most 0.00000001 of it, towards zero |
| Attention.ReadsItsToken | infra/csrc/cpu/attention.cpp:269-281 | a position reads the key and the value of the token that the scatter put into its slot |
| Allgather.RunGathers | infra/cray_infra/training/gpu_aware_mpi/gpu_aware_mpi.cpp:103-171 | over every run of any number of ranks and back-to-back calls: no rank fails, every finished call returned the concatenation of that call's send buffers in rank order, the number of steps is bounded, and a run in which no rank can move has finished all calls on all ranks |
| Allgather.StepKeeps | infra/cray_infra/training/gpu_aware_mpi/gpu_aware_mpi.cpp:103-171 | every step keeps each channel equal to the messages posted and not yet taken, in order, and each buffer true to the slices received so far |
| Allgather.Progress | infra/cray_infra/training/gpu_aware_mpi/gpu_aware_mpi.cpp:127-160 | while some rank has calls left some rank can move, even if a send completes only when it is received |
| Allgather.ReadyMoves | infra/cray_infra/training/gpu_aware_mpi/gpu_aware_mpi.cpp:111-160 | a rank that can move has an enabled step |
| Allgather.StepAdvances | infra/cray_infra/training/gpu_aware_mpi/gpu_aware_mpi.cpp:103-171 | every step brings the end one step nearer |
| Lru.RunKeeps | infra/cray_infra/vllm/utils.py:197-288 | over every history: at most capacity entries, in the order of their last use, each with the value put last, pinned keys are keys, and every key that came in is still there or was handed to the removal hook, exactly once per removal |
| Lru.PutKeeps | infra/cray_infra/vllm/utils.py:233-236 | put never raises, never drops a pinned key, removes the least recently used unpinned key if it has to; the new key stays if and only if it was there, there was room, or some other key was not pinned |
| Lru.RunPins | infra/cray_infra/vllm/utils.py:238-245 | over every history: a key is pinned if and only if it was pinned while it was there and since then neither popped, nor cleared, nor dropped as the oldest by remove_oldest with remove_pinned; and then it is still in the cache |
| Lru.RunFinds | infra/cray_infra/vllm/utils.py:210-213 | over every history: a lookup finds the value put last if the key is there, and nothing otherwise |
| Lru.RemovesOldest | infra/cray_infra/vllm/utils.py:253-269 | remove_oldest takes out the least recently used entry, or the least recently used one that is not pinned, and hands it to the hook |
| Lru.RemovesNothing | infra/cray_infra/vllm/utils.py:253-269 | without remove_pinned it raises if and only if there are entries and all are pinned |
| Lru.ClearHooks | infra/cray_infra/vllm/utils.py:285-288 | clear empties the cache and hands every entry to the hook, oldest first |
| Lru.PutLosesNewKey | infra/cray_infra/vllm/utils.py:233-236 | a put whose own key is the victim |
| Lru.LRUCache.PutItem | infra/cray_infra/vllm/utils.py:233-236 | the object after put is the specified cache |
| Lru.LRUCache.GetItem | infra/cray_infra/vllm/utils.py:210-213 | the value with the entry moved to the end, or KeyError |
| Lru.LRUCache.PinItem | infra/cray_infra/vllm/utils.py:238-245 | the key is pinned, or ValueError is raised |
| Lru.LRUCache.PopItem | infra/cray_infra/vllm/utils.py:275-283 | the entry is removed, unpinned and handed to the hook if it was there |
| Lru.LRUCache.RemoveOldestItem | infra/cray_infra/vllm/utils.py:253-269 | the search loop removes the first unpinned entry, or the first of all, or reports that all are pinned |
| Lru.LRUCache.RemoveOldItems | infra/cray_infra/vllm/utils.py:271-273 | the loop removes old entries until the capacity is kept |
| Lru.LRUCache.ClearItems | infra/cray_infra/vllm/utils.py:285-288 | the loop removes every entry, oldest first |
| TrainingHistory.RecordedKeeps | ml/cray_megatron/megatron/training_loop.py:208-226 | for a fresh run and a limit L >= 2 the history includes the first and the latest step, is strictly increasing, has at most L entries, each with the loss of its step, and every adjacent gap g satisfies g = 1 or g * (L - 1) <= 2 * (last - first) |
| TrainingHistory.ClosestGap | ml/cray_megatron/megatron/training_loop.py:333-348 | the gap that a removal opens is at most twice the even spacing |
| TrainingHistory.ThinnedFails | ml/cray_megatron/megatron/training_loop.py:333-348 | the thinning raises TypeError if and only if the limit is below two and exceeded |
| TrainingHistory.RecordedFails | ml/cray_megatron/megatron/training_loop.py:208-226 | with a limit below two a run fails if and only if it records more entries than the limit |
| TrainingHistory.RemoveClosestEntry | ml/cray_megatron/megatron/training_loop.py:333-348 | the nested loops end and remove the first entry of least double gap until the length fits |
| TrainingHistory.FindClosest | ml/cray_megatron/megatron/training_loop.py:339-346 | the scan finds the first inner entry of least double gap, and none without inner entries |
| TrainingHistory.TrainingState.UpdateHistory | ml/cray_megatron/megatron/training_loop.py:208-226 | the history after an update is the specified one |
| TrainingHistory.TrainingState.Train | ml/cray_megatron/megatron/training_loop.py:73-83 | the step loop of a fresh run leaves the specified history |
| SequenceDelta.Replication | infra/cray_infra/vllm/sequence.py:268-357 | for every interleaving of append, compute, reset and exchange: source output = replica output + pending tokens if and only if no reset came while tokens were pending, and then every exchange makes both sides equal in tokens, token list, computed count, stage and log-probability |
| SequenceDelta.SourceHistory | infra/cray_infra/vllm/sequence.py:268-321 | after every history of the source: its output is the initial one with the appended tokens, its log-probability their sum, its computed count the sum of the updates since the last reset, and it decodes if and only if since then an update brought the count to the length |
| SequenceDelta.DirtyResetLoses | infra/cray_infra/vllm/sequence.py:314-321 | a reset with a token pending loses it for the replica |
| SequenceDelta.SequenceData.AppendTokenId | infra/cray_infra/vllm/sequence.py:268-272 | the object after an append |
| SequenceDelta.SequenceData.UpdateNumComputedTokens | infra/cray_infra/vllm/sequence.py:303-312 | the count goes up by the argument, the stage is decoding if it now equals the length, and the assertion fails exactly if it exceeds the length, the count staying raised |
| SequenceDelta.SequenceData.ResetStateForRecompute | infra/cray_infra/vllm/sequence.py:314-321 | the object after a reset |
| SequenceDelta.SequenceData.GetDeltaAndReset | infra/cray_infra/vllm/sequence.py:341-350 | the delta, and nothing pending afterwards |
| SequenceDelta.SequenceData.ApplyDelta | infra/cray_infra/vllm/sequence.py:352-357 | the object after a delta |
| Streaming.RunExact | infra/cray_infra/vllm/sequence.py:516-531 | over every run, the pieces returned make up exactly the final text if and only if the last token does not leak: the text did not end, unnoticed, with a found stop string of greatest length while all but the hold-back had been returned |
| Streaming.RunStreams | infra/cray_infra/vllm/sequence.py:516-531 | over every run not yet finished: when output has been asked for, the caller has exactly what the tokens added without its last h characters, h being one less than the longest stop string, or 0 without stop strings or when they are kept |
| Streaming.RunText | infra/cray_infra/vllm/engine/output_processor/stop_checker.py:31-120 | until it is finished, the text of a sequence is all that its tokens added |
| Streaming.StopTokenLaw | infra/cray_infra/vllm/engine/output_processor/stop_checker.py:44-69 | below the minimum number of tokens nothing stops; from there on a stop token does, and its own text is cut off unless it is to be kept |
| Streaming.StopStringLaw | infra/cray_infra/vllm/engine/output_processor/stop_checker.py:88-120 | the first stop string of the list that ends within the new characters, or right before them, stops the sequence; the text is cut before its first such place, or after it if it is to be kept |
| Streaming.NoStopLaw | infra/cray_infra/vllm/engine/output_processor/stop_checker.py:71-86 | if no stop string ends there, the sequence is finished only by a length limit, and the text stays whole |
| Streaming.FinishExact | infra/cray_infra/vllm/sequence.py:516-531 | a leak is exactly one character |
| Streaming.StreamingExact | infra/cray_infra/vllm/engine/output_processor/stop_checker.py:31-120 | when stop strings are looked for from the first token on, nothing at or after the cut is ever returned |
| Streaming.MinimumTokensLeak | infra/cray_infra/vllm/engine/output_processor/stop_checker.py:44-47 | with min_tokens, a character of a stop string can be returned before it is cut |
| Streaming.BufferBound | infra/cray_infra/vllm/sampling_params.py:319-322 | the hold-back is one less than the longest stop string |
| Streaming.Sequence.GetOutputTextToReturn | infra/cray_infra/vllm/sequence.py:516-531 | the returned piece follows what was returned before; afterwards that is the whole text if the sequence is finished, and otherwise all but the hold-back, if that is more than before |
| Streaming.Sequence.CheckStopStrings | infra/cray_infra/vllm/engine/output_processor/stop_checker.py:88-120 | the loop cuts at the first stop string of the list that occurs in its window |
| Streaming.Sequence.MaybeStopSequence | infra/cray_infra/vllm/engine/output_processor/stop_checker.py:31-86 | the object after the stop checks |
| Streaming.Sequence.ProcessToken | infra/cray_infra/vllm/sequence.py:516-531 | one token of an unfinished sequence: the text grows by the token's, and if output is asked for, all but the hold-back has been returned |
| ScalarTypes.IdRoundTrip | infra/csrc/core/scalar_type.hpp:85-161 | from_id(id(t)) = t for all fields, negative bias included, and the id fits 58 bits |
| ScalarTypes.IdInjective | infra/csrc/core/scalar_type.hpp:125-141 | different types have different ids |
| ScalarTypes.IdLayout | infra/csrc/core/scalar_type.hpp:103-141 | the bits of an id: exponent 0-7, mantissa 8-15, sign 16, bias in two's complement 17-48, finite-only 49, NaN representation 50-57 |
| ScalarTypes.PackedRoundTrip | infra/csrc/core/scalar_type.hpp:92-161 | for any list of members of up to 64 bits each, folding them in bit by bit and extracting them gives back their values |
| ScalarTypes.BitsRoundTrip | infra/csrc/core/scalar_type.hpp:124-155 | masking the sign-extended value and casting the extracted bits gives back the value |
| ScalarTypes.IntegerRange | infra/csrc/core/scalar_type.hpp:219-268 | max - min + 1 = 2^size_bits for integer types, both in 64 bits, and the bias shifts both ends alike |

## Left out

- BlockTable: the parallel list of block numbers and `ids()` are not modelled; a table is a list of blocks.
- block_tables and cross_block_tables: the two dictionaries are one map with tagged keys.
- CachedBlockAllocator: the blocks exist from the start and get their fields when their number comes up; the program creates them at that moment.
- An operation that raises in the middle may have changed objects already; runs stop at the first error, so the state after an error is not described.
- BlockSpaceManager.Manager.SwapOut: the tables of the running sequences lie on the GPU, as they do in every run; what the code does with a block of the other device, which it would file in the wrong free list, is not described.
- BlockSpaceManager.Manager.SwapIn: the same for tables of swapped sequences, which lie on the CPU.
- BlockSpaceManager.Manager.SwapTables: the same for its source device.
- BlockSpaceManager.Manager.SwapBlockTable: the same for its source device.
- PrefixSwap.SwapArrives: one table with a mapping of its own; the runs of `PrefixRuns` do not swap, since isolation fails for some of them.
- PrefixSwap.ArrivalReadsIff: a hash that the counter gave out is taken to be below the destination's counter, which plays no part when the hash is given (`PrefixSwap.CounterUnused`), and to stand for one position.
- WindowReads.SeesWindowIff: what a decode step reads beyond the cut table is not described; it is no position of the sequence.
- Prefix caching with a sliding window, or with several waiting sequences in a group.
- Runs with both a sliding window and fork, for which isolation fails (`WindowFork.ForkedRingOverwrites`), or both a sliding window and swap, which succeeds only before the ring has been gone around (`SwapRepeats.WindowSwapIff`).
- `computed` flags, common computed block ids and cache hit rates.
- Lookahead slots, which the manager refuses by assertion.
- block_manager_v2.py and evictor_v2.py.
- The loops over layers in copy_blocks and over sequences and heads in the attention kernels; the model treats one cache and one query head with the key/value head it maps to; the iterations write apart.
- Rounding, vector register types, prefetching and OpenMP scheduling in the kernels.
- The query-key kernel of 2-byte elements with 32 lanes, which adds up pairs of products in one lane.
- Entries of the block table beyond the blocks of the sequence; the table of a problem is the part that is used.
- The duplicate of the softmax loops with and without bias: their common tail is written once.
- The final status messages, timeouts and error codes of MPI; `mpi_allreduce` and `mpi_reduce_scatter`, which call the library.
- Lru.PutKeeps: the capacity is a natural number; with a negative capacity the loop of the code would not end.
- Resuming a training run from a checkpoint, where steps can repeat; the history law is for a fresh run.
- Detokenisation, which only appends text; full-text (non-delta) output.
- ScalarTypes.IntegerRange: stated for fewer than 63 mantissa bits, because beyond that the shift of the code overflows.
- Floating-point limits and the names of scalar types.
- HTTP serving, job launch, model loading, configuration and the foreign GPU kernels.
