# citor in Dafny: protocols and parallel algorithms

This project models the concurrent core of the citor thread pool and the parallel algorithms its benchmarks run on
it, and proves what those programs promise. `dafny verify dfyconfig.toml` checks everything.

Two kinds of concurrency model are used.

- **Interleaved step systems.** The work-stealing deque, the mailbox dispatch protocol, the decoupled-lookback scan
  and the branch-and-bound search are transition systems in which every shared access is a step of its own. The
  theorems quantify over all runs. Relaxed loads of the search's running best may return any earlier value, and its
  weak compare-and-swap may fail for no reason.
- **Any order of frame-disjoint children.** The other algorithms are imperative methods. Where the source forks
  children or blocks, the method runs them in an arbitrary order and the frames that make the order irrelevant are
  proved. Cutoffs, bucket counts, root depths, parallel depths and participant counts are parameters.

| file | what it holds |
|---|---|
| `ChaseLev.dfy` | the deque: ring buffers, growth, pops and steals in any interleaving |
| `Dispatch.dfy` | publish, claim, run, acknowledge and join through the worker mailboxes, with cold collapse and parameter reuse |
| `DispatchStrays.dfy` | the runs in which a late worker goes wrong, for every series of dispatches that allows one |
| `BlockShares.dfy` | strided, contiguous and counter-drawn division of blocks among ranks |
| `Lookback.dfy`, `PairwiseTree.dfy` | the single-pass scan; the fixed-shape combine tree |
| `KnapsackItems.dfy`, `KnapsackBound.dfy`, `KnapsackSearch.dfy`, `KnapsackCancel.dfy`, `KnapsackSerial.dfy` | 0/1 knapsack: optimum and dynamic program, fractional bound, concurrent search and its cancellation, serial search |
| `Matrices.dfy`, `Buffers.dfy`, `MatmulDac.dfy`, `Strassen.dfy` | exact matrix algebra, strided views of one flat memory, the two recursive multiplications |
| `Merging.dfy`, `Tiling.dfy`, `ParallelMerge.dfy`, `Cilksort.dfy` | sequential merge, tilings and the two-pass scan, bucketed merge, recursive sort |
| `Placements.dfy`, `Queens.dfy` | peaceful queen placements and the boards that have one; 64-bit words as bit strings, bitmask N-queens |
| `Jacobi.dfy` | the double-buffered blocked sweep |
| `Folds.dfy` | combiners, sequential folds, merging the folds of consecutive blocks |
| `MachineWords.dfy`, `Reduce.dfy` | 64-bit arithmetic, ceiling-division blocks, block-wise reductions |
| `Sha1.dfy`, `Sha1Vectors.dfy` | SHA-1 as FIPS 180-4 states it, and the streaming form; its schedule, round functions and constants by other means, and two digests worked out round by round |
| `IncludeGraph.dfy`, `NameOrder.dfy`, `Amalgamate.dfy` | the include-graph walk, the sorted system includes, the header merge |

## What does not hold as stated

Each of these comes with the exact condition under which it does hold.

- A collapsed dispatch that reuses its predecessor's parameters is stamped without being remembered, so a late
  acknowledgement of it can hide the stamp of the dispatch after it, and then nothing waits for the worker any more.
  Call a *stray* a collapsible dispatch with reused parameters, directly followed by a collapsible one with parameters
  of its own, followed by any number of collapsible ones (`Dispatch.Strays`). For every number of workers and every
  series of dispatches the engine allows:
  descriptor reads and cached parameters are right in all runs if and only if nothing follows a stray
  (`DispatchStrays.DescriptorSafeIff`);
  every share runs exactly once, in turn, with its own parameters if and only if what follows a stray is collapsible and
  does not reuse parameters (`DispatchStrays.ExactlyOnceIff`);
  no run stands still inside a dispatch if and only if what follows a stray is collapsible
  (`DispatchStrays.NeverDeadIff`). A loop, the same loop again, another loop and a reduction are a series that
  hangs (`DispatchStrays.FourDispatchesHang`): a worker still holding the third word finds the reduction's descriptor,
  runs the reduction's share for it and overwrites the mailbox.
- `reserveOwner` is documented to make the next `needed` pushes free of growth. It ignores what is already in the
  deque: `ChaseLev.ReserveCovers` and the instance `ChaseLev.ReserveFallsShort`.
- The fractional bound is an upper bound at every capacity exactly when no value is negative
  (`KnapsackBound.BoundSoundIff`).
- The parallel N-queens count is zero on boards smaller than its root depth, so it is right if and only if the board
  has at least that many rows or has two or three, where there is no placement (`Queens.ParQueens`,
  `Placements.SolvableIff`). With the root depth of two that the code uses: from two rows on.
- The ceiling-division blocks tile a non-empty range exactly when the rounding sum fits 64 bits
  (`CeilingBlocks.TilesExactly`); the `dp` reduction also lacks the guard on reversed ranges that the loops have
  (`CeilingBlocks.ReversedRange`).
- The arrival-order reduction is the sequential fold on all inputs if and only if the combiner commutes
  (`Reduce.ArrivalRightIff`).
- Both recursive multiplications are right on all operands if and only if the size halves evenly down to the leaf size,
  as the leaf size times a power of two does (`MatmulDac.RightSizes`, `Strassen.RightSizes`). On any other size the
  eight-product form never writes one cell of the result, and Strassen's leaves zero there when its arena was zero.
- An include inside a conditional is dropped from a merged body but never followed (`Amalgamate.DroppedAreParsed`,
  `Amalgamate.GuardedIncludeLost`).

Comments of the source that its code contradicts, where the model follows the code: the Strassen level carves 17
sub-buffers, not 21; the cancellation margin of the knapsack search is 1%, not 5%; `cilksortRec` always copies back
and never flips buffers.

## Model

| member | source | states |
|---|---|---|
| ChaseLev.RunIsSequential | include/citor/detail/chase_lev_deque.h:122-187 | after every run from an empty deque the effects, in order, form a legal history of one sequential deque (pop at the back, steal at the front) whose contents are the live ring slots; pops and steals return exactly what the history says they took, empty pops only when it is empty |
| ChaseLev.RunConserves | include/citor/detail/chase_lev_deque.h:122-187 | in every run the elements pushed are the elements taken plus the elements still there, counted with multiplicity: none lost, none returned twice |
| ChaseLev.PushRoomStep | include/citor/detail/chase_lev_deque.h:122-133 | storing a pushed element overwrites no slot a pop or a steal may still read |
| ChaseLev.GrowKeeps | include/citor/detail/chase_lev_deque.h:295-312 | publishing a grown ring preserves the contents and what every in-flight thief relies on |
| ChaseLev.PopRaceStep | include/citor/detail/chase_lev_deque.h:156-164 | the race for the last element keeps the history legal whoever wins |
| ChaseLev.StealKeeps | include/citor/detail/chase_lev_deque.h:173-187 | a winning steal returns the front element although its slot was read earlier, possibly from a retired ring |
| ChaseLev.EarlyMiss | include/citor/detail/chase_lev_deque.h:173-179 | a steal gives up at its look at bottom only if the deque is empty or its last element is being popped; if top is still what it read, if and only if |
| ChaseLev.StealSettles | include/citor/detail/chase_lev_deque.h:180-186 | in any reachable state a thief at its compare-and-swap returns the front element, takes it out and logs it if top has not moved; otherwise it misses and nothing else changes |
| ChaseLev.StealAdvances | include/citor/detail/chase_lev_deque.h:173-187 | every step of a steal brings it one step closer to its answer with the top it read; it can miss at its look at bottom or at its compare-and-swap and nowhere else |
| ChaseLev.LostStealMeansTaken | include/citor/detail/chase_lev_deque.h:166-187 | in any run, when a steal that read top comes to its compare-and-swap: if top is the same it returns the front element, else it misses and some call has taken an element in the meantime |
| ChaseLev.StealAlone | include/citor/detail/chase_lev_deque.h:173-187 | with nobody else moving a steal returns the front element and takes it out, unless there is nothing to steal |
| ChaseLev.PushAlone | include/citor/detail/chase_lev_deque.h:122-133 | with nobody else moving a push appends its element; the ring doubles exactly when only the spare slot is left |
| ChaseLev.PopAlone | include/citor/detail/chase_lev_deque.h:140-164 | with nobody else moving a pop returns the last element and takes it out, and misses only on an empty deque |
| ChaseLev.ReservedIsLeast | include/citor/detail/chase_lev_deque.h:93-103 | the reserved capacity is the first of capacity, twice, four times, ... with room for the request and the spare slot |
| ChaseLev.ReserveCovers | include/citor/detail/chase_lev_deque.h:89-117 | after reserving for k pushes, k pushes allocate nothing if and only if k is 0 or the current size plus k leaves a spare slot |
| ChaseLev.ReserveFallsShort | include/citor/detail/chase_lev_deque.h:89-96 | a fresh ring of any capacity filled but for the spare slot, as by 63 pushes into a ring of 64: reserving for one push does nothing and that push grows |
| Rings.CopiedSlot | include/citor/detail/chase_lev_deque.h:295-300 | copying positions t to b - 1 into any ring of sufficient size reproduces each of them at its logical index |
| Rings.SlotsApart | include/citor/detail/chase_lev_deque.h:235-259 | positions less than one capacity apart use different slots |
| Dispatch.JoinComplete | include/citor/thread_pool.h:5902-6357 | whenever the producer is between dispatches, in every run of a series in which what follows a stray is collapsible and does not reuse parameters, each participant's share of every dispatch so far has run exactly once, in dispatch order and with that dispatch's parameters |
| Dispatch.NeverTwice | include/citor/detail/dispatch_static.h:19-35 | at every moment of every such run no share has run twice, early, out of order or with other parameters, although producer and worker race for it |
| Dispatch.WorkerStepKeeps | include/citor/detail/worker_loop.h:142-253 | every worker step (poll, read, claim, run, stamp, late acknowledge), with the collapsible flag taken from the descriptor or cache it finds, keeps the bookkeeping between mailbox, claim word and share |
| Dispatch.WorkerStepParams | include/citor/detail/worker_loop.h:162-185 | a worker that may still run a share holds the parameters of its dispatch, and a worker that may be asked to reuse its cache has the right ones in it |
| Dispatch.PublishKeeps | include/citor/thread_pool.h:6005-6024 | overwriting the word of a worker that may be behind keeps the bookkeeping, unless an uncollapsible dispatch overtakes it |
| Dispatch.ProducerStepSound | include/citor/thread_pool.h:5949-6357 | every producer step (drain, write, point, publish, own share, join, collapse, stamp) keeps it for all workers |
| Dispatch.WaitEnds | include/citor/thread_pool.h:6219-6343 | in every run of a series in which what follows a stray is collapsible, whichever worker the producer waits for, at most 12 steps of that worker end the wait |
| Dispatch.WorkerAdvances | include/citor/detail/worker_loop.h:142-253 | each step of an unsettled worker brings it strictly closer to having dealt with its mailbox |
| Dispatch.ReadsAreRight | include/citor/detail/pool_control.h:77-84 | in every run of a series in which nothing follows a stray, a worker that is about to settle its parameters gets those of its dispatch, from descriptor or cache, while nobody writes them |
| DispatchStrays.DescriptorSafeIff | include/citor/thread_pool.h:5775-5815 | for any number of workers and any allowed series, reads are right in all runs if and only if nothing follows a stray |
| DispatchStrays.ExactlyOnceIff | include/citor/detail/worker_loop.h:162-201 | logs of executions are right at every moment of all runs if and only if what follows a stray is collapsible and does not reuse parameters |
| DispatchStrays.NeverDeadIff | include/citor/detail/worker_loop.h:210-251 | no run reaches a state inside a dispatch that nothing can change any more if and only if what follows a stray is collapsible |
| DispatchStrays.StrayRun | include/citor/thread_pool.h:6297-6308 | every stray can be played, on any number of workers: it leaves a worker behind whose acknowledgement hid the producer's stamp |
| DispatchStrays.JoinHangs | include/citor/detail/worker_loop.h:174-251 | an uncollapsible dispatch after a stray can be run by a worker for another dispatch, whose word then overwrites the new one, and the join never returns |
| DispatchStrays.FourDispatchesHang | include/citor/thread_pool.h:6297-6308 | loop, same loop, other loop, reduction: a legal run that ends with a wrong execution and a dead join |
| BlockShares.StaticBlocks | include/citor/detail/dispatch_static.h:57-71 | the strided loop hands out rank, rank + participants, ...: each block the rank owns once, and no other |
| BlockShares.StaticExactlyOnce | include/citor/detail/dispatch_static.h:57-71 | a block occurs once in the strided share of the rank that owns it and not at all in any other |
| BlockShares.ContiguousTiles | include/citor/detail/dispatch_static.h:378-394 | the contiguous spans tile the blocks and differ in size by at most one, the longer ones first |
| BlockShares.DynamicExactlyOnce | include/citor/detail/dispatch_static.h:77-106 | for any order of counter draws, once every rank has been told there is nothing left each block has been handed out exactly once |
| BlockShares.DrawHandsOutOrEnds | include/citor/detail/dispatch_static.h:77-106 | every call hands out a block nobody had or ends its rank, and a rank ends only when all blocks are handed out or reserved for ranks yet to start |
| BlockShares.DrawsEnd | include/citor/detail/dispatch_static.h:77-106 | in any order the ranks together call at most once per block and once more each |
| Lookback.PrefixIsScan | include/citor/detail/lookback_scan.h:65-117 | in every interleaving a published prefix is the in-order fold of everything before its tile for any associative combiner, and pass 2 turns local sums into the inclusive scan |
| Lookback.TotalIsFold | include/citor/thread_pool.h:4761-4763 | the value returned at the right edge is the fold of the whole input |
| Lookback.WalkStep | include/citor/detail/lookback_scan.h:80-117 | one look at a predecessor extends the sum leftwards correctly whether its prefix or only its aggregate is published |
| Lookback.WalkAlone | include/citor/detail/lookback_scan.h:80-117 | once the tiles a walk passes have published aggregates, it ends with the right prefix without a step of anybody else, at the nearest published prefix if there is one |
| Lookback.NeverBlocked | include/citor/thread_pool.h:4639-4711 | although a walk may reach tiles of an earlier cluster that nobody has claimed, an unfinished scan always has a step that is not a spin |
| Lookback.ClusterTiles | include/citor/thread_pool.h:4617-4632 | the shares of the clusters tile the tiles; each but the last gets the least whole number of tiles that is at least its part by workers, until the tiles run out; a cluster without workers gets none, not even as the last one |
| Lookback.RunsEnd | include/citor/thread_pool.h:4639-4711 | no run takes more non-spinning steps than the initial bound |
| PairwiseTree.PairwiseTreeCombine | include/citor/detail/reduce_tree.h:31-45 | the in-place tree returns the fixed-shape tree of the original partials, and for an associative combiner their left-to-right combination; the default value when empty |
| PairwiseTree.TreeSplits | include/citor/detail/reduce_tree.h:10-24 | for any combiner, associative or not: the largest power of two below the number of partials splits them, and the result is the trees of the two parts combined, left operand first |
| PairwiseTree.TreeIsJoined | include/citor/detail/reduce_tree.h:10-30 | for every number of partials and an associative combiner the result is the in-order combination, surplus elements included |
| PairwiseTree.TreeReduceIsFold | include/citor/detail/reduce_tree.h:10-30 | tree-combined block folds over any tiling equal the sequential fold |
| KnapsackItems.OptIsOptimum | benchmark/fork_join/forkjoin_knapsack_cancel_bench.cpp:89-108 | the take-or-skip recursion's value is the unique optimum over all subsets that fit |
| KnapsackItems.OptPermutation | benchmark/fork_join/forkjoin_knapsack_cancel_bench.cpp:278-284 | the optimum is the same for every rearrangement of the items |
| KnapsackDp.OptSnoc | benchmark/fork_join/forkjoin_knapsack_cancel_bench.cpp:95-106 | appending an item changes the optimum as one row of the table does |
| KnapsackDp.SeqDp | benchmark/fork_join/forkjoin_knapsack_cancel_bench.cpp:92-108 | the two-row dynamic program returns the optimum over all subsets |
| KnapsackBound.UpperBound | benchmark/fork_join/forkjoin_knapsack_cancel_bench.cpp:113-127 | the loop returns the current value plus the greedy fractional value of the remaining items |
| KnapsackBound.GreedyIsLinearOptimum | benchmark/fork_join/forkjoin_knapsack_cancel_bench.cpp:110-127 | on density-sorted items with positive weights the greedy value is attained by some fractional packing and exceeded by none |
| KnapsackBound.BoundDominates | benchmark/fork_join/forkjoin_knapsack_cancel_bench.cpp:110-127 | the bound is at least the value of every 0/1 completion |
| KnapsackBound.BoundMonotone | benchmark/fork_join/forkjoin_knapsack_cancel_bench.cpp:195-234 | the bound never rises from a node to its take or skip child |
| KnapsackBound.BoundSoundIff | benchmark/fork_join/forkjoin_knapsack_cancel_bench.cpp:110-127 | on density-sorted positive weights the bound is sound at every suffix and capacity if and only if no value is negative |
| KnapsackSearch.StartInvariant | benchmark/fork_join/forkjoin_knapsack_cancel_bench.cpp:246-254 | before any step the root alone can reach the optimum |
| KnapsackSearch.StepInvariant | benchmark/fork_join/forkjoin_knapsack_cancel_bench.cpp:153-235 | every step of any task, with stale reads and spurious failures, keeps: the larger of the running best and the best unfinished branch is the optimum; the best never falls and never exceeds it |
| KnapsackSearch.CompleteRunIsOptimal | benchmark/fork_join/forkjoin_knapsack_cancel_bench.cpp:153-259 | every complete run, cancellation on or off, ends with the optimum as running best |
| KnapsackSearch.SearchMeetsReference | benchmark/fork_join/forkjoin_knapsack_cancel_bench.cpp:278-290 | on any rearrangement of the reference's items every complete run equals the reference |
| KnapsackSearch.RunLength | benchmark/fork_join/forkjoin_knapsack_cancel_bench.cpp:153-235 | apart from failed swaps no run is longer than the cost of its start |
| KnapsackSearch.CanComplete | benchmark/fork_join/forkjoin_knapsack_cancel_bench.cpp:153-235 | every reachable state has a continuation that completes |
| KnapsackSearch.SwapResolves | benchmark/fork_join/forkjoin_knapsack_cancel_bench.cpp:169-175 | a swap of any task that fails for a reason means another task raised the best above what was expected; once the newest value is read, that task's next attempt can only fail spuriously |
| KnapsackSearch.EraseRun | benchmark/fork_join/forkjoin_knapsack_cancel_bench.cpp:164-191 | every run with cancellation on maps to a run with it off through the same values of the running best |
| KnapsackCancel.CancellationLaw | benchmark/fork_join/forkjoin_knapsack_cancel_bench.cpp:160-193 | in every complete run the stop flag is up if and only if cancellation is on and the running best once went from a positive value to one more than a hundredth larger; the firing counter is the number of entries that found the flag up |
| KnapsackCancel.PrunesIff | benchmark/fork_join/forkjoin_knapsack_cancel_bench.cpp:195-199 | a visit goes on to the children if and only if some fractional completion of its node beats the value it loaded |
| KnapsackCancel.ExpandsIntoChildren | benchmark/fork_join/forkjoin_knapsack_cancel_bench.cpp:208-234 | an expanded node starts its skip child and, if the item fits, its take child, once each; it forks exactly above the cutoff |
| KnapsackSerial.SearchState.SearchRec | benchmark/fork_join/forkjoin_knapsack_cancel_bench.cpp:153-235 | the serial recursion raises the best to exactly the larger of its old value and the node's best completion, keeps the account of stop flag and firings (`Accounted`: flag up if and only if a wide jump happened, counter equal to the entries that found it up) and counts its own entry; without cancellation the counters stay put |
| KnapsackSerial.SearchState.RaiseBest | benchmark/fork_join/forkjoin_knapsack_cancel_bench.cpp:168-193 | a leaf raises the best to the larger value and raises the stop flag if and only if cancellation is on and it improves a positive best by more than the margin |
| KnapsackSerial.RunOnce | benchmark/fork_join/forkjoin_knapsack_cancel_bench.cpp:246-259 | the driver's result is the optimum of the items in their original order |
| Matrices.StrassenIdentity | benchmark/fork_join/forkjoin_strassen_bench.cpp:387-402 | recombining the seven products gives the blocks of the matrix product, for every size |
| Matrices.ProductBlock | benchmark/fork_join/forkjoin_matmul_dac_bench.cpp:123-169 | a block of the product is the sum of the two products of the matching operand blocks |
| Buffers.QuadrantView | benchmark/fork_join/forkjoin_strassen_bench.cpp:212-221 | the strided quadrant of a view shows the matching block of its matrix |
| Buffers.QuadrantsApart | benchmark/fork_join/forkjoin_strassen_bench.cpp:212-221 | different quadrants of one view share no cell |
| Buffers.AddInto | benchmark/fork_join/forkjoin_strassen_bench.cpp:146-157 | the destination view becomes the sum; no other cell of memory changes |
| Buffers.SubInto | benchmark/fork_join/forkjoin_strassen_bench.cpp:159-169 | the destination view becomes the difference; no other cell changes |
| Buffers.AddEq | benchmark/fork_join/forkjoin_strassen_bench.cpp:171-180 | the destination view gains the source; no other cell changes |
| Buffers.SubEq | benchmark/fork_join/forkjoin_strassen_bench.cpp:182-191 | the destination view loses the source; no other cell changes |
| Buffers.LeafMultiply | benchmark/fork_join/forkjoin_matmul_dac_bench.cpp:92-112 | the leaf leaves the product, on top of the old contents when accumulating, and changes nothing outside its window |
| MatmulDac.Phase | benchmark/fork_join/forkjoin_matmul_dac_bench.cpp:129-169 | four products in any order leave each quadrant with its contribution and nothing else changed |
| MatmulDac.MatmulRec | benchmark/fork_join/forkjoin_matmul_dac_bench.cpp:116-170 | for sizes that halve evenly to the cutoff, every cell of R is its old value (if accumulating, else 0) plus the row-column sum; on any other size one cell keeps its old value; cells outside the window are unchanged |
| MatmulDac.RightSizes | benchmark/fork_join/forkjoin_matmul_dac_bench.cpp:116-128 | sizes that halve evenly to the cutoff always come out right, and on every other size some operands always come out wrong |
| MatmulDac.TwoPhasesMultiply | benchmark/fork_join/forkjoin_matmul_dac_bench.cpp:129-169 | an overwrite phase followed by an accumulate phase gives the whole product |
| Strassen.ChildSliceInside | benchmark/fork_join/forkjoin_strassen_bench.cpp:238-256 | every child's scratch slice lies between the level's 17 buffers and the end of the budget, the last one exactly at its end |
| Strassen.SiblingSlicesDisjoint | benchmark/fork_join/forkjoin_strassen_bench.cpp:359-372 | slices of concurrent siblings do not overlap |
| Strassen.OperandsStillThere | benchmark/fork_join/forkjoin_strassen_bench.cpp:374-385 | whatever products are done, in any order and with reused scratch, the operands of the others are intact |
| Strassen.ChildCallOk | benchmark/fork_join/forkjoin_strassen_bench.cpp:356-385 | each sub-product's result, operands and scratch slice meet the recursion's own requirements |
| Strassen.StrassenRec | benchmark/fork_join/forkjoin_strassen_bench.cpp:286-403 | for every size, parallel depth and product order only c and its scratch slice change; if the size halves evenly to the cutoff, c becomes exactly the product of a and b, else a cell of c is left zero, whatever the operands, when the cells nobody writes were zero |
| Strassen.RightSizes | benchmark/fork_join/forkjoin_strassen_bench.cpp:286-296 | sizes that halve evenly to the cutoff come out right in every legal call, and every other size comes out wrong on some operands |
| Buffers.HalvesPowers | benchmark/fork_join/forkjoin_strassen_bench.cpp:286-296 | the cutoff times any power of two halves evenly to the cutoff |
| Strassen.Multiply | benchmark/fork_join/forkjoin_strassen_bench.cpp:238-256 | for every size that halves evenly to the cutoff an arena of exactly the budget suffices; both inputs survive |
| Merging.SeqMerge | benchmark/fork_join/forkjoin_cilksort_bench.cpp:111-133 | writes the merge of the two runs at the offset, returns its length and leaves the rest of the destination alone |
| Merging.MergeIsSort | benchmark/fork_join/forkjoin_cilksort_bench.cpp:111-133 | the merge of sorted runs is a sorted permutation of both |
| Merging.MergeCut | benchmark/fork_join/forkjoin_cilksort_bench.cpp:146-201 | cutting both runs where nothing on the left exceeds anything on the right cuts their merge |
| Merging.LowerBound | benchmark/fork_join/forkjoin_cilksort_bench.cpp:195-200 | binary search splits the run into elements below the key and elements not below it |
| BucketMerging.ChooseCuts | benchmark/fork_join/forkjoin_cilksort_bench.cpp:173-220 | the splitters tile both runs, in bounds and monotone, with everything left of a cut at most everything right of it, duplicates included; the parts of the larger run differ in size by at most one |
| BucketMerging.BucketOffsets | benchmark/fork_join/forkjoin_cilksort_bench.cpp:225-256 | scanned offsets are the number of elements before each bucket |
| BucketMerging.BucketStep | benchmark/fork_join/forkjoin_cilksort_bench.cpp:319-334 | merging one more bucket, whichever it is, disturbs no finished one and stays inside the output |
| BucketMerging.ParallelMerge | benchmark/fork_join/forkjoin_cilksort_bench.cpp:146-334 | for every bucket order the output is the merge of the two runs, and nothing else in the destination changes |
| BucketMerging.SerialMerge | benchmark/harness/libfork_runners.cpp:780-823 | the running-offset form writes the same array |
| Scan.ScanBody | benchmark/fork_join/forkjoin_cilksort_bench.cpp:231-250 | the body writes running sums from its initial value and returns the chunk's sum |
| Scan.ParallelScan | README.md:466-482 | for any chunking and any chunk order in each pass the offsets end as the exclusive prefix sums and the total is returned; pass 1 leaves no trace |
| Cilksort.SortByHalves | benchmark/fork_join/forkjoin_cilksort_bench.cpp:408-428 | merging two sorted halves gives the sorted whole |
| Cilksort.SortHalves | benchmark/fork_join/forkjoin_cilksort_bench.cpp:417-419 | the two recursive sorts commute: either order leaves both halves sorted and nothing else touched |
| Cilksort.CilksortRec | benchmark/fork_join/forkjoin_cilksort_bench.cpp:408-428 | the slice becomes the sorted arrangement of its old contents; both buffers are unchanged outside it |
| Words.IncrementWraps | benchmark/fork_join/fork_join_bench.cpp:180-180 | the ripple increment adds one modulo the word's range |
| Words.DecrementOneBit | benchmark/fork_join/fork_join_bench.cpp:178-178 | (1 << n) - 1 has exactly the bits below n |
| Words.LowestIsOneBit | benchmark/fork_join/fork_join_bench.cpp:180-180 | bits & (~bits + 1) is the lowest set bit alone |
| Words.ClearLowest | benchmark/fork_join/fork_join_bench.cpp:180-181 | the exclusive or removes that bit and no other, and the loop runs out |
| Placements.CompletionsExact | benchmark/fork_join/fork_join_bench.cpp:171-191 | the enumerated completions of a placement are exactly the full boards of mutually non-attacking queens that extend it |
| Queens.MarksNext | benchmark/fork_join/fork_join_bench.cpp:182-183 | the shifted masks mark exactly the attacked columns of the next row |
| Queens.FreeIsSafe | benchmark/fork_join/fork_join_bench.cpp:177-178 | a column is free in the masks if and only if a queen there attacks no other |
| Queens.SeqQueensRec | benchmark/fork_join/fork_join_bench.cpp:171-185 | the walker adds exactly the number of completions of its partial placement |
| Queens.SeqQueens | benchmark/fork_join/fork_join_bench.cpp:187-191 | for n below 64 the count is the number of non-attacking placements |
| Queens.ExpandFrontier | benchmark/fork_join/fork_join_bench.cpp:208-222 | expanding the frontier by a row conserves the total number of completions |
| Queens.Walk | benchmark/fork_join/fork_join_bench.cpp:229-240 | the bisected walk writes every root's count into its own partial, halves in either order, and no other partial |
| Queens.ParQueens | benchmark/fork_join/fork_join_bench.cpp:193-248 | the parallel count is the sequential one if the root depth is at most n, else 0; so the two agree if and only if the root depth is at most n or n is 2 or 3; for a root depth of 2, if and only if n is at least 2 |
| Placements.SolvableIff | benchmark/fork_join/fork_join_bench.cpp:171-191 | there is a placement of n peaceful queens for every n except 2 and 3 |
| Jacobi.JacobiRowBlock | benchmark/run_plex/runplex_heat_bench.cpp:106-118 | exactly the interior cells of the given rows are updated, from the input buffer |
| Jacobi.Sweep | benchmark/run_plex/runplex_heat_bench.cpp:148-159 | one step over any tiling in any block order updates every interior row once |
| Jacobi.HeatRun | benchmark/run_plex/runplex_heat_bench.cpp:145-161 | for any tilings and orders the run ends with the grid the update defines, for one step with the plain step of the initial grid; both buffers keep the initial boundary |
| Jacobi.SeqJacobi | benchmark/run_plex/runplex_heat_bench.cpp:75-103 | the reference ends with the same grid, and for one step with the plain step of the initial grid |
| Jacobi.HoldsIffSteps | benchmark/run_plex/runplex_heat_bench.cpp:77-94 | what a run of t steps leaves is the buffer that t plain steps lead to and no other; a plain step replaces every cell off the four edges by the update of its neighbours and keeps the edges |
| Jacobi.GridSteps | benchmark/run_plex/runplex_heat_bench.cpp:106-118 | off the edges the next grid is the update of the four neighbours, on the edges it is the initial grid |
| Jacobi.SameGrid | benchmark/run_plex/runplex_heat_bench.cpp:162-175 | buffers holding the same step are equal, so the checksums are |
| Jacobi.MaximumPrinciple | benchmark/run_plex/runplex_heat_bench.cpp:86-94 | over exact reals no cell ever leaves the range of the initial grid |
| Jacobi.SteadyState | benchmark/run_plex/runplex_heat_bench.cpp:86-94 | grids of linear and saddle-shaped temperature never change: each neighbour counts a quarter |
| CeilingBlocks.BlocksTile | benchmark/competitor_traits/competitor_traits.h:315-330 | without overflow the blocks tile the range in ascending order |
| CeilingBlocks.LengthIsLeast | benchmark/competitor_traits/competitor_traits.h:315-330 | without overflow the block length is the least with which the blocks cover the range |
| CeilingBlocks.TilesExactly | benchmark/competitor_traits/competitor_traits.h:315-337 | in 64-bit arithmetic the blocks tile a non-empty range if and only if span + blocks - 1 does not overflow |
| CeilingBlocks.ReversedRange | benchmark/competitor_traits/competitor_traits.h:346-360 | on a reversed range some block of the unguarded reduction is non-empty if and only if the block count is at most the reversal |
| Reduce.ParallelReduce | benchmark/competitor_traits/competitor_traits.h:346-375 | on a proper range the indexed reduction is the sequential fold for any associative combiner with identity, unless the block arithmetic overflows, when the identity comes back |
| Folds.MergeIsFold | benchmark/competitor_traits/competitor_traits.h:370-374 | merging block folds in index order over any tiling is the sequential fold |
| Folds.FoldLists | benchmark/competitor_traits/competitor_traits.h:346-375 | a fold visits every index of the range once, in ascending order |
| Reduce.ArrivalReduce | benchmark/competitor_traits/competitor_traits.h:183-212 | for every interleaving of slot draws and writes, and every cut into at most as many blocks as slots, each block owns one slot, the others keep the identity, and the result is the merge in arrival order; for a commutative combiner, the sequential fold; the identity on an empty or reversed range or without participants |
| Reduce.ArrivalIsFold | benchmark/competitor_traits/competitor_traits.h:183-212 | for a commutative combiner any arrival order gives the sequential fold |
| Reduce.ArrivalRightIff | benchmark/competitor_traits/competitor_traits.h:192-212 | for an associative combiner with identity: any arrival order over any tiling of any values gives the fold if and only if the combiner commutes |
| Sha1Standard.PaddingInjective | benchmark/fork_join/forkjoin_uts_bench.cpp:133-153 | different messages have different paddings |
| Sha1Vectors.AbcDigest | benchmark/fork_join/forkjoin_uts_bench.cpp:122-160 | the digest of the message abc as its twenty bytes |
| Sha1Vectors.LettersDigest | benchmark/fork_join/forkjoin_uts_bench.cpp:122-160 | the digest of the 56-byte message abcdbcde...nopq, whose padding needs a second block, as its twenty bytes |
| Sha1Laws.ScheduleBits | benchmark/fork_join/forkjoin_uts_bench.cpp:80-82 | bit (i + 1) mod 32 of word t of the schedule is bit i of the exclusive or of words t-3, t-8, t-14 and t-16 |
| Sha1Laws.LoadedWord | benchmark/fork_join/forkjoin_uts_bench.cpp:74-79 | the first sixteen words are the bytes of the block, four to a word, most significant first |
| Sha1Laws.RoundFunctionBits | benchmark/fork_join/forkjoin_uts_bench.cpp:89-104 | bit by bit: rounds 0 to 19 choose by the first word, 40 to 59 take the majority, the others the parity |
| Sha1Laws.ConstantsAreRoots | benchmark/fork_join/forkjoin_uts_bench.cpp:92-103 | the round constants are the square roots of 2, 3, 5 and 10 times 2^30, rounded down |
| Sha1Streaming.Sha1Compress | benchmark/fork_join/forkjoin_uts_bench.cpp:71-116 | the compression of the code, with its or-forms of choose and majority, is step 1 to 4 of section 6.1.2 of FIPS 180-4 |
| Sha1Streaming.FinishBlocks | benchmark/fork_join/forkjoin_uts_bench.cpp:133-153 | the final one or two blocks are the rest of the message with the padding of section 5.1.1, for every remainder |
| Sha1Streaming.Sha1Compute | benchmark/fork_join/forkjoin_uts_bench.cpp:122-160 | for every message below 2^61 bytes the digest is SHA-1 of the message |
| IncludeGraph.ParseIncludes | tools/amalgamate.py:60-90 | the pass returns, in order, the includes at conditional depth 0; by `ProjectsIff` and `SystemsIff`, those no conditional encloses |
| IncludeGraph.DepthIffEnclosed | tools/amalgamate.py:73-81 | the depth is positive if and only if some conditional above the line is still open: one from which on more have always been opened than closed |
| IncludeGraph.ProjectsIff | tools/amalgamate.py:80-85 | a project include is followed if and only if it stands outside every conditional |
| IncludeGraph.SystemsIff | tools/amalgamate.py:80-89 | a system include is collected if and only if it stands outside every conditional |
| IncludeGraph.ProjectsInOrder | tools/amalgamate.py:82-85 | an outer project include comes right after those of the lines above it |
| IncludeGraph.KeptIff | tools/amalgamate.py:101-117 | a body loses the guard line, every project include and the system includes outside conditionals, and nothing else |
| IncludeGraph.StripLines | tools/amalgamate.py:93-118 | the pass returns the body: the kept lines in order |
| HeaderWalk.Walk.Dfs | tools/amalgamate.py:121-138 | the walk ends on any graph, lists each header after its includes unless they lie on a cycle with it, collects exactly the visited headers' system includes, and fails only for a reachable missing header; includes are walked in source order |
| HeaderWalk.Walk.DfsAll | tools/amalgamate.py:134-137 | the includes of a header are walked in source order: one that neither the walk so far nor an earlier include reaches is listed after the earlier ones |
| HeaderWalk.Walk.WalkEntries | tools/amalgamate.py:210-214 | from all entries the list is exactly the reachable headers, each once, an entry that no earlier one reaches after the earlier ones; the walk fails if and only if one of them is missing |
| HeaderWalk.TopologicalIffAcyclic | tools/amalgamate.py:121-138 | the finished list is in dependency order if and only if the reachable includes have no cycle |
| NameOrder.SortSystemIncludes | tools/amalgamate.py:149-155 | C headers and the others, each strictly ascending and complete |
| NameOrder.AscendingUnique | tools/amalgamate.py:149-155 | a strictly ascending list is determined by its elements, so the output does not depend on set order |
| NameOrder.BeforeIff | tools/amalgamate.py:149-155 | one name sorts before another if and only if, after a common beginning, it ends or has the smaller character |
| NameOrder.CHeaderIff | tools/amalgamate.py:149-155 | the C headers are the names that end in .h |
| Amalgamate.Render | tools/amalgamate.py:158-192 | read back at its marks the output is the listed headers in order, each with its body; before them all stand exactly the collected includes, each once, C headers first, both groups ascending |
| Amalgamate.BodyIsFilter | tools/amalgamate.py:93-118 | a body is its source at the kept positions |
| Amalgamate.EveryLineAccounted | tools/amalgamate.py:60-118 | every line of a reachable header is in the output, is the guard line, is an outer include of a merged header, is an outer system include in the prologue, or is a guarded project include; a guarded system include stays in the body and is in the prologue only if some header also has it outside |
| Amalgamate.DroppedAreParsed | tools/amalgamate.py:60-118 | the project includes dropped from a body are the ones the walk follows if and only if none is inside a conditional |
| Amalgamate.GuardedIncludeLost | tools/amalgamate.py:80-85 | a two-header tree whose guarded include is dropped and never merged |
| Amalgamate.Generate | tools/amalgamate.py:195-220 | the whole generation: success if and only if no reachable header is missing; then every reachable header's mark and body once, in walk order, behind a prologue of exactly the system includes that some listed header has outside every conditional, each once, C headers first, both groups ascending |

## Left out

- C++ memory ordering beyond stale values of the search's running best: the deque, the mailboxes and the lookback scan are sequentially consistent step systems, so the fences and acquire/release pairs that justify this are not modelled.
- Parking, futex wake-ups and chain wakes, shutdown and low-latency scopes: in `Dispatch` a parked worker is one that takes no step.
- Dispatch.JoinComplete: a worker reads pointer and fields of a descriptor in one step, so a read torn between two dispatches is not followed; where nothing follows a stray there is none. Which dispatches are given reused parameters or skip the claim is free within what the engine allows, and calls of several producers are taken one after the other.
- Dispatch.WaitEnds: counts the worker's own steps; that a worker with steps to take is eventually scheduled is assumed.
- Fork-join over the deque (`forkJoin` task accounting), `parallelChain`, `runPlex`, pool groups, coroutines, cancellation deadlines and exception capture.
- Lookback.NeverBlocked: the identity prefixes published after an exception are not modelled.
- Floating point: matrices are over exact integers, the fractional bound and the heat average over exact reals; rounding, Kahan sums and tolerances are out.
- 32-bit overflow of knapsack values and weights and of the N-queens counter; queens boards of 64 rows or more, where the source's shift is undefined.
- The operand buffers of the multiplications are windows of one flat memory rather than separate allocations.
- `std::sort`, `std::lower_bound` and Python's `sorted` have bodies of the model's own; the density sort's floating-point comparison is an order on exact products.
- Sha1Streaming.Sha1Compute: messages of 2^61 bytes and more, which the standard does not cover.
- Bytes are integers below 256; that four bytes of a word read back as the word is not proved.
- Amalgamate.Render: banner text, the version line and trailing blank lines, and the regular expressions that classify lines.
- Jacobi.HeatRun: grids of fewer than two rows, and the seeded fill.
- Benchmark timing, tables, host probes, registries, adapters to other libraries, and the closed-form and random-tree benchmarks.
