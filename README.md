# Round-based k-way merge of startop-sort, in Dafny

The program is meant to sort `K*N` integers with `K` worker threads and one
master thread. As written, it sorts only some inputs (see below). Each worker holds `N` elements, sorts them, and then takes part in
rounds separated by two barriers:

- it posts the head of its partition into its slot of the master's
  candidate buffer;
- the master picks the first minimum, records its index, copies the minimum
  into slot 0 and advances the global round counter;
- the winning worker erases its head, and the worker whose output block
  holds the new round number appends slot 0 to its output;
- a worker whose output has just reached 100 elements in its own block
  counts itself done.

A worker whose partition is empty leaves its main loop. It lowers the
running-worker count, parks `INT_MAX` in its slot, and from then on only
keeps the barriers company. The master stops after `K*N` rounds.

The model treats one round as one atomic step: every worker posts, then the
master arbitrates, then every worker consumes. For workers inside their main
loop, this is the order the two barriers impose. The exit path of a worker
whose partition runs out is not ordered against the master's lock-free poll,
and the model fixes one schedule for it (see "## Left out"). `K` and `N` are
parameters (`Config`).

- `elements.dfy` (`Elements`): the element type (`Int32`, a C++ `int`), the
  `INT_MAX` sentinel, and the sequence and multiset helpers the properties
  are stated with.
- `merge_state.dfy` (`MergeState`): the shared state as a value, and each
  phase of a round as a function built one worker at a time. `PostOne` and
  `PostUpTo` model posting, `Arbitration` models the master, and
  `ConsumeOne` and `ConsumeUpTo` model popping, appending and the
  completion check. On top of these, `RoundStep` is one round and `Rounds`
  is a run.
- `master_node.dfy` (`MasterNode`): the program's own imperative shape. The
  class `MergeRun` has the candidate buffer as an array, the counters, and
  the partitions and outputs as fields. It has a method per worker step,
  loops over the workers for each phase, `Round`, and the master's loop
  `Run` up to `K*N`. Each method is proved to leave exactly the state the
  matching `MergeState` function describes.
- `merge_properties.dfy` (`MergeProperties`): what a round and a run
  guarantee.

### Two quirks kept as written

Two behaviours of the program are modelled as written.

- **The completion check uses the literal 100, not `N`** (`ReportSize`).
- **Slot 0 is overwritten every round** by the broadcast of the minimum.
  Worker 0 refreshes that slot only while it is in its loop. After worker 0
  leaves its loop, slot 0 keeps the previous round's minimum, and no real
  head undercuts it. From then on the master picks worker 0 every round:
  nobody pops, and the same value is handed out again
  (`ExitedWorkerZeroRepeatsMinimum`).

In the atomic schedule, sortedness of the outputs needs no assumption
beyond sorted partitions (`RunOutputSorted`). The stale value only repeats
the previous minimum.

Conservation and full blocks need more. The model states them under the
hypothesis `LiveRound` for every round: the selected slot belongs to a worker
still in its loop, and the owner of the round's output block is still in its
loop. `MergeSortsInput` is the resulting end-to-end statement.

Examples of how `LiveRound` fails:

- Worker 0 leaves before the last round, so the stale slot 0 wins. This is
  not a corner case. Take `K >= 2` and distinct elements below `INT_MAX`.
  If worker 0 holds neither of the two largest elements, it leaves its loop
  at least two rounds before the end, and its stale slot wins the next
  round. Indeed, `LiveRound` in all `K*N` rounds then needs worker `K-1`
  to hold the largest element, because it owns the last block, and worker
  0 to hold the second largest. For `K = 2`, `N = 2` and partitions
  `[1,2]` and `[3,4]`, the run ends with outputs `[1,2]` and `[3,3]`: 3 is
  handed out twice, and 4 is never output (`SmallRunLosesLargest`).
- A worker leaves its loop before its own block ends, so it appends nothing.
- A real element equal to `INT_MAX` ties with the parked `INT_MAX` of a
  lower-numbered worker that has left, and the parked slot wins the tie
  (`K = 2`, `N = 1`, partitions `[1]` and `[INT_MAX]`).

Under `LiveRound` in every round, each worker wins exactly as many rounds as
its partition holds (`WinsMatchPartitions`). With `N = 100`, the done
counter reaches `K` exactly in round `K*N` and not before
(`DoneCountReachesK`).

### Behaviour worth knowing (the model follows the code)

- A worker whose partition is empty lowers `running_nodes_`, stores
  `INT_MAX` in its slot once, and from then on only waits at the barriers
  (main.cpp:112-124). It never raises `pushed_elements_` again. The master
  arbitrates once `pushed_elements_` equals `running_nodes_` (main.cpp:147).
- `thread_mask` is computed after the first barrier, from the round counter
  the master has already incremented (main.cpp:87). So round `r` (counter
  value `r` after arbitration) feeds the block of worker `(r-1)/N`.
- The append takes slot 0 after the broadcast and pushes it onto the
  output with no check of the output's length (main.cpp:91).
- The completion check compares the output's size with the literal 100
  (main.cpp:98). `g_threads_done` is modelled as a plain counter
  (`reported`). With `N < 100` it never moves.

## Model

| member | source | states |
|---|---|---|
| MergeState.Initial | main.cpp:164-179 | The start of a run: every worker is in its loop and holds its partition, every output is empty, all `K` workers are running, the round counter and the done counter are 0, and the state is well formed. |
| MergeState.ArgMinIsFirstMinimum | main.cpp:150-151 | The index `std::min_element` returns holds a value no greater than any slot and strictly smaller than every slot before it, so ties go to the lowest worker. |
| MergeState.FirstMinimumIsArgMin | main.cpp:150-151 | Conversely, the first position of the minimum is the index the scan returns. |
| MergeState.ArgMin | main.cpp:150-151 | The index `std::min_element` returns lies inside the buffer. `ArgMinIsFirstMinimum` and `FirstMinimumIsArgMin` characterise it as the first minimum. |
| MergeState.Arbitration | main.cpp:147-156 | The master's step advances the round counter by one and resets the post counter. It leaves partitions, outputs, loop flags, the running count and the done count unchanged. |
| MergeState.ArbitrationPicksMinimum | main.cpp:150-152 | After arbitration, slot 0 holds the winner's old slot. That value is at most every slot and strictly below every slot before the winner. Every slot other than 0 is unchanged. |
| MergeState.Candidate | main.cpp:76-117 | What slot `i` holds after posting. A worker in its loop with a non-empty partition posts an element of it, and over a sorted partition that element is at most everything in it. |
| MergeState.PostOne | main.cpp:73-118 | One worker's posting step keeps the state's shape. Its effect on slots, loop flags and counters is stated for the whole phase by `PostUpToSlots`, `PostUpToLive` and `PostUpToCounts`. |
| MergeState.PostUpTo | main.cpp:73-118 | Posting by workers `0..m-1` changes no partition, output, round counter, winner or done counter. |
| MergeState.PostUpToRunning | main.cpp:112-114 | A worker that leaves its loop is still counted in `running_nodes_` when it decrements it, so the count never goes below zero. |
| MergeState.PostUpToLive | main.cpp:73 | After workers `0..m-1` have posted, those workers are still in their loop exactly when their partition was not empty. The other workers keep their flag. |
| MergeState.PostUpToSlots | main.cpp:73-78 | After workers `0..m-1` have posted, each of their slots holds the head of its partition, `INT_MAX` if the worker just left its loop, or the old value if it had left earlier. The other slots are unchanged. |
| MergeState.PostUpToCounts | main.cpp:77 | The post counter rises by the number of posting workers. The running count falls by the number of workers that leave their loop. |
| MergeState.PostAll | main.cpp:147 | After every worker's posting step the master's poll condition `running_nodes_ == pushed_elements_` holds. Partitions, outputs, the round and the done count are unchanged. |
| MergeState.PostAllPosted | main.cpp:73-78 | After posting, every worker still in its loop has a non-empty partition whose head is in its slot. Every worker that has left has an empty partition. The running count is the number of workers in their loop. |
| MergeState.PostAllFields | main.cpp:112-118 | After posting, the slots and loop flags are exactly each worker's candidate and activity. The post counter and the running count both equal the number of active workers. |
| MergeState.InBlock | main.cpp:87 | A round in a worker's block is at least 1 and no later than the end of that block. `ThreadMask` ties it to the product test. |
| MergeState.BlockStartIsProduct | main.cpp:87 | Block `i` starts after round `i*N`. |
| MergeState.BlockStartMono | main.cpp:87 | A later block starts no earlier than an earlier block ends. |
| MergeState.ThreadMask | main.cpp:87 | `InBlock(i, r, N)` is exactly `i*N + 1 <= r <= (i+1)*N`, the test the worker spells out. |
| MergeState.BlockOwnerUnique | main.cpp:87 | No round lies in two workers' blocks. |
| MergeState.BlockOwner | main.cpp:87 | Every round `1..K*N` lies in exactly one worker's block. |
| MergeState.NoOwnerPastEnd | main.cpp:87 | A round past `K*N` lies in no block. |
| MergeState.BlockOwnerIsQuotient | main.cpp:87 | Worker `i` has `thread_mask` in round `r` exactly when `r >= 1` and `i == (r-1)/N`. So round 0 belongs to nobody. |
| MergeState.Popped | main.cpp:82-85 | A worker's partition after the pop is unchanged or loses exactly its head. It shrinks exactly when the worker is in its loop and is the winner. |
| MergeState.Appended | main.cpp:87-92 | A worker's output after the append is the old output with at most one element added at the end. An added element is slot 0 and is added only in a round of the worker's block. |
| MergeState.PassesCheck | main.cpp:97-98 | A worker passes the check only while in its loop, in a round of its block, and when its output held 99 elements before the append. `ReportsWhen` gives the converse. |
| MergeState.ConsumeOne | main.cpp:82-109 | One worker's consuming step keeps the state's shape. It changes only that worker's partition and output and the done counter, as `ConsumeUpToFields` states for the whole phase. |
| MergeState.ConsumeUpToFields | main.cpp:82-103 | After workers `0..m-1` have consumed, each has popped its head if it was the winner and still in its loop, and has appended slot 0 if the round is in its block. The done counter has risen by the number of those workers passing the 100-element check. |
| MergeState.ConsumeUpTo | main.cpp:82-95 | The consuming steps leave the candidate buffer, winner, loop flags, round counter, post counter and running count unchanged. |
| MergeState.RoundStep | main.cpp:73-118 | One round keeps the state well formed and advances the round counter by exactly one. |
| MergeState.RoundFields | main.cpp:73-109 | A round's effect field by field: the posting phase, then arbitration, then each worker's pop, append and check, with the done counter rising by the number of workers passing the check. |
| MergeState.Rounds | main.cpp:145-158 | `m` rounds keep the state well formed and advance the round counter by exactly `m`. |
| MasterNode.MergeRun.constructor | main.cpp:30-41 | The object's state is `Initial` for the given partitions: zeroed buffer, `K` running workers, no posts, winner 0. The constructor does not set `thread_index_`, but `g_master_node` has static storage, so it starts zero-initialised, which is the model's 0. |
| MasterNode.SortedRun | main.cpp:164-188 | The whole program on sorted partitions, through `MergeRun`'s constructor and `Run`: under `LiveRound` in every round, the outputs read block after block are sorted and are the input's elements, each output holds `N` elements, and every partition is used up. |
| MasterNode.MergeRun.PostCandidate | main.cpp:73-78 | Worker `i`'s posting step updates the buffer array and the fields exactly as `PostOne` says. |
| MasterNode.MergeRun.PostPhase | main.cpp:73-80 | The loop over the workers leaves the state `PostAll` describes. |
| MasterNode.MergeRun.Arbitrate | main.cpp:149-156 | The master's step in place equals `Arbitration`: first minimum, broadcast into slot 0, post counter reset, round counter incremented. |
| MasterNode.MergeRun.ConsumeRound | main.cpp:82-109 | Worker `i`'s pop, its product-form `thread_mask`, its append and its literal-100 check leave exactly the state `ConsumeOne` describes. |
| MasterNode.MergeRun.ConsumePhase | main.cpp:82-95 | The loop over the workers leaves the state `ConsumeUpTo` describes. |
| MasterNode.MergeRun.Round | main.cpp:145-158 | One round in place equals `RoundStep` and keeps the object valid. |
| MasterNode.MergeRun.Run | main.cpp:145-159 | The master's loop ends with the round counter equal to `K*N`. The state is then the one `Rounds` gives after the remaining rounds. |
| MergeProperties.RoundPopsOnlyWinner | main.cpp:82-85 | Only the winner's partition changes, and only if the winner is still in its loop. It loses exactly its head, which equals the broadcast minimum. A winner that has left pops nothing. Sorted partitions stay sorted and stay above the minimum. |
| MergeProperties.RoundAppendsMinimum | main.cpp:87-92 | A worker's output grows by slot 0 exactly when the worker is in its loop and owns the round's block. Every other output is unchanged, so at most one output changes per round. |
| MergeProperties.RoundKeepsUnfilled | main.cpp:87-92 | Blocks that start at or after the current round stay empty. |
| MergeProperties.OutputsGrow | main.cpp:87-92 | On plain sequences: when at most the block's owner appends, the concatenated outputs grow by the appended value or not at all. They grow whenever the owner is active. |
| MergeProperties.RoundOutputs | main.cpp:87-92 | A round appends the round's minimum to the concatenated outputs or leaves them alone. It appends whenever the round's block owner is in its loop. |
| MergeProperties.PostedAbovePrevious | main.cpp:150-152 | Every slot the master scans is at least the previous round's minimum. |
| MergeProperties.RoundMinimumAbove | main.cpp:150-152 | Each round's minimum is at least the previous round's minimum and at least everything already output. |
| MergeProperties.RoundParkedAbove | main.cpp:117 | The slot of a worker that has left its loop is never below the round's minimum. |
| MergeProperties.RoundPreservesOrdered | main.cpp:72-92 | One round keeps the ordering invariant: partitions sorted, concatenated outputs sorted and below slot 0, slot 0 below all remaining elements and parked slots. It also keeps the round minima non-decreasing. |
| MergeProperties.RunOrdered | main.cpp:145-158 | Starting from sorted partitions, the ordering invariant holds after any number of rounds. |
| MergeProperties.RoundMinimaNonDecreasing | main.cpp:150-152 | From sorted partitions, the minimum of each round from round 1 on is at most the next round's minimum. |
| MergeProperties.RunOutputSorted | main.cpp:88-92 | After any number of rounds, the concatenated outputs are sorted. Each block is sorted, and everything in an earlier block is at most everything in a later block. |
| MergeProperties.ExitedWorkerZeroRepeatsMinimum | main.cpp:152 | Once worker 0 has left its loop, the master picks worker 0 again, slot 0 keeps the previous minimum, and no partition changes. |
| MergeProperties.ProgressStep | main.cpp:87-92 | One round adds at most one element to worker `i`'s output, and only within its block. It adds exactly one there when the worker is in its loop. |
| MergeProperties.OutputBound | main.cpp:87-92 | Worker `i`'s output never holds more elements than the rounds of its block seen so far, so never more than `N`. |
| MergeProperties.OutputLength | main.cpp:87-92 | If worker `i` stays in its loop through its block, its output holds exactly as many elements as rounds of its block have passed. It holds `N` from round `(i+1)*N` on. |
| MergeProperties.ReportsWhen | main.cpp:97-98 | Worker `i` passes the completion check in a round exactly when it is in its loop, the round is in its block, and its output then holds 100 elements. |
| MergeProperties.BlockRoundLength | main.cpp:87-92 | In round `r+1` of its block, a worker that has stayed in its loop appends its `(r+1 - i*N)`-th element. |
| MergeProperties.ReportRound | main.cpp:97-103 | A worker active through its block passes the check exactly once: in the round that ends with counter `i*N + 100`. It never passes if `N < 100`. |
| MergeProperties.ReportRoundAtBlockEnd | main.cpp:97-103 | With `N = 100`, that round is the one ending with counter `(i+1)*N`, the last round of the worker's block. |
| MergeProperties.RunOutputsShort | main.cpp:98 | With `N < 100`, no output ever holds 100 elements. |
| MergeProperties.RoundReportsNone | main.cpp:97-103 | A round in which no output reaches 100 elements leaves `g_threads_done` unchanged. |
| MergeProperties.NoReportBelowHundred | main.cpp:97-103 | With `N < 100`, `g_threads_done` stays 0 forever. |
| MergeProperties.RoundConserves | main.cpp:82-92 | In a `LiveRound`, the popped element moves from the partitions to the outputs: the multiset of partitions plus outputs is unchanged, and the outputs grow by one. |
| MergeProperties.RunUnfilled | main.cpp:87 | From a start state, blocks that start at or after the current round are empty. |
| MergeProperties.RunConserves | main.cpp:145-158 | Over `r` `LiveRound` rounds, partitions plus outputs keep the starting multiset, and the outputs hold `r` elements. |
| MergeProperties.RunUsesInput | main.cpp:145-158 | After `K*N` `LiveRound` rounds, every partition is empty and the outputs hold exactly the starting elements. |
| MergeProperties.RunFillsBlocks | main.cpp:145-158 | After `K*N` `LiveRound` rounds, every output holds exactly `N` elements. |
| MergeProperties.RunEnd | main.cpp:145-158 | After `K*N` `LiveRound` rounds, the outputs are sorted, are a permutation of the start's elements, and are `N` long each. Every partition is empty. |
| MergeProperties.MergeSortsInput | main.cpp:164-185 | End to end, from the initial state over sorted partitions with `LiveRound` in every round: after `K*N` rounds every partition is used up, every block holds `N` elements, and the concatenated blocks are the input's elements in sorted order. |
| MergeProperties.RoundWins | main.cpp:82-85 | In a `LiveRound`, a worker's partition shrinks by one exactly when it is the round's winner. |
| MergeProperties.RunWins | main.cpp:145-158 | Over `r` `LiveRound` rounds, the rounds worker `i` has won plus what is left of its partition equal its starting partition size. |
| MergeProperties.WinsMatchPartitions | main.cpp:145-158 | Over the `K*N` rounds of a run with `LiveRound` in every round, worker `i` wins exactly as many rounds as its partition holds. |
| MergeProperties.RoundReported | main.cpp:97-103 | A round raises `g_threads_done` by the number of workers that pass the completion check. |
| MergeProperties.ReportersAreBlockEnds | main.cpp:97-103 | With `N = 100` and `LiveRound` in every round, the workers passing the check in a round are exactly the workers whose block ends with that round. |
| MergeProperties.ReportCountAtBlockEnd | main.cpp:97-103 | Under the same hypotheses, as many workers pass the check in a round as blocks end with it. |
| MergeProperties.ReportRunFromEach | main.cpp:145-158 | That per-round statement, for each of the first `r` rounds, gives the run-long form `ReportRun`. |
| MergeProperties.RunReported | main.cpp:97-103 | If every round so far reports exactly the blocks ending with it, `g_threads_done` equals the number of blocks that have ended. |
| MergeProperties.NoneFinishedAtStart | main.cpp:87 | No block has ended before the first round. |
| MergeProperties.FinishedStep | main.cpp:87 | The blocks ended by round `r` are those ended by round `r-1` plus those ending with round `r`. |
| MergeProperties.FinishedCount | main.cpp:87 | All `K` blocks have ended exactly when round `K*N` has been reached. |
| MergeProperties.DoneCountReachesK | main.cpp:103-106 | With `N = 100` and `LiveRound` in every round, `g_threads_done` never exceeds `K`, and it equals `K` exactly in round `K*N`, the round whose check calls `std::exit`. |
| MergeProperties.SmallStart | main.cpp:175-179 | The example input (`K = 2`, `N = 2`, partitions `[1,2]` and `[3,4]`) is valid and sorted, and its initial state is the listed state `SmallRun(0)`. |
| MergeProperties.SmallRound1 | main.cpp:73-109 | In the example's round 1, worker 0 posts 1 and wins, pops it, and appends it to block 0. |
| MergeProperties.SmallRound2 | main.cpp:73-109 | In round 2, worker 0 wins with 2 and fills block 0. |
| MergeProperties.SmallRound3 | main.cpp:112-118 | In round 3, worker 0 finds its partition empty, leaves its loop and parks `INT_MAX`. Worker 1 wins with 3 and appends it to block 1. |
| MergeProperties.SmallRound4 | main.cpp:150-152 | In round 4, slot 0 still holds 3, below worker 1's head 4. The master picks worker 0, nobody pops, and worker 1 appends 3 again. |
| MergeProperties.SmallRounds | main.cpp:145-158 | The example's run passes through the listed states after three and after four rounds. |
| MergeProperties.SmallStalls | main.cpp:150-152 | `LiveRound` fails in the example's fourth round, because the master picks a worker that has left its loop. |
| MergeProperties.SmallEnd | main.cpp:91 | The example's final state has outputs `[1,2]` and `[3,3]`, and 4 is still in worker 1's partition. |
| MergeProperties.SmallRunLosesLargest | main.cpp:145-158 | For sorted partitions `[1,2]` and `[3,4]`, the `K*N` rounds end with outputs `[1,2]` and `[3,3]` and with 4 still in worker 1's partition, and `LiveRound` fails after three rounds. So the program does not sort every input, and `MergeSortsInput` needs its hypothesis. |
| Elements.SortedTail | main.cpp:82-85 | Erasing the head of a sorted partition leaves it sorted. |
| Elements.BagPop | main.cpp:82-85 | Erasing the head of one partition removes exactly that element from the multiset of all partitions. |
| Elements.FlattenSortedBlocks | main.cpp:88-92 | If the concatenation is sorted, each block is sorted and earlier blocks lie below later ones. |

## Left out

- Threads, mutexes, both barriers and the master's busy poll (main.cpp:80, main.cpp:95, main.cpp:147) are left out. A round is one atomic step, and within a phase the workers act in index order. Each worker writes only its own slot and its own vectors, and the master acts only once every running worker has posted. The poll condition becomes the precondition of `Arbitrate`, which `PostAll` proves. For a worker leaving its loop this fixes one schedule among several (see the line on the `INT_MAX` store below).
- The order of workers within a phase is fixed. The model does not prove that another interleaving gives the same state.
- utilities.h (the barrier class, `printVector`, the random generators) is not part of this model. The input partitions are parameters.
- The `std::cout` diagnostics (main.cpp:100-101) are output only.
- `std::exit(0)` once `g_threads_done == K` (main.cpp:104-107) is left out. The model keeps counting. `DoneCountReachesK` shows that, with `N = 100` under `LiveRound`, the exit comes in round `K*N`, as the master's loop ends.
- The drain loop of a worker that has left (main.cpp:120-124) only calls the barriers. In the model such a worker does nothing.
- Thread spawn and join in `main`, the random input, and the unused `g_sorted_vector` (main.cpp:24) are left out.
- `std::sort` (main.cpp:72) becomes a precondition: sorted partitions.
- `std::size_t` counters are unbounded naturals. The products in `thread_mask` cannot overflow for the program's `K` and `N`.
- MergeProperties.MergeSortsInput: conservation and full blocks hold only under `LiveRound` in every round. As written, the program repeats and loses elements when the hypothesis fails, for example in the three cases listed above. Like every run lemma, it holds for the atomic schedule only.
- MasterNode.SortedRun: same hypothesis and schedule as `MergeSortsInput`.
- MergeProperties.RunEnd: same hypothesis as `MergeSortsInput`.
- MergeProperties.RunConserves: same hypothesis, stated round by round (`LiveRun`).
- MergeProperties.RoundConserves: assumes `LiveRound` for that round.
- MergeProperties.OutputLength: requires the worker to stay in its loop through its block. Without that, only `OutputBound` holds.
- MergeProperties.ReportRound: same requirement as `OutputLength`.
- MergeProperties.RoundMinimaNonDecreasing: stated for successive rounds. The statement for any two rounds `r <= r'` follows by chaining and is not a separate lemma.
- The atomic round assumes that a leaving worker stores `INT_MAX` in its slot (main.cpp:116-118) before the master's next arbitration. That store is not ordered against the master: the worker first lowers `running_nodes_` (main.cpp:112-114), and the master polls without a lock (main.cpp:147). The master can therefore arbitrate between the decrement and the store, over the worker's stale slot, and the late store can then overwrite the broadcast minimum in slot 0. For example, with `K = 2`, `N = 3` and partitions `[1,2,5]` and `[3,6,7]`, that schedule ends block 1 as `[5, INT_MAX, 6]` and loses 7, where the model gives `[5, 6, 6]`. `RunOutputSorted`, `MergeSortsInput` and the other run lemmas hold for the atomic schedule only.
- MergeProperties.RunOutputSorted: holds for the atomic schedule only (see the line above).
- MergeProperties.WinsMatchPartitions: holds only under `LiveRound` in every round. Once the stale slot 0 wins, worker 0 is counted as winning rounds it pops nothing in.
- MergeProperties.DoneCountReachesK: stated for `N = 100` under `LiveRound` in every round. For `N < 100` the counter stays 0 (`NoReportBelowHundred`).
