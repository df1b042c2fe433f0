# Verification of MoNA's collectives, mailbox and transfers

MoNA is a C library of MPI-like communication on top of Mercury's NA. This project
models three layers of it and proves what they are for.

**Collectives.** Every rank runs a short loop of masks, powers or ranks: the dissemination
barrier, the radix-k and the binomial reduction, the binomial broadcast, gather, and
their compositions allreduce, allgather and allgatherv. `Network` is the machine they run
on: N ranks, one FIFO channel per ordered pair of ranks (all on one tag), and steps *post
a receive*, *send*, *send returns*, *wait for a receive*, *go round the loop*, interleaved
in every possible way. A send may return at once (eager transfer) or only when its receive
is posted (rendezvous transfer); results hold under both. `Interleaving` and `Runs` prove,
once, for any sequence of rounds whose sends are the converse of their receives: every run
has the same length, every message is consumed, every rank computes what a lockstep
execution computes, and no run gets stuck *provided that a posted receive completes once
its message has arrived*. An operator takes `(in, inout)`: the received buffer is `in`, the
rank's own is `inout` (`include/mona-coll.h:32-33`). Each collective then shows that its rounds match and what its
lockstep result is. The C loop of one rank is a method on 32-bit integers (`BarrierLoop`,
`RadixReduceLoop`, `BinaryReduceLoop`, `BcastLoops`, `GathervLoops`, `PackLoop`,
`UnpackLoop`), proved to make exactly that rank's calls of the program, in order;
`EveryRunPerforms` says those are the calls a rank makes in every run, and `CallCounts` what
each call does to the channels.

**The unexpected-message engine.** `Mailbox` is the specification: a sequence of arrived
messages from which a receive takes the earliest match. `MsgBuffers` and `Engine` are the
heap: the free list and the pending queue share the `next` field of a message buffer, and
one outstanding low-level receive survives failed probes. With one call running at a time
the queue, the outstanding receive and the transport together refine the mailbox, and
every buffer ever allocated is in exactly one of the free list, the queue, the outstanding
receive and a caller's hands (`Engine.Instance.Valid`, kept by every method).
`Listener` is the engine with any number of threads, one step per critical section of
`pending_msg_mtx`, with the listener token and the condition variable. `Settling` shows that
it comes to rest by itself, `Scenarios` builds the runs that go wrong for arbitrary filters
and messages, and `Callers` says for which sets of calls they exist.

**Collectives on that engine.** By default (`src/mona-comm.c:20`) every receive a collective
posts is a thread of its rank's engine. `Composed` puts all ranks, what is on its way between
them and one `Listener` engine per rank into one machine, in which a wait ends when the
thread has returned. `EngineRuns` (with `Ledgers`, who received what) shows that if no rank
posts two receives in one round, every run of it is a run of `Network` with the same
positions, buffers and channels; `EngineProgress` that every run ends and, under that
condition, only when all ranks have returned: the proviso above is then a theorem.
Otherwise `FreshRounds` and `EngineHangs` build a run of all ranks in which a posted receive
sleeps although its message has arrived. `Deadlock` states the exact conditions, and
`Hanging` draws the conclusion for each collective. `RankReceives` is the same question for
the receives of one rank.

**Transfers.** `Codec` and `Transfer` are the eager and rendezvous messages and their copy
loops; `Rendezvous` is the protocol of handle, RDMA get and ACK between two processes whose
sends and receives run in separate threads.

Results worth knowing before changing the code:

- A receive that is woken and finds the listener token free does not search the queue again
  (`src/mona-unexpected.c:555-564`). Messages then overtake, and a receive can sleep until
  yet another message for it arrives, with its own queued (`Overtaking`, `AsleepOnAMatch`,
  `SleepsOn`). Two or more threads are safe from overtaking exactly when they only probe, or
  never probe and all receive with one source and tag (`NoOvertakingIff`).
- An empty probe gives up the token without a broadcast (`src/mona-unexpected.c:441-444`). A
  waiting call then misses its message (`LostWakeUp`). Two or more threads never sleep on a
  message that has arrived exactly when they never probe and all receive with one source and
  tag (`NoSleepingIff`).
- So a collective whose rank posts two receives at once can deadlock although every message
  was sent and arrived (`CollectiveMayHangIff`, `DeadlockIff`): gather and allgather with
  three or more ranks, gatherv and allgatherv with two non-empty blocks from others, reduce
  and allreduce with a radix of three or more and three or more ranks. Barrier, broadcast and
  the default radix 2 cannot: every run of theirs can be finished, with the right result
  (`EngineResult`).
- allgatherv copies at an `int` position (`src/mona-allgather.c:103`). With disjoint blocks it
  is right, for all contents of all buffers, exactly when every non-empty block starts at or
  below INT_MAX in the contiguous buffer (`AllgathervIff`, `FinalBufferIff`); blocks of 2^31
  and 1 bytes fail (`LargeBlockFails`). For each of the two loops alone the condition is exact
  for any layout (`PackIntIff`, `UnpackIntIff`).
- A large send must not overlap another one whose ACK has the same tag, nor an expected
  message the other way with that tag: whichever comes first completes it, and it
  deregisters memory that is still to be pulled. Large sends may overlap freely exactly when
  neither can happen (`SafeIffAckTagsDiffer`, `SameAckTagIff`). For expected messages within
  the announced tag bound this means different tags (`SafeIffTagsDiffer`); beyond it tags 0
  and 2^31 collide (`TagsWrap`), and an unexpected large send on tag 2t is not safe beside
  an expected message the other way on tag t (`HalfTagCollides`).
- The small-message receive loop copies every buffer from the start of the data. It is right
  exactly when one non-empty buffer takes everything there is room for (`CopyLoopCorrectIff`).
- The eager test of the expected path subtracts the header from the transport's limit in
  `size_t`; it is safe exactly when the header fits (`ExpectedSmallFitsIff`).
- An operator that is only associative is folded starting at the root, with the higher
  relative rank as `in`. At root 0 that is exactly the reverse of the order of ranks
  (`ReverseOrderIff`); the canonical order of section 5.9.1 of MPI 3.1 results exactly for one
  rank, or for two with root 1 (`RankOrderIff`). A commutative operator always gives the value
  of that order (`CommutativeInRankOrder`).
- The level loop computes with `int`. No int overflows at the root of N ranks exactly when
  the least power of the radix that reaches N is at most INT_MAX (`RootIntsFitIff`). Any
  radix from 2 on is accepted: 65536 with 65537 ranks divides by zero (`RadixOverflows`), and
  2^31 or more arrives negative (`AcceptedRadixUsable`).
- A NaN makes the result of maxloc depend on the tree: received in between, it hides a larger
  value received after it from a smaller one before it (`MaxlocAssociatesIff`).
- `MONA_IN_PLACE` is honoured at the root only. All ranks of a reduce start from what they
  contribute exactly if no other rank passes it, or there is one rank or nothing to reduce
  (`ReduceInputsIff`); on every rank of an allreduce it works exactly for one rank
  (`AllreduceInPlaceIff`).
- Every large unexpected send keeps one message buffer, the one for its ACK, out of the
  cache for good (`UsendMem`).

## Model

| member | source | states |
|---|---|---|
| `Runs.Progress` | `src/mona-sendrecv.c:22-34` | if a posted receive completes once its message has arrived (see `EngineRuns.EveryRunRefines` and `Deadlock.CollectiveMayHangIff`), no reachable state of any matched collective is stuck, even if every send blocks until its receive is posted |
| `Runs.EveryRunCompletes` | `src/mona-sendrecv.c:22-34` | under the same proviso every interleaving ends after the same number of steps, and a run can be continued exactly until all ranks have finished |
| `Runs.RunFinishes` | `src/mona-sendrecv.c:22-34` | every run is the beginning of a finished one |
| `Runs.EveryRunAgrees` | `src/mona-allreduce.c:29-37` | a rank at the start of a round holds the lockstep value, in whatever phase the other ranks are |
| `Runs.EveryRunResult` | `src/mona-sendrecv.c:22-34` | a finished run leaves the lockstep result at every rank and no message in any channel |
| `Runs.RunIsCausal` | `src/mona-sendrecv.c:22-34` | a rank past a round knows that everyone it received from in it has sent in it |
| `Runs.EveryRunPerforms` | `src/mona-sendrecv.c:22-34` | in every finished run each rank makes exactly the calls of its loop, in loop order |
| `CallCounts.CallsConserved` | `src/mona-sendrecv.c:22-34` | in every reachable state and for every ordered pair of ranks, the messages in the channel and the waits that have completed together are the sends made, and every wait has its posted receive |
| `CallCounts.ChannelSteps` | `src/mona-sendrecv.c:26` | a channel grows exactly when its sender makes one call, a send to its receiver, and shrinks exactly when its receiver makes one call, a wait for its sender |
| `CallCounts.BlockingSends` | `src/mona-sendrecv.c:26-33` | if sends block, every send that has returned has its receive posted |
| `CallCounts.LoopCalls` | `src/mona-sendrecv.c:22-34` | in the calls of the loops each send of one rank to another has its posted receive and its wait there, as many as there are rounds in which it sends |
| `Interleaving.InvRun` | `src/mona-sendrecv.c:22-34` | in every reachable state each channel holds exactly what its sender has sent and its receiver not yet waited for |
| `Barrier.SendRecv` | `src/mona-sendrecv.c:8-35` | one exchange is: post the receive, send, wait |
| `Barrier.BarrierLoop` | `src/mona-barrier.c:12-32` | the mask loop makes exactly the rank's calls of the barrier and no int overflows while 2 * size fits |
| `Barrier.BarrierMatched` | `src/mona-barrier.c:21-29` | in every round each rank's send meets exactly the receive of its destination, for every number of ranks |
| `Barrier.BarrierMasks` | `src/mona-barrier.c:21-29` | round j uses mask 2^j and the loop ends at the first power of two that reaches N |
| `Barrier.HeardOneMore` | `src/mona-barrier.c:21-29` | after the round with mask 2^j a rank knows that the 2^(j+1) - 1 ranks behind it have entered |
| `Barrier.BarrierSafety` | `src/mona-barrier.c:12-32` | in every run of any collectives before and after it on the same tag, no rank returns from a barrier before all have entered it |
| `Barrier.ConsecutiveBarriers` | `src/mona-barrier.c:12-32` | the same for the i-th of any number of barriers in a row |
| `Barrier.BarrierPartnersDiffer` | `src/mona-barrier.c:21-29` | within one barrier no ordered pair of ranks communicates in two rounds |
| `Barrier.BarrierKeepsBuffers` | `src/mona-barrier.c:25-26` | a barrier changes no rank's data |
| `Reduce.ReduceMatched` | `src/mona-reduce.c:144-173` | at every level the sends are exactly the converse of the posted receives, for every N, root and radix |
| `Reduce.LevelAfterRound` | `src/mona-reduce.c:144-173` | at stride p each active rank holds the fold over relative ranks rel .. min(rel + p, N) - 1; one level takes p to p * k |
| `Reduce.ReduceValue` | `src/mona-reduce.c:98-181` | for every N, root, radix and associative operator the root ends with the fold over ranks root, root + 1, ... modulo N, each combined as `in` with the result of those before it as `inout` |
| `Allreduce.ReduceRun` | `src/mona-reduce.c:98-181` | the same for the result of every complete interleaving |
| `Allreduce.ResultIndependentOfRoot` | `src/mona-reduce.c:98-181` | with a commutative operator the fold is the same from every root |
| `Allreduce.ReduceRunsAgree` | `src/mona-reduce.c:98-181` | with a commutative operator any two finished runs of a reduce leave the same value at their roots, whatever their radixes, roots and interleavings |
| `Allreduce.ReversedAtRootZero` | `src/mona-reduce.c:114-115` | at root 0 every associative operator `(in, inout)` is combined in the reverse order of ranks |
| `Allreduce.ReverseOrderIff` | `src/mona-reduce.c:163` | for the operator that joins sequences, `in` before `inout`, the result is the reverse of the order of ranks exactly when the root is 0 |
| `Allreduce.RankOrderIff` | `src/mona-reduce.c:163` | and the order of ranks exactly for one rank, or for two with root 1 |
| `Allreduce.CommutativeInRankOrder` | `src/mona-reduce.c:163` | a commutative and associative operator gives the value of the order of ranks for every root |
| `ReduceLoop.SendsOnce` | `src/mona-reduce.c:165-172` | every rank but the root sends exactly once, the root never |
| `ReduceLoop.EdgesDescend` | `src/mona-reduce.c:165-169` | every message goes to a rank closer to the root in relative numbering |
| `ReduceLoop.PathToRoot` | `src/mona-reduce.c:144-173` | the N - 1 edges form a tree: following them from any rank reaches the root |
| `ReduceLoop.LevelCount` | `src/mona-reduce.c:143-174` | the level loop ends after the least j with k^j >= N |
| `ReduceLoop.ReachIsStride` | `src/mona-reduce.c:143-174` | the stride at which it ends is the least power of the radix that reaches N |
| `ReduceLoop.ChildLoop` | `src/mona-reduce.c:147-164` | both inner loops go through exactly the children, in order, without overflow |
| `ReduceLoop.ReduceLevel` | `src/mona-reduce.c:145-172` | one level posts all receives, folds them in order, or sends once and leaves |
| `ReduceLoop.RadixReduceLoop` | `src/mona-reduce.c:98-181` | the loop makes exactly the rank's calls of the program, none if the count is 0, and no int overflows while 2N and the least power of k that reaches N fit |
| `ReduceLoop.RootIntsFitIff` | `src/mona-reduce.c:143-174` | up to 2^30 ranks, no int of the root's loops overflows exactly when the least power of the radix that reaches N is at most INT_MAX |
| `ReduceLoop.RadixOverflows` | `src/mona-reduce.c:145` | radix 65536 with 65537 ranks computes 2^32, which an int takes for 0 |
| `ReduceLoop.LargestRadixFits` | `src/mona-reduce.c:143-174` | three ranks may use the largest int as radix |
| `BitMask.OneBit` | `src/mona-reduce.c:66-81` | what testing, setting and clearing the lowest bit of a relative rank computes |
| `BinaryReduce.BinaryReduceLoop` | `src/mona-reduce.c:15-96` | the bit-mask reduction makes the same calls, with the same partners in the same order, as the radix loop with k = 2, and none if the count is 0 |
| `Broadcast.BcastMatched` | `src/mona-bcast.c:33-54` | the sends of the second loop are exactly the converse of the receives of the first |
| `Broadcast.BcastValue` | `src/mona-bcast.c:13-56` | for every N and root all ranks end with the root's buffer |
| `Broadcast.BcastRun` | `src/mona-bcast.c:13-56` | in every run a rank that has returned holds the root's buffer, however far the others are |
| `Broadcast.ReceivesOnce` | `src/mona-bcast.c:33-43` | the root never receives, every other rank exactly once, from the relative rank with its lowest set bit cleared |
| `Broadcast.ReceiveLoop` | `src/mona-bcast.c:33-44` | the first loop stops at that bit and the remaining rounds are its smaller masks |
| `Broadcast.BcastLoops` | `src/mona-bcast.c:13-56` | both loops together make exactly the rank's calls of the broadcast |
| `Allreduce.AllreduceRun` | `src/mona-allreduce.c:15-38` | whoever has returned holds the fold over all ranks from root 0, the higher rank as `in`, while others may still be in either phase |
| `Allreduce.PhasesUseDisjointChannels` | `src/mona-allreduce.c:29-37` | the reduce phase only sends to lower ranks and the broadcast phase only to higher ones, so one tag serves both |
| `Allreduce.AllreduceLoops` | `src/mona-allreduce.c:28-37` | the two loops in sequence make exactly the rank's calls of the composed program; with a count of 0 only those of the broadcast |
| `Gather.GathervMatchedIff` | `src/mona-gather.c:111-145` | the root's receives meet the ranks' sends exactly when they agree on which blocks are empty |
| `Gather.GathervValue` | `src/mona-gather.c:111-145` | the root ends with its own block and every non-empty block of the others |
| `Gather.AllgatherRun` | `src/mona-allgather.c:15-31` | whoever has returned from an allgather holds every rank's block |
| `Gather.GathervLoops` | `src/mona-gather.c:111-145` | the loops of gatherv make exactly the rank's calls, skipping empty blocks |
| `Placement.UnpackAfterPack` | `src/mona-allgather.c:105-125` | unpack after pack copies every byte inside some block, also where blocks overlap, and no other |
| `Placement.GatheredBlock` | `src/mona-gather.c:111-139` | with disjoint blocks the gathered buffer does not depend on the order of arrival |
| `Offsets.PackIntIff` | `src/mona-allgather.c:102-109` | packing at an int position concatenates the blocks, whatever the allocated buffer held, exactly when every non-empty block starts at or below INT_MAX |
| `Offsets.UnpackIntIff` | `src/mona-allgather.c:116-124` | unpacking at an int position copies every piece back, for every content, exactly under the same condition |
| `Offsets.LargeBlockFails` | `src/mona-allgather.c:103-107` | with blocks of 2^31 and 1 bytes the second is copied to a negative offset |
| `Offsets.PackLoop` | `src/mona-allgather.c:99-110` | under that condition the loop concatenates the blocks in rank order |
| `Offsets.UnpackLoop` | `src/mona-allgather.c:116-125` | under that condition the loop copies each piece back to its displacement |
| `Allgatherv.AllgathervCalls` | `src/mona-allgather.c:94-114` | with arrivals in the order of the waits the program is the gatherv of the ranks' blocks followed by the broadcast |
| `Allgatherv.AllgathervMessages` | `src/mona-allgather.c:94-114` | in every run, for every order in which the blocks arrive, a rank that has returned was sent what rank 0 gathered in that order, although ranks with empty blocks skip their sends |
| `Allgatherv.AllgathervAgrees` | `src/mona-allgather.c:94-125` | every rank agrees with rank 0 on the union of the blocks and keeps every other byte, also where blocks overlap, for every order of arrival |
| `Allgatherv.AllgathervBlocks` | `src/mona-allgather.c:94-125` | with disjoint blocks, block i is rank i's data at every rank |
| `Allgatherv.AllgathervRun` | `src/mona-allgather.c:85-130` | the three together, from the messages to the bytes, for every run, order of arrival and layout whose non-empty blocks start at or below INT_MAX |
| `Allgatherv.FinalBufferIff` | `src/mona-allgather.c:99-125` | with disjoint blocks a rank other than 0 ends with rank 0's bytes in every block, for all contents of both buffers and of the allocated one, exactly under that condition |
| `Allgatherv.AllgathervIff` | `src/mona-allgather.c:85-130` | with disjoint blocks every rank ends with every rank's block, for all contents, runs and orders of arrival, exactly under that condition |
| `Operators.MaxInto` | `src/mona-reduce.c:253-264` | the in-place loop is the element-wise maximum |
| `Operators.SumInto` | `src/mona-reduce.c:301-310` | the in-place loop is the element-wise sum modulo 2^32 |
| `Operators.SumLaws` | `src/mona-reduce.c:301-310` | wrapping addition is associative and commutative, so its result does not depend on the tree |
| `WordReduces.SumReduceRun` | `src/mona-reduce.c:143-174` | in every finished run of a reduce with it, each element at the root is the sum of that element over all ranks, up to a multiple of 2^32 |
| `Operators.MaxLaws` | `src/mona-reduce.c:253-264` | so is the maximum |
| `Operators.MaxIsLargest` | `src/mona-reduce.c:253-264` | the result is at least both operands and is one of them |
| `WordReduces.MaxReduceRun` | `src/mona-reduce.c:143-174` | in every finished run of a reduce with it, for every radix and root, each element at the root is at least that element of every rank and that of some rank |
| `Operators.LiftAssociative` | `src/mona-reduce.c:253-264` | an associative operator applied element by element is associative on buffers, so `ReduceValue` covers it |
| `Operators.LiftCommutative` | `src/mona-reduce.c:253-264` | likewise for commutativity and `ResultIndependentOfRoot` |
| `Operators.FoldElement` | `src/mona-reduce.c:253-264` | element i of a reduction is the reduction of the elements i |
| `Operators.MaxlocInto` | `src/mona-reduce.c:442-454` | the in-place loop replaces a pair only if the incoming value is larger; NaN never is and never gives way |
| `Operators.MaxlocAssociatesIff` | `src/mona-reduce.c:442-454` | regrouping three pairs, each the `in` of the next, changes the result exactly when the middle value is NaN and the outermost `in` is larger than the innermost `inout` |
| `Operators.MaxlocFold` | `src/mona-reduce.c:442-454` | without NaN, a fold returns the pair of the first rank, in root-relative order, that attains the maximum |
| `Operators.MaxlocSmallestRank` | `src/mona-reduce.c:442-454` | for root 0 with index = rank it is the smallest rank that attains it |
| `MaxlocReduce.MaxlocReduceRun` | `src/mona-reduce.c:143-174` | without NaN, every run of the tree with maxloc returns that pair, for every radix, root and element |
| `Operators.Hints.SetReduceRadix` | `src/mona-reduce.c:246-251` | a radix below 2 is rejected and leaves the hint alone, any other is stored |
| `Operators.AcceptedRadixUsable` | `src/mona-reduce.c:193` | an accepted radix can be used at the root of N ranks exactly when the least power of it that reaches N is at most INT_MAX; from 2^31 on it arrives negative |
| `Operators.PassedRadixWraps` | `src/mona-reduce.c:193` | the radix that arrives is the hint, or the hint less 2^32 |
| `Operators.ReduceInputsIff` | `src/mona-reduce.c:117-141` | whatever buffers the ranks pass, all start from their contribution exactly if none but the root passes MONA_IN_PLACE, or the count is 0, or there is one rank |
| `Operators.ReduceInputIff` | `src/mona-reduce.c:117-141` | a rank starts from the send buffer it passes; with MONA_IN_PLACE from its receive buffer exactly if it is the root, alone, or the count is 0 |
| `Operators.AllreduceInPlaceIff` | `src/mona-reduce.c:117-141` | an allreduce of a positive count with MONA_IN_PLACE everywhere starts from the receive buffers exactly for one rank |
| `Mailbox.FirstMatchConcat` | `src/mona-unexpected.c:348-361` | later arrivals do not change which message is matched first |
| `Mailbox.FirstMatchFields` | `src/mona-unexpected.c:348-361` | the first match has the tag and the source asked for, unless any will do, no message before it has both, and there is none only if no message has |
| `Mailbox.ReceivesInArrivalOrder` | `src/mona-unexpected.c:348-382` | repeated receives with one filter return the matching messages in arrival order and leave the others in theirs |
| `MsgBuffers.MessageCache.Get` | `src/mona-types.h:195-227` | pops the free list or allocates; the list stays acyclic and holds exactly the free buffers |
| `MsgBuffers.MessageCache.Return` | `src/mona-types.h:229-244` | pushes the buffer |
| `MsgBuffers.PendingList.Find` | `src/mona-unexpected.c:348-361` | the search stops at the earliest match and knows its predecessor |
| `MsgBuffers.PendingList.Remove` | `src/mona-unexpected.c:367-378` | unlinking takes exactly that message out; newest stays the last node, null exactly with oldest |
| `MsgBuffers.PendingList.Append` | `src/mona-unexpected.c:494-511` | a received message becomes the newest |
| `Engine.Instance.Post` | `src/mona-unexpected.c:414-435` | posting takes a buffer and changes no message |
| `Engine.Instance.Take` | `src/mona-unexpected.c:447-470` | a completed receive hands over its buffer, size, source and tag and is cleared |
| `Engine.Instance.Dispatch` | `src/mona-unexpected.c:472-520` | the message is handed over exactly if it has the tag and source asked for and the call is not a probe, else queued; the token is freed accordingly |
| `Engine.Instance.ReceiveNew` | `src/mona-unexpected.c:412-520` | with no match queued it takes the earliest match, queueing the others in order, and blocks exactly if there is none |
| `Engine.Instance.ProbeNew` | `src/mona-unexpected.c:437-520` | a probe takes at most one new message into the queue, keeps the mailbox, and leaves its receive posted |
| `Engine.Instance.CheckProbe` | `src/mona-unexpected.c:529-569` | a probe sees exactly the first match of the queue and never changes the mailbox |
| `Engine.Instance.CheckReceive` | `src/mona-unexpected.c:529-569` | a receive takes exactly the first match of the whole mailbox |
| `Engine.Instance.Urecv` | `src/mona-unexpected.c:641-769` | removes the first message with the tag and source asked for, the oldest if any will do, and blocks only if there is none; gives its buffer back; succeeds exactly if the memory a large message names can be pulled, and then delivers its data and reports its source, tag and size |
| `Engine.Instance.Uiprobe` | `src/mona-unexpected.c:973-1016` | reports size, source and tag of the first message with the tag and source asked for, nothing exactly if none of these is queued, and never removes or reorders |
| `Engine.Instance.Uprobe` | `src/mona-unexpected.c:1018-1031` | the probe loop, with messages arriving between its probes, ends with the first message with the tag and source asked for |
| `Engine.Instance.UsendMem` | `src/mona-unexpected.c:202-276` | the message sent is the handle message; every call keeps one more buffer |
| `Engine.Instance.Usend` | `src/mona-unexpected.c:74-146` | the message sent has type byte 0, and no buffer is kept, exactly if header, type byte and data together are within the transport's limit and the threshold; else type byte 1 and one kept buffer |
| `Engine.ProbeAgrees` | `src/mona-unexpected.c:994-1015` | the message a probe reported is the one the next receive with that filter takes, whatever arrives between, with size min(size, buffer) unless its type byte is unknown |
| `Engine.ProbeThenReceive` | `src/mona-unexpected.c:973-1016` | the same for the calls themselves |
| `Listener.InvRun` | `src/mona-unexpected.c:541-568` | with any number of threads at most one holds the token, and every arrived message is at exactly one place, in arrival order |
| `Listener.ReceiveIsExclusive` | `src/mona-unexpected.c:414-470` | only NA and the one token holder touch the outstanding receive |
| `Listener.SearchedStep` | `src/mona-unexpected.c:555-564` | a listening receive has no match queued, and this breaks exactly at a wake to a free token past a match |
| `Listener.EarliestIff` | `src/mona-unexpected.c:472-492` | a receive is given the earliest arrival for it exactly if it came from the queue or none was left there |
| `Listener.NoOvertaking` | `src/mona-unexpected.c:541-568` | in runs without such wakes a receive gets the oldest arrival with its tag and source that nobody has, across all threads |
| `Listener.WakerStep` | `src/mona-unexpected.c:441-444` | while someone waits somebody will broadcast, and this breaks exactly at an empty probe with waiters and no broadcast due |
| `Listener.WaitersStep` | `src/mona-unexpected.c:544-556` | nobody waits for a queued message unless a broadcast is due |
| `Listener.NobodySleepsOnAMatch` | `src/mona-unexpected.c:541-568` | in runs without those two steps, once nothing can happen, no message with the tag and source of a sleeping call has arrived and not been received |
| `Settling.EveryStepWorks` | `src/mona-unexpected.c:412-520` | every step other than a new call or arrival takes one away from a bound on what is left to do |
| `Settling.Bounded` | `src/mona-unexpected.c:541-568` | so whatever is scheduled, the engine stops by itself |
| `Settling.BecomesQuiet` | `src/mona-unexpected.c:541-568` | and it can always go on to a state in which nothing is left to do |
| `Scenarios.AsleepOnAMatch` | `src/mona-unexpected.c:555-564` | any receive that listens past a match comes to rest with that message queued |
| `Scenarios.Overtaking` | `src/mona-unexpected.c:555-564` | and a later message for it is then received first |
| `Scenarios.LostWakeUp` | `src/mona-unexpected.c:441-444` | after any empty probe, any call that waits comes to rest with its message in the outstanding receive |
| `Callers.NoOvertakingIff` | `src/mona-unexpected.c:541-568` | two or more threads making a set of calls never overtake, in any run, exactly when they only probe, or never probe and receive with one filter |
| `Callers.NoSleepingIff` | `src/mona-unexpected.c:541-568` | they never come to rest on an arrived message exactly when they never probe and receive with one filter |
| `RankReceives.OnePerRoundCompletes` | `src/mona-comm.c:301-321` | a rank that posts one receive per round comes to rest, within a bound, with every receive returned whose message has arrived |
| `RankReceives.TwoInARound` | `src/mona-gather.c:28-41` | two receives posted in one round have a run in which both messages arrive and the second receive does not return |
| `RankReceives.SleepsOn` | `src/mona-unexpected.c:437-492` | it then does not return, whatever else happens, until another message for it arrives |
| `RankReceives.MayHangIff` | `src/mona-comm.c:301-321` | a rank can come to rest that way, with only its own messages arriving in order, exactly when it posts two receives in some round |
| `Ledgers.LedgerStep` | `src/mona-unexpected.c:541-568` | while messages are handed out in the order of arrival, each call gets the earliest message for it, each message goes to one call, and no call returns without one |
| `EngineRuns.EveryRunRefines` | `src/mona-comm.c:301-321` | if no rank posts two receives in a round, every run of all ranks with their engines is a run of the machine on channels, with the same positions and buffers, and what has arrived or is on its way and not waited for in its channels |
| `EngineProgress.EveryRunEnds` | `src/mona-comm.c:301-321` | every run of ranks and engines, whatever the collective, extends to one in which nothing can move |
| `EngineProgress.NeverStuck` | `src/mona-comm.c:301-321` | with at most one receive a round nothing can move only when all ranks have returned, even if every send blocks until its message is received |
| `Deadlock.EngineResult` | `src/mona-comm.c:301-321` | and a rank that has returned holds the lockstep value |
| `FreshRounds.ReachesRound` | `src/mona-comm.c:301-321` | up to the first round with two receives some run brings all ranks to its beginning, with every engine as at the start |
| `EngineHangs.TwoReceives` | `src/mona-gather.c:28-41` | from there a run of all ranks leaves the second receive asleep, with its message arrived and the engine at rest |
| `Deadlock.BlockedRun` | `src/mona-unexpected.c:437-492` | if its rank is sent nothing more by the same one, it does not return in any continuation of the run |
| `Deadlock.CollectiveMayHangIff` | `src/mona-comm.c:20` | in no run of ranks and engines does a receive sleep on an arrived message exactly when no rank posts two receives in a round |
| `Deadlock.DeadlockIff` | `src/mona-comm.c:20` | if no rank sends to another one twice, every run can be finished exactly under that condition |
| `Hanging.BarrierNeverHangs` | `src/mona-barrier.c:21-29` | no run of a barrier deadlocks or has a receive asleep on its message |
| `Hanging.BcastNeverHangs` | `src/mona-bcast.c:33-54` | nor does one of a broadcast |
| `Hanging.ReduceDeadlockIff` | `src/mona-reduce.c:147-156` | some run of a reduce deadlocks exactly with a radix of at least 3 and at least 3 ranks |
| `Hanging.AllreduceDeadlockIff` | `src/mona-allreduce.c:28-37` | so for an allreduce |
| `Hanging.GatherDeadlockIff` | `src/mona-gather.c:28-41` | some run of a gather deadlocks exactly with at least 3 ranks |
| `Hanging.GathervDeadlockIff` | `src/mona-gather.c:111-139` | some run of a gatherv deadlocks exactly if two ranks other than the root have non-empty blocks |
| `Hanging.AllgatherDeadlockIff` | `src/mona-allgather.c:94-114` | an allgather or allgatherv can deadlock exactly if its gather can |
| `Codec.UnexpectedRoundTrip` | `src/mona-unexpected.c:99-109` | a receiver reads back what the sender wrote, small or large |
| `Codec.LargeLayout` | `src/mona-unexpected.c:225-241` | where the fields of a large message are: header, byte 1, sizes of handle and data and offset in 8 bytes each, least significant first, handle |
| `Codec.SmallLayout` | `src/mona-expected.c:100-112` | and of the small messages: header, byte 0, on the expected path the size of the data, and the data |
| `Codec.ExpectedRoundTrip` | `src/mona-expected.c:100-112` | the same on the expected path, whatever stale bytes follow in the buffer |
| `Transfer.BuildUnexpected` | `src/mona-unexpected.c:84-138` | the bytes filled in are the message of the chosen path, with type byte 0 exactly if header, type byte and data are within both limits |
| `Transfer.BuildExpected` | `src/mona-expected.c:84-142` | the same for expected messages |
| `Transfer.FillLarge` | `src/mona-expected.c:216-246` | the bytes of a handle message |
| `Transfer.UnexpectedSmallFits` | `src/mona-unexpected.c:93-97` | a small message never exceeds the transport's buffer |
| `Transfer.UnexpectedPath` | `src/mona-unexpected.c:90-97` | the path by the sizes of the send buffers: small exactly if header, type byte and all data are within the transport's limit and the threshold |
| `Transfer.ExpectedPath` | `src/mona-expected.c:90-98` | small exactly if the data is within the threshold and fits behind header, type byte and size, in size_t arithmetic |
| `Transfer.ExpectedSmallFitsIff` | `src/mona-expected.c:94-98` | on the expected path this holds exactly when the header itself fits |
| `Transfer.UnexpectedTransparent` | `src/mona-unexpected.c:671-757` | for any send buffers, threshold and one receive buffer, both paths deliver the first min(total, size) bytes and report that size |
| `Transfer.ExpectedTransparent` | `src/mona-expected.c:415-500` | the same on the expected path |
| `Transfer.ScatterFlattens` | `src/mona-unexpected.c:704-735` | a large message fills the receive buffers one after the other |
| `Transfer.LargeBytes` | `src/mona-unexpected.c:704-735` | a large message with any offset, memory and receive buffers: byte i of the buffers is byte offset + i of the memory as far as size and room go, and every other byte is unchanged; it works exactly if that memory exists |
| `Transfer.LargeDelivered` | `src/mona-expected.c:446-486` | the same for the bytes that usend_mem and send_mem send, as either receiver reads them; every buffer keeps its length |
| `Transfer.OtherType` | `src/mona-unexpected.c:671-757` | a message with any other type byte leaves the buffers alone |
| `Transfer.CopyLoopCorrectIff` | `src/mona-unexpected.c:679-685` | the small copy loop does so for every content exactly when one buffer suffices |
| `Transfer.CopyOut` | `src/mona-expected.c:430-439` | the copy loop itself, which never advances its source |
| `Transfer.ReceiveUnexpected` | `src/mona-unexpected.c:669-749` | parsing and copying out of an unexpected message of any kind, and whether that succeeds |
| `Transfer.ReceiveExpected` | `src/mona-expected.c:420-500` | the same for an expected message |
| `Rendezvous.TagsSeparate` | `src/mona.c:376-379` | for expected messages with user tags up to max/2 - 1, data and ACK tags do not wrap, are in range and never collide |
| `Rendezvous.TagValues` | `src/mona-expected.c:256-258` | the tags of data and ACK: for expected messages 2t and 2t + 1, less 2^32 if they do not fit, for unexpected ones t |
| `Rendezvous.MaxTagIff` | `src/mona.c:376-379` | a user tag is within the announced bound exactly if twice the next one is a tag NA takes |
| `Rendezvous.SameAckTagIff` | `src/mona-expected.c:256-258` | in 32 bits, two large messages share their ACK's tag exactly if their tags are equal modulo 2^31 (expected), equal (unexpected), or one is twice the other plus one (mixed) |
| `Rendezvous.AckFindsItsSend` | `src/mona-expected.c:248-275` | with one large message per ACK tag the ACK completes the send it is for |
| `Rendezvous.OnePerTagIsSafe` | `src/mona-expected.c:136-141` | then, with no expected message the other way under an ACK's tag, data is only pulled from registered memory and a send returns only after the pull, in every run, for expected and unexpected messages and any order of receives |
| `Rendezvous.PulledAfterReturn` | `src/mona-expected.c:248-275` | any two overlapping large sends with equal ACK tags: a send returns unpulled and its memory is pulled after deregistration |
| `Rendezvous.TakenForAck` | `src/mona-expected.c:248-275` | so does one large send beside an expected message the other way with the tag of its ACK |
| `Rendezvous.SafeIffAckTagsDiffer` | `src/mona-expected.c:206-280` | large sends of both kinds may overlap freely, beside any traffic the other way, exactly when no two of their ACK tags are equal and none is the tag of an expected message the other way |
| `Rendezvous.SafeIffTagsDiffer` | `src/mona-expected.c:206-280` | expected large sends within the announced tag bound may overlap freely, beside such messages the other way, exactly when their tags differ |
| `Rendezvous.TagsWrap` | `src/mona-expected.c:256-258` | tags 0 and 2^31 differ, but their sends may not overlap |
| `Rendezvous.HalfTagCollides` | `src/mona-unexpected.c:251-254` | a large unexpected send on tag 2t is not safe beside an expected message the other way on tag t |

## Left out

- NA, Argobots and the progress loop are not part of this model; they appear as FIFO channels, a transport that completes the posted receive with the oldest message, memory handles, and mutex and condition-variable steps (no spurious wake-ups).
- NA error returns other than a failed transfer of a large message, and allocation failures. The error path of `src/mona-unexpected.c:522-526` keeps the token and unlocks a mutex it does not hold.
- EngineRuns.EveryRunRefines: messages from one rank to another arrive in the order in which they were sent, and nothing is lost; a process runs one collective at a time and makes no other calls on its engine meanwhile.
- Deadlock.CollectiveMayHangIff: for programs in which no rank posts a receive from itself, as in all the collectives.
- Deadlock.DeadlockIff: stated when no rank sends to another one twice. Without that a receive that was left behind may still be given a later message of the same rank; what that does to the results is not stated. `CollectiveMayHangIff` needs no such condition.
- Hanging.GathervDeadlockIff: for ranks that agree on which blocks are empty; the others do not match (`GathervMatchedIff`).
- Listener.NoOvertaking: a probe that finds a message is one step. The code reads the message's buffer after unlocking (`src/mona-unexpected.c:987-1008`), when a receive of another thread may already have recycled it, so what a probe reports is only stated for one call at a time (`ProbeAgrees`).
- Listener.InvRun: messages are conserved for any number of threads; that every message buffer is in exactly one of the free list, the queue, the outstanding receive and a caller's hands is proved for one call at a time only (`Engine.Instance.Valid`).
- After a `break` the remaining rounds of a rank are rounds in which it does nothing.
- Bit operators `&`, `|` and `& ~` are recursive functions on non-negative integers; the masks have one bit.
- Engine.Instance.Urecv: one call at a time, and the matching message is as long as its fields say; the code would read a shorter one past its end. What a failed transfer has already written to the buffers is not stated.
- Engine.Instance.Uiprobe: one call at a time, and the matching message is as long as its fields say.
- Engine.Instance.ReceiveNew: a blocked call returns `blocked` and is continued from the same point, because nothing else runs in this model while it waits.
- Engine.Instance.Uprobe: stated when a matching message arrives in the end; without one the loop does not end.
- MsgBuffers.PendingList.Append: a buffer's contents are exactly the received bytes; stale bytes after them are modelled only for expected messages, which are the ones whose receive does not learn their size.
- Engine.Instance.UsendMem: the ACK's arrival is taken for granted here; when it comes is the subject of `Rendezvous`.
- Transfer.FillLarge: needs a transport buffer that holds a serialized handle; the code does not check this.
- Transfer.BuildUnexpected: on the large path, likewise.
- Transfer.BuildExpected: likewise, and on the small path it needs room for the header, without which the code writes past its buffer (`ExpectedSmallFitsIff`).
- Rendezvous.OnePerTagIsSafe: one pair of processes. Messages the other way are modelled as far as they can be taken for an ACK; their own transfers are those of the same machine with the roles exchanged.
- Operators.MaxlocInto: doubles are NaN or a real number; rounding plays no part in comparing them.
- Other floating-point and byte-wise operators are covered only as abstract associative operators; `src/mona-reduce.c:410` and `src/mona-reduce.c:433` pass a type size of 3 for 16-bit integers.
- Barrier.BarrierLoop: requires at most 2^30 ranks, so that 2 * size fits in an int; so do the loops of reduce and broadcast and `RootIntsFitIff`.
- Offsets.PackLoop: the sum of all sizes is below 2^64 and the contiguous buffer can be allocated.
- Gather.AllgatherRun: ranks exchange abstract blocks; the bytes are the subject of `AllgathervRun`, which is stated when every rank passes the same sizes and displacements.
- `mona_urecv_mem`, `mona_recv_mem`, `setup_teams`, scatter, alltoall, the MPI wrappers, benchmarks and tests.
- The `reqs` array of `mona_comm_gather` that is shadowed and leaked at `src/mona-gather.c:23-26`, and other memory the C code allocates.
