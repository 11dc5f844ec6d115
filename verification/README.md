# talpf: a verified model

talpf is a bulk-synchronous communication layer over one-sided RDMA.  Processes issue puts, gets
and atomics and then call `sync`; between processes there are only counters, a few MPI collectives
and MPI messages.  This project models the parts of it where correctness depends on many
processes, many calls or a clever data structure, and proves what they promise.

| part | files | main results |
|---|---|---|
| superstep sync protocol | `Tallies`, `Verbs`, `SyncAttr`, `Superstep`, `SuperstepSafety`, `SuperstepRuns`, `SuperstepPrograms`, `SuperstepLimits`, `SuperstepWindow`, `SuperstepDelivery`, `SuperstepLate`, `SuperstepProgress` | a process leaves a superstep only with everything delivered; buckets never mix; without barriers this holds if and only if every send that shares its target with another sender has a way back of fewer than 1024 sends; every superstep can be brought to its end |
| chunked RDMA | `Arithmetic`, `RdmaChain` | executing the request chain of a put or get is one copy |
| write-conflict resolution | `Grains`, `Writes`, `Regions`, `MessageSort`, `Serialisation`, `WriteConflicts` | pushing and draining equals the writes in ascending id order |
| slots and address translation | `SparseSet`, `MemoryRegister`, `CombinedRegister`, `Registrar`, `MemoryTable`, `Replicas` | slots do not depend on reserves; every process finds the address its peer registered |
| sparse all-to-all | `SwapRemoval`, `NbxSends`, `Nbx`, `NbxDelivery`, `NbxProgress`, `NbxSeries` | whoever leaves the loop leaves a quiet network with everything received; nothing gets stuck; exactly when two exchanges keep apart |
| fragmented messages | `Messaging`, `Fragments`, `FragmentRuns`, `FragmentProgress` | every receive buffer equals what was sent, every round can be brought to its end even if MPI buffers nothing, rounds do not mix |
| stopping early | `Abort`, `AbortProgress` | all processes reach the same verdict in the same round, and every run can be brought there |
| message codec | `MicroMsg` | round trip of any list, prefix freedom, length |

Two forms occur side by side.  Code that updates fields or arrays is a class or a method with
loops, and its contract ties the new state to functions of the old one.  Protocols are transition
systems over those same functions: any process may take any enabled step, the network may delay
and (unless said otherwise) reorder, and the theorems speak about every run.  What is taken for
granted about the environment: collectives are matched by their order on a communicator and return
only once every process has made the call (section 5.12 of MPI 3.1); a synchronous send completes
only once it is matched, and messages of one source and tag do not overtake each other
(sections 3.4 and 3.5 of MPI 3.1); a reliable connection between two processes delivers in the order
of issue, while arrivals on different connections may be seen in any order, and that an operation
has completed at its source does not mean that its target has seen it.  Theorems that say what always
holds do without the order of connections wherever they can; theorems that say that a run exists
give one that keeps it (`IsOrdered`, `KeepsOrder`).  The number format of the codec is unsigned
LEB128 (section 7.6 of the DWARF 5 standard).

Where the code and its description part, the code is what is modelled:

- Clearing pending writes leaves a region's only pending grain in place, because the test for
  something to clear is strict (src/MPI/messagesort.cpp:219).  `Writes.Clear` and
  `MessageSort.Clear` state exactly when clearing works; `ClearMissesGrain` is a case where it does not.
- A message count of 2^29 or more in a sync attribute runs into the mode bits
  (include/lpf/core.h:24).  `SyncAttr.CountSurvives` gives the exact limit.
- Iterating a sparse set with a minimum other than zero yields offsets, not members
  (src/common/sparseset.hpp:212-216).  `SparseSet.IterationYieldsMembers` says when it is exact, and
  `IterationIsShifted` shows what comes out instead.
- A sparse all-to-all separates its messages from those of the next one by nothing but the caller's
  care: every exchange uses tag 0 (src/MPI/mpilib.cpp:579).  `NbxSeries.SeparateExactly` says what
  care it takes, and `NbxSeries.UngatedMixes` gives a run for every send without it.
- The examples' README asks for a barrier or an acknowledgement when communication is one-way.
  What one-way traffic loses for certain is the pace of one superstep
  (`SuperstepDelivery.PaceNeedsBothDirections`).  Delivery itself needs a barrier only if some
  process hears from several, and one of these has no way back of fewer than 1024 sends
  (`SuperstepDelivery.DeliveryNeedsShortWaysBack`): a directed ring does without, however long it is
  (`SuperstepDelivery.RingDelivers`).
- Nothing in the code keeps a task from posting an operation while a sync is under way.  It is
  counted for the next superstep and arrives in the bucket of this one; `SuperstepLate.LateMisleads`
  is a run in which it stands in for a missing one.

A request of MPI is represented by the length of the message it tracks (`NbxSends`) or by whether
it is active (`Messaging`); while safety is proved for an MPI that may complete a standard send at
any time, progress is proved for one that completes it only once it is received.  Addresses and
sizes are naturals.  The count exchange of a sync, one all-reduce per process in the code, is one collective
call here; so are, in `Abort`, the registrations that open a sync and the set-up of connections.
Operations may be issued until a sync takes the counts over, also while its vote is under way.

`dafny verify dfyconfig.toml` checks the whole project.

## Model

| member | source | states |
|---|---|---|
| Verbs.IBVerbs.constructor | src/MPI/ibverbs.cpp:222-246 | all counters, buckets and per-peer counts start at zero, no request is active |
| Verbs.IBVerbs.CountOperation | src/MPI/ibverbs.cpp:733-734 | an operation raises the own and the per-peer count by one and carries the counter of the superstep it is issued in |
| Verbs.IBVerbs.DoLocalProgress | src/MPI/ibverbs.cpp:431-472 | the own count drops by exactly the completions taken; without a failure these are all there are, up to the polling limit; a failure is reported, and everything before its batch succeeded |
| Verbs.IBVerbs.DoRemoteProgress | src/MPI/ibverbs.cpp:474-499 | every arrival taken is counted once, in the bucket of its immediate value; all are taken, up to the polling limit |
| Verbs.ArriveAllCounts | src/MPI/ibverbs.cpp:493-496 | after any arrivals, each bucket has grown by exactly the arrivals whose superstep falls into it |
| Verbs.IBVerbs.ProcessSyncRequest | src/MPI/ibverbs.cpp:501-541 | a visit finishes the request, enters the barrier, or changes nothing, as the protocol step says; the barrier is started exactly when the second phase begins |
| Verbs.IBVerbs.Sync | src/MPI/ibverbs.cpp:1081-1138 | the per-peer counts are handed over and restart at zero; a default sync waits for the exchanged count and empties the cache, a cached one waits for what the cache holds or, if it is empty, exchanges and fills it, a message-count one waits for just its count and touches neither; counts are exchanged in no other case; a second active request is an error that changes no request |
| SyncAttr.CountSurvives | src/MPI/ibverbs.cpp:1042-1049 | a message count in the sync attribute comes out unchanged, with or without the barrier flag, if and only if it is below 2^29 |
| SyncAttr.SmallCountDecodes | include/lpf/core.h:22-25 | such a count decodes to the message mode with that count, and the barrier exactly as given |
| SyncAttr.LargeCountIsCached | include/lpf/core.h:24-25 | the least count that is too large asks for a cached sync |
| SyncAttr.OtherModes | src/MPI/ibverbs.cpp:1047-1049 | for every value of the other bits: a default sync has a barrier with or without the flag, the other modes only with it; the fourth combination of mode bits has no mode |
| Superstep.FormedKept | src/MPI/ibverbs.cpp:1081-1138 | every step of the system keeps the tables in shape and the own count equal to the operations not yet completed |
| Superstep.StepCallsAlike | src/MPI/ibverbs.cpp:1093-1119 | processes that agree on a superstep make the same kinds of collective calls in it |
| Superstep.ScriptsAlike | src/MPI/ibverbs.cpp:1054-1119 | and so, superstep by superstep, over the whole program |
| SuperstepSafety.StepInWindow | src/MPI/ibverbs.cpp:494 | within 1024 supersteps each bucket stands for one superstep, and moves on by 1024 when that superstep is over |
| SuperstepSafety.StepOfOperation | src/MPI/ibverbs.cpp:768 | an operation that is in flight or delivered was issued in a superstep its source has reached, and is not in flight if its superstep is over |
| SuperstepSafety.CloseInWindow | src/MPI/ibverbs.cpp:493-541 | neighbours that stay close never use a bucket twice: no operation is more than one superstep ahead of its target |
| SuperstepSafety.EnoughIsEverything | src/MPI/ibverbs.cpp:520-525 | a bucket that reached the expected count has reached it exactly, and every operation addressed to the process in that superstep has arrived |
| SuperstepSafety.BarrierReached | src/MPI/ibverbs.cpp:504-511 | a completed barrier means that every process has consumed the arrivals of the superstep |
| SuperstepSafety.NeighboursCaughtUp | src/MPI/ibverbs.cpp:511-535 | a process leaves a superstep only when every neighbour has reached it, with a barrier every process |
| SuperstepSafety.IssueKeeps | src/MPI/ibverbs.cpp:733-768 | issuing keeps the invariant: issued operations are in flight or delivered, none is lost or doubled |
| SuperstepSafety.DeliverKeeps | src/MPI/ibverbs.cpp:492-497 | so does a delivery |
| SuperstepSafety.CallSyncKeeps | src/MPI/ibverbs.cpp:1093-1138 | so does the start of a sync |
| SuperstepSafety.ReturnExchangeKeeps | src/MPI/ibverbs.cpp:1107-1115 | so does the return of the count exchange, whose sum is what all others address to the process |
| SuperstepSafety.ConsumeKeeps | src/MPI/ibverbs.cpp:524-530 | so does taking the arrivals out of the bucket |
| SuperstepSafety.FinishKeeps | src/MPI/ibverbs.cpp:506-535 | so does the end of a superstep |
| SuperstepSafety.StepKeepsCore | src/MPI/ibverbs.cpp:431-541 | every step keeps everything but the buckets, as long as no bucket is taken as full too early, and the buckets of every process that nobody is a whole round ahead of |
| SuperstepSafety.StepKeeps | src/MPI/ibverbs.cpp:431-541 | every step of every process, in any order, keeps the invariant, as long as nobody is a whole round of buckets ahead |
| SuperstepSafety.StepKeepsClose | src/MPI/ibverbs.cpp:501-541 | every step keeps neighbours within one superstep of each other |
| SuperstepSafety.RunInv | src/MPI/ibverbs.cpp:431-541 | the invariant and the closeness hold in every state of every run |
| SuperstepRuns.EveryRunIsPlanned | src/MPI/ibverbs.cpp:733-734 | any run at all is a run of the program that plans just what the run issued |
| SuperstepRuns.ClosedStays | src/MPI/ibverbs.cpp:1093-1097 | once the sync of a superstep has taken over the counts, the process issues nothing more in that superstep |
| SuperstepRuns.SuperstepDelivers | src/MPI/ibverbs.cpp:501-541 | when a counter moves from k to k+1, every operation addressed to the process in superstep k has been delivered and its own have completed; after a barrier, those of superstep k to every process |
| SuperstepRuns.PlannedRunDelivers | src/MPI/ibverbs.cpp:501-541 | the same in every run of a well-synced program |
| SuperstepRuns.PlannedRunKeeps | src/MPI/ibverbs.cpp:519-524 | in every state, operations that share a bucket belong to one superstep, no bucket holds more than its sync expects, and neighbours are at most one superstep apart |
| SuperstepRuns.CollectivesMatch | src/MPI/ibverbs.cpp:1054-1115 | collective calls with the same number are of the same kind on every process |
| SuperstepPrograms.FilledExactly | src/MPI/ibverbs.cpp:1098-1114 | the cache is filled before a superstep exactly if there was a cached sync and no default sync since |
| SuperstepPrograms.CallsByMode | src/MPI/ibverbs.cpp:1054-1119 | the collective calls of a superstep, mode by mode: default syncs vote and exchange, cached ones exchange only with an empty cache, message-count ones call nothing but the barrier they ask for |
| SuperstepPrograms.RunStages | src/MPI/ibverbs.cpp:1054-1119 | in every run, a process that votes or exchanges has no request yet; only default syncs vote, and only they and cached ones with an empty cache exchange |
| SuperstepPrograms.CallsWait | src/MPI/ibverbs.cpp:1093-1138 | in every run, a message-count sync at once waits for just its count and a cached sync for the cached count, without a collective call and without touching the cache; all others exchange first |
| SuperstepPrograms.ExchangesWait | src/MPI/ibverbs.cpp:1106-1115 | in every run, an exchange returns only to a default sync, which empties the cache, or to a cached one, which fills it; the request waits for the sum of what all passed for the process |
| SuperstepPrograms.CacheHoldsExchange | src/MPI/ibverbs.cpp:1099-1115 | a filled cache holds what the last count exchange computed, whatever message-count syncs came in between |
| SuperstepPrograms.CacheFlagsAgree | src/MPI/ibverbs.cpp:1099-1113 | with the same modes everywhere the cache flags agree, so all processes enter an exchange or none does |
| SuperstepPrograms.CachedRefinesDefault | src/MPI/ibverbs.cpp:1093-1119 | if counts are repeated, the cached value is what the exchange would have returned |
| SuperstepPrograms.BarrierCountersClose | src/MPI/ibverbs.cpp:1049 | with a barrier in every superstep, all counters are equal or one apart |
| SuperstepPrograms.DefaultIsWellSynced | src/MPI/ibverbs.cpp:1107-1115 | default syncs meet every condition of the protocol |
| SuperstepPrograms.DefaultRunDelivers | src/MPI/ibverbs.cpp:1054-1138 | with default syncs, in any run and whatever is issued: when a process leaves superstep k, everything anybody ever issues in k, to anyone, has been delivered |
| SuperstepPrograms.BidirectionalPaces | src/MPI/ibverbs.cpp:519-540 | cached syncs without a barrier meet the conditions if whoever sends also receives |
| SuperstepPrograms.BarrierFreeDelivers | src/MPI/ibverbs.cpp:519-540 | then, over unboundedly many supersteps, processes that talk stay within one superstep, and leaving one still means that all of it has arrived |
| SuperstepLimits.Climb | src/MPI/ibverbs.cpp:519-540 | any assignment of supersteps below 1024 in which nobody is more than one ahead of its senders is reached by some run, with every connection in order |
| SuperstepDelivery.OneWayDrifts | examples/README:72-73 | if some traffic is one-way, an ordered run exists in which the sender gets two supersteps ahead |
| SuperstepDelivery.PaceNeedsBothDirections | examples/README:72-73 | without barriers, senders stay within one superstep in every reachable state if and only if all traffic is bidirectional, with or without connections in order |
| SuperstepWindow.TrailsAlong | src/MPI/ibverbs.cpp:519-540 | where l sends lead from q to x, process x is never more than l supersteps ahead of q, as long as nobody is more than one ahead of its senders |
| SuperstepWindow.QueueExact | src/MPI/ibverbs.cpp:519-525 | a process with a single sender takes its bucket as full only when all of the superstep has arrived, even if the bucket holds several supersteps |
| SuperstepWindow.StepKeepsFront | src/MPI/ibverbs.cpp:474-541 | what has arrived from a single sender is always a prefix in superstep order, and all buckets together hold what of it has not been taken out |
| SuperstepWindow.RunFits | src/MPI/ibverbs.cpp:493-541 | every state of every ordered run keeps nobody more than one superstep ahead of its senders, and the buckets of every process right in the one way or the other |
| SuperstepDelivery.WrapsAround | src/MPI/ibverbs.cpp:493-541 | if p and another process send to q and no short way leads back from q to p, an ordered run exists in which q leaves superstep 0 although an operation of the other one is missing: one of superstep 1024 has filled the bucket |
| SuperstepDelivery.DeliveryNeedsShortWaysBack | examples/README:72-73 | without barriers, every ordered run delivers everything before a superstep ends if and only if for every p that sends to q besides some other process fewer than 1024 sends lead back from q to p |
| SuperstepWindow.SingleSendersDeliver | src/MPI/ibverbs.cpp:519-540 | where every process hears from at most one, every ordered run delivers |
| SuperstepDelivery.RingDelivers | examples/README:60-61 | around a directed ring of any size, barrier-free supersteps deliver in every ordered run |
| SuperstepDelivery.RingWithSelfDelivers | examples/README:60-61 | if everybody also sends to itself, they do if and only if there are at most 1024 processes |
| SuperstepLate.LateMisleads | src/MPI/ibverbs.cpp:1093-1138 | if p may post to d after its sync has taken the counts over, then for any other process an ordered run exists in which d leaves superstep 0 although an operation of that process, issued in time, has not arrived |
| SuperstepLate.DeliveryNeedsNoneLate | src/MPI/ibverbs.cpp:1093-1138 | with default syncs and two processes or more, every ordered run delivers what is issued in time if and only if nobody may post while its sync is under way |
| SuperstepProgress.CallReturns | src/MPI/ibverbs.cpp:1054-1115 | a collective call of a slowest process returns once everybody has made as many calls of the superstep |
| SuperstepProgress.NeverStuck | src/MPI/ibverbs.cpp:501-541 | in every state the invariant allows, some process of the earliest superstep can take a step that its program allows, that keeps the connections in order and that changes something |
| SuperstepProgress.UsefulLowers | src/MPI/ibverbs.cpp:431-541 | every such step lowers the work left of the superstep: issues, deliveries, acknowledgements and stages of the sync |
| SuperstepProgress.SuperstepEnds | src/MPI/ibverbs.cpp:1054-1138 | every run of a well-synced program in which nobody is before superstep k can be continued until everybody is behind it, keeping the connections in order |
| SuperstepProgress.RunGoesOn | src/MPI/ibverbs.cpp:1054-1138 | so every run of a well-synced program can be continued to the profit of the slowest processes |
| RdmaChain.Put | src/MPI/ibverbs.cpp:725-777 | the chain is linked front to end, covers exactly the bytes asked for, contiguously on both sides; every message but the last is just as long as the limit; one signalled and one immediate-carrying request, the last; one request for size zero |
| RdmaChain.Get | src/MPI/ibverbs.cpp:800-868 | the same for reads, ended by an empty write between the bases of the two slots that alone is signalled and carries the counter |
| RdmaChain.FollowsAll | src/MPI/ibverbs.cpp:757-762 | following the links visits every request once, in order |
| RdmaChain.WritesAreOneCopy | src/MPI/ibverbs.cpp:743-777 | executing a tiling chain of writes is one copy, and changes nothing here |
| RdmaChain.ReadsAreOneCopy | src/MPI/ibverbs.cpp:810-837 | executing a tiling chain of reads is one copy, and changes nothing there |
| RdmaChain.PutIsOneCopy | src/MPI/ibverbs.cpp:715-789 | executing the chain of a put of any size is one copy, and completes once |
| RdmaChain.GetIsOneCopy | src/MPI/ibverbs.cpp:791-880 | executing the chain of a get of any size is one copy, and completes once |
| RdmaChain.ChunksStep | src/MPI/ibverbs.cpp:725 | the number of messages computed by division is the number of steps the loop takes |
| Grains.ShiftsAreArithmetic | src/MPI/messagesort.cpp:149-159 | shifting and masking by the grain power are division, multiplication and remainder |
| Grains.PaddingAligns | src/MPI/messagesort.cpp:149-152 | adding the padding, which is less than a grain, brings a position to the start of a grain |
| Grains.GrainsFit | src/MPI/messagesort.cpp:153-155 | the whole grains of a range inside a region lie inside its table |
| Regions.CutIsWhole | src/MPI/messagesort.cpp:147-159 | a grain is in the cut of a range if and only if it lies wholly in the range; the cut begins at the padding |
| Regions.WholeGrainIsCut | src/MPI/messagesort.cpp:147-159 | a range with a whole grain in it reaches beyond its padding, and its cut is not empty |
| PendingWrites.Writes.constructor | src/MPI/messagesort.cpp:201-204 | a new table has no pending grain |
| PendingWrites.Writes.Resize | src/MPI/messagesort.cpp:211-215 | growing keeps the pending grains and adds free ones |
| PendingWrites.Writes.Clear | src/MPI/messagesort.cpp:217-228 | everything is forgotten, and the bounds are right, exactly when not just one grain is pending |
| PendingWrites.ClearMissesGrain | src/MPI/messagesort.cpp:217-228 | a single grain written anywhere into an empty table is still there after clearing |
| PendingWrites.Writes.Push | src/MPI/messagesort.cpp:230-239 | each grain gets the larger of its label and id + 1; the bounds stay right exactly for the pushes that keep them |
| PendingWrites.Writes.Test | src/MPI/messagesort.cpp:241-245 | a grain can be written exactly if a push of the id would change it to the id, or it is behind the last |
| PendingWrites.Writes.Pop | src/MPI/messagesort.cpp:247-277 | there is a run exactly if a grain is pending; it is the leftmost maximal run of one id, and only it is removed |
| PendingWrites.Writes.Swap | src/MPI/messagesort.cpp:279-284 | the contents are exchanged |
| PendingWrites.LeftmostRunUnique | src/MPI/messagesort.cpp:251-262 | there is only one leftmost maximal run |
| PendingWrites.ClearingDrops | src/MPI/messagesort.cpp:254-259 | each pop lowers the number of pending grains, so draining ends |
| Regions.BeforeIsTotal | src/MPI/messagesort.hpp:54-57 | on regions that are kept apart, the ordering is a strict total order |
| Regions.EqualRange | src/MPI/messagesort.cpp:58 | the regions equivalent to a new one are exactly those that overlap or touch it |
| Regions.WithRegionSeparated | src/MPI/messagesort.cpp:58-84 | replacing them by one merged region keeps all regions apart |
| Regions.OverlapSharesRegion | src/MPI/messagesort.cpp:46-127 | registered slots that overlap or touch are in the same region |
| Regions.LowerBound | src/MPI/messagesort.cpp:58 | the number of leading regions that end before the new one begins; the next one does not |
| Regions.UpperBound | src/MPI/messagesort.cpp:58 | the number of leading regions that do not begin behind the new one; the next one does |
| Regions.MinBaseIsLeast | src/MPI/messagesort.cpp:61-78 | no region in the range or new one begins earlier than the base found, and one of them begins there |
| Regions.MaxEndIsGreatest | src/MPI/messagesort.cpp:61-78 | no region in the range or new one ends later than the end found, and one of them ends there |
| Regions.MinRegionIsOldest | src/MPI/messagesort.cpp:61-78 | the number found is the oldest among the regions in the range and the new one |
| MessageSorting.MessageSort.Extent | src/MPI/messagesort.cpp:61-78 | the loop finds the region that spans just the range and the new one |
| Regions.MergedFits | src/MPI/messagesort.cpp:61-84 | regions that neither overlap nor touch the new one stay strictly before or behind the merged region |
| Regions.KeepsLayout | src/MPI/messagesort.cpp:85-127 | storing the merged region keeps every live region in its place with a table of the right size |
| Regions.KeepsSlot | src/MPI/messagesort.cpp:99-127 | every slot registered before is still inside a live region at its own address |
| Regions.NewSlotPlaced | src/MPI/messagesort.cpp:120-127 | the new slot is inside the merged region at its own address |
| MessageSorting.MessageSort.SetSlotRange | src/MPI/messagesort.cpp:36-44 | more slots fit; the slots there are stay, and no label changes |
| MessageSorting.MessageSort.AddRegister | src/MPI/messagesort.cpp:46-127 | the state stays well formed: live regions apart, every registered slot inside its region with base + offset its address, none pointing to a discarded region; only the slot named changes its memory; the oldest region of a merge keeps its table of pending grains, by number, the others of the merge lose theirs, and nothing becomes pending |
| MessageSorting.MessageSort.DelRegister | src/MPI/messagesort.cpp:129-139 | the slot is set to no memory and no region; all others and all labels stay |
| MessageSorting.MessageSort.PushWrite | src/MPI/messagesort.cpp:142-160 | an address is labelled id + 1 exactly if its whole grain lies in the range pushed and its label was lower, else it keeps its label; the range returned covers exactly the addresses whose whole grain lies in the range pushed; the state stays well formed exactly when the table keeps its bounds |
| MessageSorting.MessageSort.PopWrite | src/MPI/messagesort.cpp:162-179 | succeeds exactly if something is pending; the range popped had the label of the id throughout and loses it, nothing else changes; fewer grains are pending |
| MessageSorting.MessageSort.CanWrite | src/MPI/messagesort.cpp:181-187 | exactly if no higher id has labelled the address |
| MessageSorting.MessageSort.Clear | src/MPI/messagesort.cpp:189-194 | all pending writes are gone exactly if no table has just one pending grain |
| MessageSorting.MessageSort.Empty | src/MPI/messagesort.cpp:196-199 | an empty dirty list means that nothing is pending |
| Serialisation.LabelIsHighest | src/MPI/messagesort.cpp:233-235 | the label of an address names the highest id that was pushed there |
| Serialisation.LabelsCommute | src/MPI/messagesort.cpp:233-235 | labels do not depend on the order of the pushes |
| Serialisation.AscendingLeavesLabel | include/lpf/core.h:276-288 | writes in ascending id order leave the data of the highest id at each address |
| Serialisation.DrainIsSerialisation | include/lpf/core.h:276-288 | copying the runs of a drain gives the memory of the serial writes |
| WriteConflicts.PushAll | src/MPI/messagesort.cpp:142-160 | after any pushes that cover at least one whole grain each, every label names the highest message whose range holds the whole grain of the address |
| WriteConflicts.AlignedExists | src/MPI/messagesort.cpp:147-159 | the addresses whose whole grain lies in a request are those of one write, and the request reaches beyond its padding |
| WriteConflicts.PopAll | src/MPI/messagesort.cpp:162-179 | popping until false yields disjoint runs that cover exactly the labelled addresses |
| WriteConflicts.Resolve | include/lpf/core.h:276-288 | pushing and draining, through any overlapping slots, gives the same memory at every address as performing the messages in ascending id order, each on just the addresses whose whole grain lies in its range |
| SparseSets.SwapKeepsInverse | src/common/sparseset.hpp:256-257 | the two swaps keep the tables mutually inverse |
| SparseSets.SparseSet.Reset | src/common/sparseset.hpp:66-95 | the set is empty with the new range |
| SparseSets.SparseSet.Extend | src/common/sparseset.hpp:98-128 | members and their order stay |
| SparseSets.SparseSet.Contains | src/common/sparseset.hpp:231-234 | exactly the members |
| SparseSets.SparseSet.Find | src/common/sparseset.hpp:218-228 | the position of a member in the iteration, else the end |
| SparseSets.SparseSet.Insert | src/common/sparseset.hpp:237-252 | the members grow by the element; a new one comes last in the iteration |
| SparseSets.SparseSet.Erase | src/common/sparseset.hpp:255-270 | the members lose the element; the last one in the iteration takes its place |
| SparseSets.SparseSet.Clear | src/common/sparseset.hpp:189-192 | the set is empty |
| SparseSets.SparseSet.OrderIsDistinct | src/common/sparseset.hpp:212-216 | iteration visits no element twice |
| SparseSets.SparseSet.IterationYieldsMembers | src/common/sparseset.hpp:212-216 | iteration visits exactly the members if and only if the minimum is zero or the set is empty |
| SparseSets.IterationIsShifted | src/common/sparseset.hpp:212-216 | the one member of a set comes out of the iteration lowered by the minimum |
| SparseSets.EraseOrder | src/common/sparseset.hpp:261-269 | erasing moves the last element of the iteration to the place of the erased one, and no other |
| SparseSets.EraseElements | src/common/sparseset.hpp:261-269 | erasing from the order removes just that element |
| SparseSets.SparseSet.constructor | src/common/sparseset.hpp:57-63 | an empty set |
| MessageSorting.MessageSort.constructor | src/MPI/messagesort.cpp:26-34 | no slots, no regions, nothing pending |
| MemoryRegisters.MemoryRegister.constructor | src/common/memreg.hpp:42-46 | no slot is live and none is free |
| CombinedRegisters.CombinedMemoryRegister.constructor | src/common/memreg.hpp:206-209 | two empty registers |
| CombinedRegisters.CombinedMemoryRegister.LookupReg | src/common/memreg.hpp:234-240 | the record of the live slot |
| CombinedRegisters.CombinedMemoryRegister.Update | src/common/memreg.hpp:242-248 | the record of just that slot changes |
| CombinedRegisters.ReserveKeepsRecords | src/common/memreg.hpp:250-255 | a reserve keeps every live slot and its record in both registers |
| CombinedRegisters.UpdateChangesOne | src/common/memreg.hpp:242-248 | an update changes one record and no liveness |
| Registrars.Registrar.constructor | src/MPI/ibverbs.cpp:93 | no registrations |
| MemoryTables.MemoryTable.RegisterAll | src/MPI/memorytable.cpp:95-103 | the dirty slots are registered in list order, each with its own all-gather result; what the process contributes is the address and size of each |
| Messaging.Messenger.constructor | src/MPI/mpilib.cpp:43-69 | no messages |
| Messaging.DequeueDropsNull | src/MPI/mpilib.cpp:360-370 | exactly the pairs with a null request go |
| Messaging.CutsAreMultiples | src/MPI/mpilib.cpp:246-356 | fragment i begins at i times the limit, as far as the message reaches |
| Abort.Interface.constructor | src/MPI/interface.cpp:75-79 | the run goes on |
| MemoryRegisters.LiveSize | src/common/memreg.hpp:187-195 | the live slots are those dealt out less the free list, which has no duplicates |
| MemoryRegisters.RoomForOne | src/common/memreg.hpp:84-98 | a record fits exactly if fewer slots are live than there are |
| MemoryRegisters.FreeListFits | src/common/memreg.hpp:105-117 | removing a live slot never makes the free list outgrow its allocation |
| MemoryRegisters.AddTakesSlot | src/common/memreg.hpp:80-100 | the slot returned was not live, and no live record changes |
| MemoryRegisters.RemoveFreesSlot | src/common/memreg.hpp:103-118 | exactly the slot given is freed |
| MemoryRegisters.AddTakesBack | src/common/memreg.hpp:80-118 | the slot freed last is dealt out first, which takes the removal back, if and only if it was not the highest one with others still free |
| MemoryRegisters.ReserveKeepsSlots | src/common/memreg.hpp:139-185 | growing and shrinking keep every live slot and its record |
| MemoryRegisters.RunMatchesLedger | src/common/memreg.hpp:29-34 | every run of allowed calls, with any reserves, behaves like an unbounded register |
| MemoryRegisters.SlotsIgnoreReserves | src/common/memreg.hpp:29-34 | two registers with the same additions and removals return the same slots and hold the same live records, whatever was reserved |
| MemoryRegisters.MemoryRegister.Add | src/common/memreg.hpp:80-100 | the slot handed out was not live, holds the record, and is the only one that becomes live |
| MemoryRegisters.MemoryRegister.Remove | src/common/memreg.hpp:103-118 | just that slot is freed, no record changes, and the free list stays within its capacity |
| MemoryRegisters.MemoryRegister.Reserve | src/common/memreg.hpp:139-185 | there are as many slots as asked for, or as were dealt out if that is more; live records are unchanged |
| CombinedRegisters.SlotsAreUnique | src/common/memreg.hpp:267-281 | odd and even slots never meet, and each number names one entry |
| CombinedRegisters.LiveInRange | src/common/memreg.hpp:262-265 | every live slot is below the range |
| CombinedRegisters.AddGains | src/common/memreg.hpp:216-224 | an addition makes one slot of its kind live and keeps all other live records |
| CombinedRegisters.RemoveLoses | src/common/memreg.hpp:226-232 | a removal frees one slot and keeps all other live records |
| CombinedRegisters.CombinedMemoryRegister.AddLocalReg | src/common/memreg.hpp:216-219 | the odd number of the slot the local register hands out; the global register is untouched |
| CombinedRegisters.CombinedMemoryRegister.AddGlobalReg | src/common/memreg.hpp:221-224 | the even number of the slot the global register hands out; the local register is untouched |
| CombinedRegisters.CombinedMemoryRegister.RemoveReg | src/common/memreg.hpp:226-232 | the entry is freed in the register the parity names; the other register is untouched |
| CombinedRegisters.CombinedMemoryRegister.Reserve | src/common/memreg.hpp:250-255 | both registers have room, live records unchanged |
| Registrars.Registrar.RegLocal | src/MPI/ibverbs.cpp:636-665 | a new local entry that knows its own memory and nobody else's |
| Registrars.Registrar.RegGlobal | src/MPI/ibverbs.cpp:667-707 | contributes the address and the size to the all-gather; a new global entry with what the all-gather returned |
| Registrars.Registrar.Dereg | src/MPI/ibverbs.cpp:709-713 | just that entry is freed |
| Registrars.Registrar.ResizeMemreg | src/MPI/ibverbs.cpp:579-597 | room for more entries, live ones unchanged |
| MemoryTables.AddLocalConserves | src/MPI/memorytable.cpp:36-41 | live registrations stay exactly the verb ids of the live slots off the dirty list, one each; the new slot has the address and size passed, and the process has these on record behind its verb id |
| MemoryTables.AddGlobalConserves | src/MPI/memorytable.cpp:43-50 | the same; the slot has the address and size passed and no verb id, and comes last on the dirty list |
| MemoryTables.RemoveDirtyConserves | src/MPI/memorytable.cpp:54-56 | the same for a slot that was not registered yet |
| MemoryTables.RemoveCleanConserves | src/MPI/memorytable.cpp:57-60 | the same for a registered slot, whose registration ends |
| MemoryTables.GrowConserves | src/MPI/memorytable.cpp:64-72 | the same when the table grows |
| MemoryTables.RegisterConserves | src/MPI/memorytable.cpp:95-102 | the same after each registration of a sync; no address or size changes, and behind the slot is what its all-gather returned |
| MemoryTables.SyncRegistersAll | src/MPI/memorytable.cpp:89-109 | a sync empties the dirty list, registers every live slot and changes no address or size |
| MemoryTables.MemoryTable.constructor | src/MPI/memorytable.cpp:25-33 | an empty table |
| MemoryTables.MemoryTable.AddLocal | src/MPI/memorytable.cpp:36-41 | the memory is registered at once: the slot has the address and size passed, and its registration is the process's own; live registrations stay the verb ids of the clean slots, one each |
| MemoryTables.MemoryTable.AddGlobal | src/MPI/memorytable.cpp:43-50 | the slot has the address and size passed and no verb id, and comes last on the dirty list; nothing is registered yet; conservation as above |
| MemoryTables.MemoryTable.Remove | src/MPI/memorytable.cpp:52-61 | a waiting slot leaves the dirty list, another one gives up its registration; conservation as above |
| MemoryTables.MemoryTable.Reserve | src/MPI/memorytable.cpp:64-72 | no slot, registration or dirty list entry is lost, and the dirty list covers every slot number there can be |
| MemoryTables.MemoryTable.Sync | src/MPI/memorytable.cpp:89-109 | every waiting slot is registered, in list order, each contributing its address and size and keeping its own all-gather result; the list is empty; conservation as above |
| Replicas.RunFits | src/MPI/memorytable.cpp:43-109 | whatever a process does locally, its global slots, dirty list, verb ids and order of collectives are determined by the shared calls |
| Replicas.ReplicasAgree | src/MPI/memorytable.cpp:43-109 | processes with the same shared calls got the same slots, have the same dirty list in the same order, paired the same slot in every collective registration, and have the same verb ids |
| Replicas.RunRemembers | src/MPI/memorytable.cpp:36-109 | after any calls, a slot is live exactly if the call that returned it is not undone, and its address and size are those passed to that call |
| Replicas.TranslatesAddresses | src/MPI/ibverbs.cpp:688-707 | for every synced live global slot, what p has on record for q is the address and size that q passed to the call which returned the slot |
| Replicas.FindsOwnMemory | src/MPI/ibverbs.cpp:636-665 | behind a local slot a process has on record for itself the address and size it passed |
| SwapRemoval.SweepUpSweeps | src/MPI/mpilib.cpp:658-670 | the upward scan removes every finished entry and keeps every other as often as it was there |
| SwapRemoval.SweepDownSweeps | src/MPI/mpilib.cpp:360-370 | so does the downward scan |
| NbxSends.Sends.PostAll | src/MPI/mpilib.cpp:599-609 | every send starts its first fragment, within the limit and as long as the limit unless it is the last |
| NbxSends.Sends.Post | src/MPI/mpilib.cpp:645-656 | the next fragment of a send starts behind the last one, not empty if bytes are left, within the limit, and as long as the limit unless it is the last; no other send changes |
| NbxSends.Sends.RemoveFinished | src/MPI/mpilib.cpp:658-670 | the four parallel arrays describe the same unfinished sends as before, and no finished one |
| Nbx.PostedFits | src/MPI/mpilib.cpp:599-609 | a new fragment starts where the receiver left off and is not one that was matched before |
| Nbx.FlightContinues | src/MPI/mpilib.cpp:622-635 | a fragment in flight is exactly what its receiver lacks next of that send |
| Nbx.StepKeeps | src/MPI/mpilib.cpp:599-684 | every step of every process keeps the invariant |
| Nbx.AllEnteredIsQuiet | src/MPI/mpilib.cpp:671-683 | once all have entered the barrier, nothing is in flight and all sends are through |
| NbxDelivery.NeverOverflows | src/MPI/mpilib.cpp:627-628 | with enough receive space, no fragment exceeds what is left of it |
| NbxDelivery.MessagesKeepLimit | src/MPI/mpilib.cpp:599-656 | in every state of every run, each message in flight or received is not empty and within the limit, and one that does not end its send is as long as the limit |
| NbxDelivery.LeavingIsSafe | src/MPI/mpilib.cpp:599-684 | when any process leaves the loop, nothing is in flight, every process has received exactly what is sent to it, and each send arrived in order |
| NbxDelivery.PayloadIsPrefix | src/MPI/mpilib.cpp:629-634 | the bytes received of a send, put together, are the sent bytes up to there |
| NbxProgress.EntersBarrier | src/MPI/mpilib.cpp:599-684 | until all have entered the barrier, some process can take a step other than leaving that lowers the work left |
| NbxProgress.NeverStuck | src/MPI/mpilib.cpp:611-684 | as long as a process has not left the loop, some process can take a step that lowers the work left |
| NbxProgress.EveryRunEnds | src/MPI/mpilib.cpp:611-684 | any run can be continued until every process has left |
| NbxSeries.GatedDelivers | src/MPI/mpilib.cpp:569-685 | if nobody sends in a second exchange to a process it has not waited for after the first, both exchanges keep their promise in every run |
| NbxSeries.UngatedMixes | src/MPI/mpilib.cpp:579 | one send that is not so gated is enough: a run without overtaking exists in which its receiver takes a fragment for the first exchange and has more bytes than it is owed |
| NbxSeries.SeparateExactly | src/MPI/mpilib.cpp:569-685 | two exchanges keep apart in every run if and only if nobody starts the second towards a process that has not returned from the first, whether or not messages may overtake each other |
| NbxSeries.BarrierSeparates | src/MPI/mpilib.cpp:569-685 | a barrier between the two calls is enough |
| Messaging.Messenger.Isend | src/MPI/mpilib.cpp:246-286 | the first fragment goes out, within the limit and shorter than it only if it is all; a longer message is remembered with an active request, and a short one leaves an active request exactly if it is not empty |
| Messaging.Messenger.Irecv | src/MPI/mpilib.cpp:288-297 | the receive is remembered under its tag, empty ones counted |
| Messaging.Messenger.Continue | src/MPI/mpilib.cpp:322-356 | the next fragment begins behind the last and is not empty; the last one leaves a null request behind and an active one to wait for |
| Messaging.Messenger.Dequeue | src/MPI/mpilib.cpp:359-370 | sends and requests stay aligned; exactly the pairs with a null request go |
| Messaging.Messenger.Receive | src/MPI/mpilib.cpp:384-406 | the fragment lands where the last one ended; the receive advances or is finished |
| Messaging.Messenger.StartWaiting | src/MPI/mpilib.cpp:310 | as many receives are waited for as are not empty |
| Messaging.Messenger.Finish | src/MPI/mpilib.cpp:408-411 | with nothing waited for and no long send left, the receives are forgotten; the small requests are still there |
| Messaging.Messenger.Drain | src/MPI/mpilib.cpp:413-419 | once these are complete as well, the next round starts from an empty state |
| Fragments.ActiveLarge | src/MPI/mpilib.cpp:322-331 | a long send records the fragment that went out last, whatever was continued or removed before |
| Fragments.HeadFits | src/MPI/mpilib.cpp:381-392 | what arrives is the next fragment of the message its receive is for, of just the length posted |
| FragmentRuns.StepKeeps | src/MPI/mpilib.cpp:246-426 | every step of every process keeps the invariant |
| FragmentRuns.RunIsSafe | src/MPI/mpilib.cpp:315-387 | in every run, no assertion fails and no message is longer than the receive posted for it |
| FragmentRuns.RoundDelivers | src/MPI/mpilib.cpp:299-426 | when any process leaves the final barrier, every receive buffer equals the bytes sent and no message is on any wire |
| FragmentRuns.StepProgresses | src/MPI/mpilib.cpp:311-408 | continuing a send or receiving a fragment leaves fewer bytes outstanding |
| FragmentRuns.AllSendsAwaited | src/MPI/mpilib.cpp:413-419 | the wait behind the loop covers every message of the process exactly once, with its only or its last request, and as many of these are active as messages are not empty |
| FragmentProgress.UsefulLowers | src/MPI/mpilib.cpp:246-426 | every useful step lowers what its process has left to do |
| FragmentProgress.EveryRunEnds | src/MPI/mpilib.cpp:299-426 | any run of a matched round can be continued until every process has left the barrier |
| FragmentRuns.NeverStuck | src/MPI/mpilib.cpp:299-426 | as long as a process has not left the barrier, some process can take a useful step, even if MPI completes no send before its message is received |
| Abort.MessageQueue.Sync | src/MPI/mesgqueue.cpp:197-214 | casts a vote exactly if it is a default sync: the own wish to stop and whether the queue was resized; returns the sum of the votes to stop if that is not zero, otherwise, and in every other sync, the own wish; the resize flag survives exactly if the sync is aborted |
| Abort.Interface.Abort | src/MPI/interface.cpp:156-162 | votes to stop; the process knows afterwards that the run ends, and how many stop |
| Abort.Interface.Sync | src/MPI/interface.cpp:169-184 | a default sync succeeds exactly if the sum of the votes is zero, any other one leaves the run as it is; once aborted, a sync fails, casts no vote and changes nothing |
| Abort.Hook | src/MPI/process.cpp:248-275 | takes part in the rounds up to the first nonzero sum or its own vote, votes to stop in none but that, and succeeds exactly if that is its own and counts every process |
| Abort.SumIs | src/MPI/ibverbs.cpp:1054-1072 | a round in which all take part has no vote to stop before the last round, and there as many as processes stop first; the second sum is the number of resized queues |
| Abort.StepKeeps | src/MPI/interface.cpp:156-184 | every step keeps each process on the course that the program alone determines |
| Abort.ProcessesAgree | src/MPI/process.cpp:252-275 | whoever knows of the end took part in exactly min + 1 rounds and knows the same sum; a process that finished succeeds if and only if all make equally many syncs |
| Abort.HookAgrees | src/MPI/process.cpp:252-275 | with the sums of the rounds, the running code gives that verdict |
| Abort.RoundSums | src/MPI/ibverbs.cpp:1059-1072 | and those are the sums of every run; all learn alike whether connections are set up anew |
| Abort.CollectivesMatch | src/MPI/mesgqueue.cpp:197-214 | processes never disagree about which collective a call is: registrations, votes, rewiring, count exchanges or barriers |
| Abort.NoMoreCalls | src/MPI/interface.cpp:169-175 | once a process knows of the end, it starts no collective any more |
| Abort.StepsRise | src/MPI/process.cpp:252-275 | every step but a refused sync leads its process further, up to a bound |
| Abort.NeverStuck | src/MPI/process.cpp:252-275 | as long as one process has not finished, some process can go on |
| AbortProgress.EveryRunEnds | src/MPI/process.cpp:252-275 | any run can be continued until every process has finished, all with the same verdict: success if and only if all make equally many syncs |
| MicroMsg.VarintLength | src/common/micromsg.hpp:49-57 | a number takes one byte for every seven bits, and at least one |
| MicroMsg.VarintDigits | src/common/micromsg.hpp:49-57 | byte i of an encoding holds bits 7i to 7i + 6 of the number, and has the high bit set exactly if it is not the last |
| MicroMsg.PrefixFree | src/common/micromsg.hpp:49-57 | no encoding is a prefix of another |
| MicroMsg.ReadsBack | src/common/micromsg.hpp:71-90 | where a number is written, reading ends behind it with its value reduced to the width of the type |
| MicroMsg.NarrowRead | src/common/micromsg.hpp:82-87 | the value is the one written if and only if it fits the type read |
| MicroMsg.MicroMsg.Write | src/common/micromsg.hpp:43-60 | exactly the bytes of the encoding are written, at the position, which moves behind them |
| MicroMsg.MicroMsg.WriteBlob | src/common/micromsg.hpp:62-67 | exactly the blob is written |
| MicroMsg.MicroMsg.Read | src/common/micromsg.hpp:70-90 | the number up to the first byte without the continuation bit |
| MicroMsg.MicroMsg.ReadBlob | src/common/micromsg.hpp:92-97 | the bytes at the position |
| MicroMsg.RoundTrip | src/MPI/ipcmesg.hpp:124-217 | any list of numbers and blobs comes back with the same schema if and only if every number fits its field, which otherwise keeps the remainder; reading ends where writing ended, and the rest of the buffer is untouched |

## Left out

- Device, queue-pair and completion-queue set-up, reconnecting queue pairs, and the tasks of the runtime system that a completion wakes up: foreign calls.
- Exceptions, allocation failure, failing registrations and posts: the model follows the calls that succeed, and the error of a bad completion and of a second active request.
- Wrap-around of `int` counters and of `size_t` sums: counters are naturals, of which the code uses the value mod 1024.  The number of messages of a put or get is not cut to an `int`.
- Memory keys of registrations: only addresses and sizes are exchanged in the model.
- What follows a late operation (`SuperstepLate`) beyond the superstep it misleads: its count is expected in the next one.
- More than two sparse all-to-alls in a row: `NbxSeries` is about one and the next.
- Fairness: the progress theorems say that useful steps exist and that they come to an end, not that a scheduler takes them.
- Atomics beyond their counting: like a put they count one operation and end with one empty write with immediate value.
- Votes inside the superstep system do not abort there; stopping early is modelled on its own.  Cached and message-count syncs with unequal numbers of syncs exchange no votes, so nothing is promised for them.
- `SparseSet::shrink` (src/common/sparseset.hpp:131-177): it does not keep the two tables inverse in general, and the register path only grows.
- Zero-grain pushes (src/MPI/messagesort.cpp:151-155): a range shorter than its padding makes the size wrap around.
- Self-puts whose source and target overlap: a put and a get copy between two memories.
- `ipcmesg.hpp` in debug mode adds text before every item; its release-mode loops are those of `MicroMsg`.  Its check that a blob is shorter than what is left of the buffer, not just as long, is off in release mode.
- `rng.c`, machine parameters, timing, example solvers, `dlopen` look-ups and the TCP bootstrap.
- Registrars.Registrar.RegLocal: records the address and the size, not the keys of the device registration.
- Registrars.Registrar.RegGlobal: records the address and the size, not the keys; follows the registrations that succeed everywhere, so the all-reduce by which a failure is announced is not modelled.
- Abort.MessageQueue.Sync: starts behind the registration of the waiting slots, which is MemoryTables.MemoryTable.Sync; its collectives, and the matching of registrations they presuppose, are part of the system of processes in `Abort`.
- SuperstepProgress.SuperstepEnds: says nothing of programs whose processes stop syncing after different numbers of supersteps; `Abort` is about them.
- Verbs.IBVerbs.Sync: starts after the spin loop that waits for local completion, which only the progress engine can end; in the transition system the step waits for it.
- MessageSorting.MessageSort.PushWrite: needs the range to reach beyond its padding, see zero-grain pushes.
- MemoryTables.MemoryTable.Reserve: only grows, as its one caller does (src/MPI/mesgqueue.cpp:95-99).
- MemoryRegisters.MemoryRegister.Reserve: takes as a parameter whether the free list could be copied to a tighter allocation.
- NbxDelivery.NeverOverflows: assumes that the receive space is at least the sum of what is sent to the process; otherwise the code throws.
- FragmentRuns.RoundDelivers: assumes that sends and receives match one to one by destination and tag with equal sizes, as callers must.
- SyncAttr.SmallCountDecodes: the converse is in CountSurvives, on the fields of the attribute as bit vectors.
