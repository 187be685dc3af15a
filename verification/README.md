# Block I/O schedulers: a verified model

This project models the request schedulers of the repository and proves what they promise about
every request, every run and every reachable state. The centre is the CFQ scheduler
(`cfq_experiment/cfq-iosched.c`): pending requests indexed per queue, queues on service trees per
group, groups on a weighted fair tree, queues that merge and split under reference counts, and the
selection and drain loops over all of that. Beside it stand the elevator's dispatch list, a deadline
scheduler and two start-time fair queueing drivers.

How the source is represented:

- A structure that the source updates in place is a class (`CfqData`, `CfqGroups`, `CfqRefs`,
  `GroupServiceTree`, `RequestQueue`, `DeadlineData`, two `SfqData`, `CfqTtime`). Its handlers keep
  the order of steps, the branches and the loops of the source. Their contracts tie the new state to
  functions of the old one, and the lemmas are about those functions and about whole runs.
- Pointers to queues, groups and requests are numbers, tables of structures are maps. A freed queue
  leaves its map, and its number may be used again.
- A red-black tree is its in-order sequence. `RbTree` proves the insertion and search walks on real
  trees against it. Rebalancing keeps the order and is not modelled.
- Every `BUG_ON` on the paths modelled, and the loop and weight warnings, are assertions, so each is
  proved unreachable.
- Handlers run under the queue lock and are atomic steps. Clocks, timers, estimates of idling and
  seeking, the close-cooperator search and the charge of a slice are parameters: a contract holds for
  every value of them.
- Integers are unbounded except where 64-bit arithmetic matters: the group tree's wrapping virtual
  time (`GroupTree64`), the service-tree keys (`ServiceRoot`) and the think-time sums (`ThinkTime`).

The files: `Kernel`, `Seqs`, `Ordered`, `RbTree`, `Requests` (common ground); `RequestChoice`,
`RequestIndex` (one queue's requests); `Elevator`; `ServiceRoot` (a tree with its leftmost cache, and
the keys); `GroupTree`, `GroupTree64`, `Turns` (virtual disk time, and whose turn it is); `CfqState`,
`CfqCore` (round robin, selection, dispatch, drain, lifetime of queues); `Hierarchy`, `Fractions`
(weights); `MergeRefs` (references and merge chains); `ThinkTime`; `Deadline`; `TagHeap`, `Sfq4`,
`Sfq14`.

What the source does that a reader might not expect:

- With differing PRIO flags the neighbour search for the next request can miss the best one
  (`RequestChoice.FindNextMissesPrio`); `RequestChoice.FindNextIsBest` says exactly when it does not.
- A queue put "at the front" of its tree can go to the back when the first key is below one second
  (`ServiceRoot.FrontBecomesFirst` and `ServiceRoot.FrontOfRest` give the exact conditions).
- A slice can be charged zero (`GroupTree.ChargeIsZero` says exactly when). Rounds that charge nothing
  serve only the groups that tie for the first place (`GroupTree.ZeroChargeStarves`); the rounds that
  do charge bound every wait (`GroupTree.BoundedWait`).
- Selection hands the disk to a close cooperator without looking at the group tree, so a group may be
  charged though another one is first (`Turns.CooperatorPassesFirst` is such an input). The first
  group falls behind in a takeover exactly if the charge just before was at least its lead over the
  second one (`CfqCore.CfqData.SelectQueue`), and every charge that is not of the first group, forced
  drains included, comes from such a takeover (`CfqCore.CfqData.Run`).
- Group times 2^63 or more past the base are ordered wrongly, and a group that joins there goes first
  instead of last (`GroupTree64.KeyFlipsOutsideWindow`, `GroupTree64.GroupServiceTree.Join`).
- A process that changes its cgroup while its queue is scheduled to merge leaves one reference on the
  next queue (`MergeRefs.CfqRefs.BlkcgChanged`). It is never dropped, so that queue is never freed
  (`MergeRefs.CfqRefs.Run`); `MergeRefs.LeakOnCgroupChange` ends with such a queue and nothing else.
- The heap of `sfq_4.c` never holds more than one request, so that driver is plain round robin.
- In `sfq-sched_14.c` tags leave in order exactly if no request is added after one with a larger tag has
  left (`Sfq14.InOrderIffNoLateAdd`), which overlapping arrivals can bring about
  (`Sfq14.OverlapBreaksOrder`).

## Model

| member | source | states |
|---|---|---|
| RbTree.InsertWalk | elevator_experiment/elevator.c:297-316 | the walk on a real tree links a node behind every node whose key is not greater, whatever the tree's shape; its left flag is set exactly when the new node is the first |
| RbTree.Find | elevator_experiment/elevator.c:326-345 | the binary search finds a node with the key if and only if the tree has one |
| RbTree.LinkInOrder | cfq_experiment/cfq-iosched.c:2272-2297 | linking at a leaf changes the in-order sequence at one place and nowhere else |
| RequestChoice.AsGoodTotalPreorder | cfq_experiment/cfq-iosched.c:1101-1184 | the choice between two requests is a total preorder whose ties are equal flags and equal position |
| RequestChoice.ChooseReqIsBest | cfq_experiment/cfq-iosched.c:1101-1184 | the nested tests and the switch pick the better request, and the first on a tie |
| RequestChoice.ScanOrderIndependent | cfq_experiment/cfq-iosched.c:1101-1184 | folding the choice over the same requests in any two orders gives equally good results |
| RequestChoice.FindNextIsBest | cfq_experiment/cfq-iosched.c:1232-1254 | looking only at the neighbours and the wrapped first request gives a request as good as the best of all others, and as the result of a full scan, if and only if no other request has higher flags than both neighbours and, when these differ in flags, none with the flags of the leading one is nearer at a place that one does not cover |
| RequestChoice.FindNextMissesPrio | cfq_experiment/cfq-iosched.c:1232-1254 | a named queue of three requests that agree on sync: the search returns the plain neighbour, a full scan the PRIO request behind it |
| RequestIndex.InsertKeepsInv | cfq_experiment/cfq-iosched.c:2446-2472 | insertion adds exactly one request to both lists, keeps sector order and membership, the counters add up to the size, and the next request is at least as good as the old one and the new one |
| RequestIndex.RemoveKeepsInv | cfq_experiment/cfq-iosched.c:2523-2539 | removal takes exactly the request from both lists, keeps the cached next request consistent, and the two counters add up to the size |
| RequestIndex.StillQueued | cfq_experiment/cfq-iosched.c:2423-2431 | the counter of a pending request's class is never zero, so the BUG_ON of the removal cannot fire |
| RequestIndex.DispatchKeepsInv | cfq_experiment/cfq-iosched.c:3010-3025 | dispatch by next request or FIFO head removes exactly that request from both lists and leaves a pending next request unless the queue is empty |
| RequestIndex.MergeKeepsInv | cfq_experiment/cfq-iosched.c:2572-2603 | a same-queue merge drops exactly the absorbed request, gives the survivor the earlier expiry and, if that was the absorbed one's, its place in the FIFO, and hands over a cached next request |
| RequestIndex.RepositionKeepsInv | cfq_experiment/cfq-iosched.c:2474-2482 | a front merge moves one request to its new sector and changes no other, its FIFO place included |
| Elevator.RequestQueue.DispatchSort | elevator_experiment/elevator.c:351-387 | the backward scan links the request behind the last entry it must not cross, and only the sorted count and the merge hint change besides |
| Elevator.TailStaysLast | elevator_experiment/elevator.c:395-409 | with the boundary that a tail insertion sets, the next sorted request goes in front of the tail request if and only if the two may cross, the tail request is not empty and the other does not start inside it |
| Elevator.TailStaysLastOverRuns | elevator_experiment/elevator.c:395-409 | so it stays last over any sequence of such requests |
| Elevator.DispatchKeepsRunSorted | elevator_experiment/elevator.c:351-387 | insertion keeps every barrier-free, one-direction suffix sorted in the circular order that starts at the boundary |
| Elevator.DispatchAllKeeps | elevator_experiment/elevator.c:351-387 | so does any sequence of insertions, which adds exactly the given requests |
| Elevator.PrefixUntouched | elevator_experiment/elevator.c:351-387 | over any sequence nothing up to and including a barrier, or the last entry before a change of operation or direction, moves; all new requests join what lies behind |
| Elevator.DispatchStable | elevator_experiment/elevator.c:351-387 | insertion is stable: old entries keep their order, and equal positions queue in order of arrival |
| Elevator.BatchComesOutSorted | elevator_experiment/elevator.c:351-387 | behind a barrier any batch of one kind comes out as one circularly sorted permutation |
| ServiceRoot.FirstIsMinimum | cfq_experiment/cfq-iosched.c:1189-1202 | the cached leftmost node is the minimum of the tree, or the tree is empty |
| ServiceRoot.CacheCorrectOverRuns | cfq_experiment/cfq-iosched.c:1189-1227 | the cache, the order and the count stay correct over every sequence of insertions, erasures and lookups |
| ServiceRoot.FrontBecomesFirst | cfq_experiment/cfq-iosched.c:2254-2297 | a queue added at the front becomes first if and only if the tree is empty or its first key is at least one second |
| ServiceRoot.FrontOfRest | cfq_experiment/cfq-iosched.c:2254-2297 | a queue requeued at the front of the tree it leaves becomes first if and only if the first key is at least one second, nobody else is left, or the first key left is nearly 2^64 behind the old first one; if another queue was first, only the underflow matters |
| ServiceRoot.IdleGoesLast | cfq_experiment/cfq-iosched.c:2239-2248 | an idle-class queue joins behind all others if and only if its key does not overflow |
| ThinkTime.CfqTtime.UpdateIoThinktime | cfq_experiment/cfq-iosched.c:3881-3891 | no intermediate 64-bit value wraps, the mean is never divided by zero and the total stays within twice the idle slice times samples plus 7 |
| ThinkTime.UpdateStep | cfq_experiment/cfq-iosched.c:3881-3891 | the samples rise strictly until they stay at 249 |
| ThinkTime.MeanBounded | cfq_experiment/cfq-iosched.c:3881-3891 | over every update sequence the mean is bounded by (2 * slice_idle * (samples + 7) + 128) / samples |
| GroupTree.FloorNeverPasses | cfq_experiment/cfq-iosched.c:999-1008 | over every run of lookups, charges of any group, joins and leaves the base time only rises and never passes a group on the tree |
| GroupTree.JoinKeepsInv | cfq_experiment/cfq-iosched.c:1374-1397 | a join keeps the tree sorted with the newcomer at or above the base |
| GroupTree.RoundSpread | cfq_experiment/cfq-iosched.c:1483-1510 | charging the first group never spreads a fixed set of groups wider than the old spread or the charge |
| GroupTree.SpreadOverRounds | cfq_experiment/cfq-iosched.c:1483-1510 | so over all rounds the spread stays below the larger of the initial spread and the largest charge |
| GroupTree.ProportionalShares | cfq_experiment/cfq-iosched.c:1483-1510 | over any rounds on a fixed set the scaled charges of two groups differ by at most twice the bound on spread and charges, and so their service divided by their fractions, up to the rounding of each round |
| Fractions.ServiceFollowsFractions | cfq_experiment/cfq-iosched.c:971-979 | with the fractions stored by the weighted hierarchy, the service of any two groups on the tree is proportional to them within that bound |
| GroupTree.WaiterIsServed | cfq_experiment/cfq-iosched.c:1374-1397 | a waiting group is served once more charged rounds of the first group pass than the others can take before its time, though others leave and rejoin, rounds charge nothing and other groups are charged in between |
| Turns.FirstStays | cfq_experiment/cfq-iosched.c:1374-1448 | the first group stays first when others join, which go behind it, when others leave, and when it is looked up |
| Turns.ChargedStaysFirst | cfq_experiment/cfq-iosched.c:1483-1510 | a first group that is charged stays first if and only if its lead over the second one is larger than the charge |
| Turns.ChargesAreFirstOrAstray | cfq_experiment/cfq-iosched.c:3301-3312 | in every run of activations and charges, a charge that is not of the first group comes from a cooperator that took over directly after a charge of its own group had put another one first |
| Turns.CooperatorPassesFirst | cfq_experiment/cfq-iosched.c:3301-3312 | with two groups one unit apart this takes place exactly for charges of one unit or more |
| GroupTree.BoundedWait | cfq_experiment/cfq-iosched.c:971-979 | the wait is at most groups * (spread / 4096 + 1) charged rounds |
| GroupTree.ScaleChargeAtLeast | cfq_experiment/cfq-iosched.c:971-979 | a charge advances the virtual time by at least 4096 times itself, and a round counts as charged exactly if its charge is not zero |
| GroupTree.ScaleFitsBelow40Bits | cfq_experiment/cfq-iosched.c:971-979 | the wrapping 64-bit shift gives the exact scaled charge if and only if the charge is below 2^40 ns; at 2^40 it gives zero |
| GroupTree.ChargeIsZero | cfq_experiment/cfq-iosched.c:1450-1510 | a slice is charged nothing exactly when it is counted in requests and dispatched none, or is measured against a slice never set |
| GroupTree.ZeroChargeStarves | cfq_experiment/cfq-iosched.c:1483-1510 | on every tree, n rounds that charge nothing serve the group at place i if and only if it ties with the first one and i < n |
| GroupTree64.KeyIsDistance | cfq_experiment/cfq-iosched.c:1266-1270 | within 2^63 of the base the wrapped key is the true distance |
| GroupTree64.KeyOrderIndependentOfFloor | cfq_experiment/cfq-iosched.c:981-1008 | advancing the base inside the window never reorders two groups, whose order is that of their true times |
| GroupTree64.KeyFlipsOutsideWindow | cfq_experiment/cfq-iosched.c:1266-1270 | two times less than 2^64 past the base are ordered as they should be if and only if the later one is within 2^63 of it or neither is |
| GroupTree64.SeenIs | cfq_experiment/cfq-iosched.c:1266-1270 | the time a wrapped key stands for has the same 64-bit word, and is the true time if and only if that is within 2^63 of the base |
| GroupTree64.GroupServiceTree.Link | cfq_experiment/cfq-iosched.c:1272-1298 | the walk over wrapped 64-bit keys inserts where the time that the key stands for belongs, and before all others, as the cached leftmost, if that time lies before the base |
| GroupTree64.GroupServiceTree.Erase | cfq_experiment/cfq-iosched.c:1218-1227 | erasing a group refines its removal and never leaves a stale leftmost cache |
| GroupTree64.GroupServiceTree.GetNext | cfq_experiment/cfq-iosched.c:3221-3231 | the group found is the one with the smallest true time, and the wrapped base follows it |
| GroupTree64.GroupServiceTree.Join | cfq_experiment/cfq-iosched.c:1374-1397 | a rejoining group is put behind the last one if its time is within 2^63 of the base, and before all others if not |
| GroupTree64.GroupServiceTree.Served | cfq_experiment/cfq-iosched.c:1506-1510 | a served group is taken off and put back at its advanced time within 2^63 of the base, and at the time its wrapped key stands for otherwise |
| GroupTree64.GroupServiceTree.ServeRounds | cfq_experiment/cfq-iosched.c:1483-1510 | over any number of rounds on a fixed set of groups whose spread and charges are below 2^63, the wrapped tree follows the unbounded one with no further condition |
| CfqState.NrCfqqIsTreeTotal | cfq_experiment/cfq-iosched.c:859-880 | the busy queues of a group are exactly those in its seven trees, each in one |
| CfqState.NrSyncNonNegative | cfq_experiment/cfq-iosched.c:1483-1493 | the number of synchronous queues derived from the tree counts is never negative |
| CfqState.BusyIffPending | cfq_experiment/cfq-iosched.c:3387-3403 | with no active queue, queues are busy exactly while requests are pending |
| CfqState.FirstGroupIsBusy | cfq_experiment/cfq-iosched.c:3221-3253 | while a queue is busy the group tree is not empty and its first group has a busy tree |
| CfqCore.CfqData.RbFirst | cfq_experiment/cfq-iosched.c:1189-1202 | the first queue of a tree is the owner of its minimum node, and refilling the cache changes no node |
| CfqCore.CfqData.Unlink | cfq_experiment/cfq-iosched.c:1218-1227 | a linked queue leaves its own tree and no other |
| CfqState.DelCounts | cfq_experiment/cfq-iosched.c:1432-1448 | when a queue stops being busy, one off the count of its group, which leaves the tree exactly at zero, keeps all counts and group-tree membership in agreement with the busy queues |
| CfqCore.CfqData.Place | cfq_experiment/cfq-iosched.c:2254-2297 | a queue that keeps tree and key is left alone, any other is taken out and linked in key order |
| CfqCore.CfqData.ServiceTreeAdd | cfq_experiment/cfq-iosched.c:2224-2301 | a queue ends up in exactly the tree of its class and type at the key of its kind; the group is notified only of a queue that was in no tree and is not put in front |
| CfqState.CooperatorReady | cfq_experiment/cfq-iosched.c:2846-2893 | whatever queue the cooperator search takes from a priority tree is busy with a pending request, also after the active queue was requeued |
| CfqCore.CfqData.ResortRrList | cfq_experiment/cfq-iosched.c:2367-2377 | a busy queue gets a new place at the tail of the tree of its kind, and no count changes |
| CfqCore.CfqData.AddCfqqRr | cfq_experiment/cfq-iosched.c:2382-2393 | marking a queue busy keeps trees, flags, both busy counters, group counters and group-tree membership in agreement |
| CfqCore.CfqData.DelCfqqRr | cfq_experiment/cfq-iosched.c:2398-2418 | so does the inverse, and a group leaves the group tree exactly with its last busy queue |
| CfqCore.CfqData.GroupServed | cfq_experiment/cfq-iosched.c:1483-1532 | the group is charged on the tree, and its workload is saved exactly while it has time left |
| CfqCore.CfqData.SliceExpired | cfq_experiment/cfq-iosched.c:2671-2717 | expiry leaves no active queue: an empty queue stops being busy, a non-empty one is requeued, its group is charged once and leaves only afterwards, and that group was the first unless a cooperator had been activated |
| CfqCore.CfqData.RetireOrRequeue | cfq_experiment/cfq-iosched.c:2703-2707 | an empty queue leaves the round robin and perhaps its group the group tree, a non-empty one is requeued |
| CfqCore.CfqData.SliceExpiredIfActive | cfq_experiment/cfq-iosched.c:2719-2725 | after an expiry from a timer or a completion the busy queues are exactly those with requests |
| CfqCore.CfqData.ChooseWlType | cfq_experiment/cfq-iosched.c:3114-3136 | the type chosen has the lowest first key among the non-empty trees of the class |
| CfqCore.CfqData.ChooseWlClassAndType | cfq_experiment/cfq-iosched.c:3138-3219 | the class chosen is the highest busy one of RT, BE, IDLE, its chosen tree is not empty, and the type is kept exactly while class, time and queues allow |
| CfqCore.CfqData.ChooseCfqg | cfq_experiment/cfq-iosched.c:3233-3253 | the chosen group is the first of a non-empty group tree |
| CfqCore.ServeThenResume | cfq_experiment/cfq-iosched.c:3233-3253 | a group expired with workload time left, then another group served with its own workload, then the first one chosen again: if its class is still the highest busy one and its type has queues, it resumes that type with exactly the time it had left |
| CfqCore.CfqData.ShouldIdle | cfq_experiment/cfq-iosched.c:2898-2927 | the active queue is in a tree that is not empty, so both BUG_ONs hold, and idle-class queues never idle |
| CfqCore.CfqData.Decide | cfq_experiment/cfq-iosched.c:3255-3350 | going on with the active queue needs a pending request, a queue with slice left and requests is gone on with, waiting is for something, and only a deep-seeking queue that ran empty loses its idle window |
| CfqCore.CfqData.GetNextQueue | cfq_experiment/cfq-iosched.c:2731-2745 | the first queue of the serving tree, which is busy, or none exactly if nothing is queued there |
| CfqCore.CfqData.TopQueue | cfq_experiment/cfq-iosched.c:3353-3360 | with no queue active and one busy, choosing a group and its tree always yields a queue |
| CfqCore.CfqData.SelectNew | cfq_experiment/cfq-iosched.c:3353-3365 | the queue made active has a pending request, and a cooperator is taken without advancing the group tree |
| CfqCore.CfqData.SelectQueue | cfq_experiment/cfq-iosched.c:3255-3365 | with a busy queue the result is NULL with at most the active queue's idle window cleared, or the active queue with a pending request: the old one, the cooperator, or the first of the highest class of the first group; from an active queue of the first group, a cooperator leaves it so exactly if the lead over the second group is larger than the charge, and the other outcomes always do |
| CfqCore.CfqData.DispatchInsert | cfq_experiment/cfq-iosched.c:3010-3025 | one pending request moves to its sorted place in the dispatch list, and both global counts follow |
| CfqCore.CfqData.DispatchOne | cfq_experiment/cfq-iosched.c:3511-3595 | an unforced dispatch moves at most one request, which was the next request or an expired FIFO head, and its BUG_ON cannot fire |
| CfqCore.CfqData.MayDispatch | cfq_experiment/cfq-iosched.c:3419-3430 | a queue that must dispatch may; a sync queue worth idling for waits for asynchronous requests in flight; the assertions of the idle test hold there |
| CfqCore.CfqData.InsertRequest | cfq_experiment/cfq-iosched.c:4135-4149 | the request is pending once, its queue is busy, and the active queue is preempted exactly if the decision of cfq_should_preempt on the updated queue says so |
| CfqCore.CfqData.ShouldPreempt | cfq_experiment/cfq-iosched.c:3974-4049 | the decision follows the order of the tests, and neither the warning about differing classes nor the assertions of the idle test can fire |
| CfqCore.PreemptionFollowsClass | cfq_experiment/cfq-iosched.c:3974-4049 | an idle-class queue never preempts and is preempted by any other, real time gives way only to real time and preempts all else in its own group and below; a synchronous queue never gives way to an unrelated group unless it is idle-class |
| CfqCore.CfqData.AddRqRb | cfq_experiment/cfq-iosched.c:2446-2472 | the queue of an inserted request becomes busy and the pending requests gain exactly that one |
| CfqCore.CfqData.Reclassify | cfq_experiment/cfq-iosched.c:3679-3720 | a priority or idle-window change never breaks the bookkeeping, though the queue stays in its old tree |
| CfqCore.CfqData.PreemptQueue | cfq_experiment/cfq-iosched.c:4055-4079 | the active queue is expired, the preempting one is first in the tree of its kind exactly under the condition on the keys there before, and a workload of another type is not saved |
| CfqCore.CfqData.MoveToFront | cfq_experiment/cfq-iosched.c:4069-4075 | a busy queue put in front is first if it is alone, or exactly if the first key of the others is at least one second; one that was ahead already stays so exactly if its own key is, or the others are nearly 2^64 behind |
| CfqState.FrontUnlessEarly | cfq_experiment/cfq-iosched.c:2254-2297 | in particular it goes first when no key of that tree was below one second |
| CfqCore.CfqData.MergedRequests | cfq_experiment/cfq-iosched.c:2572-2603 | the absorbed request leaves the counts, and an emptied queue that is not active stops being busy |
| CfqCore.CfqData.MergedRequest | cfq_experiment/cfq-iosched.c:2556-2564 | a front merge replaces one pending request by its moved form in the same queue |
| CfqCore.CfqData.MergeRequests | elevator_experiment/elevator.c:509-526 | a merge of two sorted requests lowers both global counts by one |
| CfqCore.CfqData.NextQueueForced | cfq_experiment/cfq-iosched.c:2747-2766 | with no queue active the search of the first group's trees fails only if no request is pending |
| CfqCore.CfqData.ForcedDispatchCfqq | cfq_experiment/cfq-iosched.c:3367-3385 | one queue is emptied onto the dispatch list request by request and leaves the round robin |
| CfqCore.CfqData.ForcedDispatch | cfq_experiment/cfq-iosched.c:3367-3403 | the drain terminates, returns exactly the number of requests pending, puts each on the dispatch list once and leaves no queue busy |
| CfqCore.CfqData.Drain | elevator_experiment/elevator.c:577-590 | draining the elevator ends with no sorted request, all that were pending on the dispatch list |
| CfqCore.CfqData.AddRequest | elevator_experiment/elevator.c:644-661 | the elevator's and the scheduler's counts of queued requests move together |
| CfqCore.CfqData.GetQueue | cfq_experiment/cfq-iosched.c:3830-3878 | a new queue is empty, not busy and in no tree, and starts with one reference, two if pinned |
| CfqCore.CfqData.FreeQueue | cfq_experiment/cfq-iosched.c:3607-3620 | an empty queue that is freed is expired first if active, so that it is never busy |
| CfqCore.CfqData.NewGroup | cfq_experiment/cfq-iosched.c:1537-1548 | a new group has seven empty trees, no queue and no place on the group tree |
| CfqCore.CfqData.PutQueue | cfq_experiment/cfq-iosched.c:3597-3621 | dropping a reference frees the queue exactly at zero; a freed queue is empty, not busy and not active |
| CfqCore.CfqData.Handle | cfq_experiment/cfq-iosched.c:3551-3595 | every entry point keeps the invariant from every state in which its caller may use it; the lookups, activations, charges, joins and leaves it causes are recorded where they happen and obey the rules of Turns; no group that leaves in it is on the tree after it; only a dispatch that was offered a cooperator activates one |
| CfqCore.CfqData.Run | cfq_experiment/cfq-iosched.c:2382-2418 | the whole invariant, and with it every assertion, holds over all interleavings of arrivals, merges, dispatches, drains, expiries, priority changes and queue lifetimes; the recorded events take the group tree from its old to its new state, so that its base time never falls or passes a group and a waiting group is charged once more charges of first groups pass than its backlog; a charge is of the first group unless a cooperator took over after a charge that put another one first |
| Hierarchy.CfqGroups.Create | cfq_experiment/cfq-iosched.c:1654-1661 | a new group under any parent is inactive and changes no sum |
| Hierarchy.CfqGroups.SetPending | cfq_experiment/cfq-iosched.c:1867-1884 | a written weight is only pending, so no sum changes |
| Hierarchy.ClimbPropagates | cfq_experiment/cfq-iosched.c:1361-1371 | one level of activation, which takes a pending weight before it is counted at the parent, keeps every sum below and above right |
| Hierarchy.CfqGroups.Deactivate | cfq_experiment/cfq-iosched.c:1412-1427 | one level of deactivation stops at the root or at an ancestor that stays active |
| Hierarchy.CfqGroups.Add | cfq_experiment/cfq-iosched.c:1323-1372 | activation keeps each group's active count and competing weight equal to the sums over itself and its active children, applies pending weights exactly to groups that become active, and stores the rounded product of the path's fractions |
| Hierarchy.CfqGroups.Del | cfq_experiment/cfq-iosched.c:1399-1430 | deactivation keeps the same sums on all ancestors, clears the fraction of exactly the groups that become inactive, and its warning cannot fire |
| Hierarchy.CountersDetermined | cfq_experiment/cfq-iosched.c:1323-1430 | the counters are a function of who is on the tree and of the weights that count |
| Hierarchy.AddThenDelete | cfq_experiment/cfq-iosched.c:1323-1430 | a delete undoes an add on every group's counters, pending weights or not |
| Hierarchy.InactiveHasNoWeight | cfq_experiment/cfq-iosched.c:1416 | a group without active members has no competing weight |
| Fractions.FlowSplits | cfq_experiment/cfq-iosched.c:1343-1371 | every group splits the share that reaches it exactly between itself and its active children |
| Fractions.SharesSumToOne | cfq_experiment/cfq-iosched.c:1343-1371 | the exact shares of the groups on the tree sum to exactly one |
| Fractions.ExactMeetsFlow | cfq_experiment/cfq-iosched.c:1343-1371 | compounding upwards from a leaf, as the loop does, equals compounding downwards from the root |
| Fractions.RoundedSumAtMostOne | cfq_experiment/cfq-iosched.c:1343-1371 | the fixed-point fractions recomputed for one state sum to at most 4096 before the clamp |
| Fractions.AddInRange | cfq_experiment/cfq-iosched.c:1343-1371 | each stored fraction lies in 1 to 4096 and is the clamped recomputed value |
| Fractions.Run | cfq_experiment/cfq-iosched.c:1323-1430 | over every sequence of creations, weight changes, activations and deactivations the sums hold and each group on the tree has a fraction in 1 to 4096 to divide its charge by |
| Fractions.SharesFit | cfq_experiment/cfq-iosched.c:1343-1371 | with weights below 2^20 the compounded share stays at most 4096 at every level and its products fit 32 bits |
| Fractions.CompetingWeightFits | cfq_experiment/cfq-iosched.c:1343-1371 | the competing weight of a group is at most the largest weight times its number of active members |
| MergeRefs.CfqRefs.SetupMerge | cfq_experiment/cfq-iosched.c:3072-3112 | the side with fewer processes is scheduled to merge into the other's end, all its process references are taken there, and the two chains then end at one queue |
| MergeRefs.CfqRefs.ChainEnd | cfq_experiment/cfq-iosched.c:3086-3091 | the walk terminates over live queues at the end of the chain, or says that it would meet the first queue |
| MergeRefs.PutSound | cfq_experiment/cfq-iosched.c:3597-3611 | a reference drop meets both BUG_ONs on the counts, keeps the accounting with the reference on the next queue as the one now held, and never frees that next queue |
| MergeRefs.CfqRefs.PutCooperator | cfq_experiment/cfq-iosched.c:3623-3642 | the walk drops one reference on each queue ahead, never meets the queue it started from nor a freed one, and leaves only that queue's own reference over |
| MergeRefs.CfqRefs.ExitCfqq | cfq_experiment/cfq-iosched.c:3644-3654 | dropping a slot's queue returns the references all along its chain |
| MergeRefs.CfqRefs.ExitIcq | cfq_experiment/cfq-iosched.c:3644-3677 | an exiting process empties both its slots, leaks nothing, and all counts stay exactly accounted for |
| MergeRefs.CfqRefs.MergeCfqqs | cfq_experiment/cfq-iosched.c:4402-4411 | the process moves on to the queue ahead with the reference taken there for it |
| MergeRefs.CfqRefs.SplitCfqq | cfq_experiment/cfq-iosched.c:4417-4433 | the process keeps the queue exactly if it is the last one there, and otherwise gives back all references along the chain |
| MergeRefs.CfqRefs.GetQueue | cfq_experiment/cfq-iosched.c:3830-3878 | a queue is returned with one reference held; a new asynchronous one is also pinned by its group |
| MergeRefs.CfqRefs.IoprioChanged | cfq_experiment/cfq-iosched.c:3722-3746 | the asynchronous slot moves to the queue pinned for the new priority |
| MergeRefs.CfqRefs.BlkcgChanged | cfq_experiment/cfq-iosched.c:3770-3805 | both slots are emptied; nothing leaks if and only if the synchronous queue was not scheduled to merge, and otherwise the next queue is live and has one more process reference that no slot, pin or merging queue accounts for |
| MergeRefs.LeakOnCgroupChange | cfq_experiment/cfq-iosched.c:3770-3805 | a concrete run after which no process, request or pin is left but a queue is, with the leaked reference |
| MergeRefs.CfqRefs.FindQueue | cfq_experiment/cfq-iosched.c:4450-4472 | splitting, allocating or merging ends with a live queue of the right kind in the slot, other slots unchanged |
| MergeRefs.CfqRefs.SetRequest | cfq_experiment/cfq-iosched.c:4437-4483 | after splitting, merging or allocating, the request holds its queue, which is the one in the slot, other processes' slots are untouched, and a reference leaks exactly on a cgroup change of a process whose queue is scheduled to merge |
| MergeRefs.CfqRefs.PutRequest | cfq_experiment/cfq-iosched.c:4382-4400 | the request's allocation and reference are returned, with its BUG_ON as an assertion |
| MergeRefs.CfqRefs.Offline | cfq_experiment/cfq-iosched.c:1663-1677 | an offline group gives up exactly its pinned asynchronous queues |
| MergeRefs.CfqRefs.Run | cfq_experiment/cfq-iosched.c:3062-3112 | over every run the process references of each queue equal its slots, its pin, the process references of all queues merging into it and its leaks; a leak never goes away and its queue is never freed; without cgroup changes nothing leaks |
| MergeRefs.ChainIsLive | cfq_experiment/cfq-iosched.c:3074-3091 | from a queue with processes the chain runs through live queues to a real end that has at least as many process references |
| MergeRefs.DeadEndIsUnreferenced | cfq_experiment/cfq-iosched.c:3074-3081 | a queue without process references is in no slot, is not pinned, and only such queues still point to it |
| MergeRefs.ChainsConverge | cfq_experiment/cfq-iosched.c:3102-3111 | scheduling a merge in either direction makes the two chains end at the same queue |
| Deadline.DeadlineData.DispatchRequests | deadline_experiment/deadline_example.c:96-150 | the jumps between the phases choose and send exactly one request: the batch's next, or the FIFO head or cached next of the direction whose turn it is; both BUG_ONs hold |
| Deadline.DeadlineData.AddRequest | deadline_experiment/deadline_example.c:153-163 | an arrival joins both lists of its direction and no batch state changes |
| Deadline.DeadlineData.StartBatch | deadline_experiment/deadline_example.c:116-147 | a new batch goes to reads unless writes have waited their limit, and takes the expired head before the cached next |
| Deadline.DeadlineData.MoveRequest | deadline_experiment/deadline_example.c:63-84 | the request leaves both lists of its direction, its successor in sector order is cached, the other direction's cache is cleared |
| Deadline.AddKeepsInv | deadline_experiment/deadline_example.c:153-163 | an arrival keeps the lists equal and sorted |
| Deadline.DispatchKeepsInv | deadline_experiment/deadline_example.c:63-84 | FIFO and sorted list hold the same requests, at most one next request is set and it is pending, the starvation count stays in bounds, and exactly the chosen request leaves |
| Deadline.WriteIsServed | deadline_experiment/deadline_example.c:117-134 | a pending write sees fewer than (writes_starved + 1) * fifo_batch reads go before a write is served, whatever arrives |
| Deadline.ReadIsServed | deadline_experiment/deadline_example.c:117-134 | a pending read sees at most fifo_batch writes in a row |
| Deadline.ExpiredIsServed | deadline_experiment/deadline_example.c:136-147 | an expired read at the head of its FIFO is sent within 2 * fifo_batch dispatches, an expired write within (writes_starved + 1) * fifo_batch |
| TagHeap.SiftUpInArray | ssd_scheduler_alpha/sfq-sched_14.c:181-189 | the hole moves up in place as the specification says, inside the array, entries beyond the heap untouched |
| TagHeap.Heapify | ssd_scheduler_alpha/sfq-sched_14.c:69-85 | the recursive swap of contents sifts down in place, inside the heap |
| TagHeap.InsertOrders | ssd_scheduler_alpha/sfq-sched_14.c:179-191 | insertion keeps heap order and adds exactly one tagged request |
| TagHeap.RemoveRootOrders | ssd_scheduler_alpha/sfq-sched_14.c:207-214 | removing the root keeps heap order and drops exactly the root |
| TagHeap.RootFirst | ssd_scheduler_alpha/sfq-sched_14.c:207-214 | the root removed has the smallest tag |
| Sfq4.SfqData.Dispatch | sfq_write_experiment/sfq_4.c:244-333 | the dispatch through cursor, seek counter, depth limit and heap is one turn of plain round robin over the per-process FIFOs; the heap is empty again afterwards |
| Sfq4.SfqData.Advance | sfq_write_experiment/sfq_4.c:253-275 | the cursor is always the entry number that the seek counter says and never the list head, also when a process joins in mid-cycle |
| Sfq4.SfqData.Transmit | sfq_write_experiment/sfq_4.c:283-333 | with one process the request goes past the heap, with more through it, with the same effect; the sift-down is never reached |
| Sfq4.SfqData.SetRequest | sfq_write_experiment/sfq_4.c:161-202 | one entry per process, new processes at the end, the cursor unmoved |
| Sfq4.SfqData.AddRequest | sfq_write_experiment/sfq_4.c:205-226 | the request joins its process's FIFO with the tags the previous one leaves |
| Sfq4.SfqData.Completed | sfq_write_experiment/sfq_4.c:336-348 | the total stays the waiting plus the in-flight requests, and the depth at most 65 |
| Sfq4.SentWithin | sfq_write_experiment/sfq_4.c:244-333 | with n processes and room in the device, a request with k ahead of it is sent within (k + 1) * n dispatch calls |
| Sfq4.SentOnCall | sfq_write_experiment/sfq_4.c:253-275 | it has been sent by the call computed from its place and the cursor, whatever arrives or completes between |
| Sfq4.WaitsUntilCall | sfq_write_experiment/sfq_4.c:253-275 | and until that call it is still waiting, so the call is exact |
| Sfq14.SfqData.SetRequest | ssd_scheduler_alpha/sfq-sched_14.c:148-175 | the virtual time catches up with the finish tag at the end of the array and no tag ever exceeds it |
| Sfq14.SfqData.AddRequest | ssd_scheduler_alpha/sfq-sched_14.c:178-199 | the array grows in time for the sift-up, and the heap gains the tagged request |
| Sfq14.SfqData.Dispatch | ssd_scheduler_alpha/sfq-sched_14.c:203-232 | a request with the smallest tag leaves exactly if there is one and the depth allows |
| Sfq14.SfqData.TakeRoot | ssd_scheduler_alpha/sfq-sched_14.c:207-214 | the last entry replaces the root and sinks, and the array shrinks only when more than one entry is left |
| Sfq14.SfqData.Completed | ssd_scheduler_alpha/sfq-sched_14.c:235-244 | the depth falls by one, and dispatch is asked for again exactly while it is positive |
| Sfq14.InOrderIffNoLateAdd | ssd_scheduler_alpha/sfq-sched_14.c:148-232 | over every run from the start to an empty heap the dispatched tags never decrease if and only if no request is added after one with a larger tag was sent |
| Sfq14.TagsLeaveInOrder | ssd_scheduler_alpha/sfq-sched_14.c:148-232 | from any state, without such late additions the tags dispatched over the whole run never decrease |
| Sfq14.AdjacentLeavesInOrder | ssd_scheduler_alpha/sfq-sched_14.c:148-232 | so they never decrease if each setting of tags is followed at once by its addition |
| Sfq14.AddKeepsOrder | ssd_scheduler_alpha/sfq-sched_14.c:178-199 | an addition keeps everything waiting at or above the last tag sent if and only if its own tag is |
| Sfq14.OverlapBreaksOrder | ssd_scheduler_alpha/sfq-sched_14.c:148-232 | a concrete run with overlapping arrivals in which a smaller tag leaves after a larger one |

## Left out

- GroupTree.BoundedWait: the waiting group stays on the tree, and charges of groups that are not first, which only follow a takeover by a close cooperator, do not count towards its wait.
- GroupTree64.GroupServiceTree.ServeRounds: derives the 2^63 window for a fixed set of groups; with joins and leaves in between nothing in the source keeps it, so Join and Served say what happens on either side.
- ThinkTime.CfqTtime.UpdateIoThinktime: an idle slice below 2^52 nanoseconds, which covers every value that the tunable accepts.
- Hierarchy.CfqGroups.Add: computed with unbounded integers; SharesFit shows that 32 bits suffice for weights below 2^20, the sum of the weights fits while there are fewer than 2^32 divided by the largest weight of them.
- MergeRefs.CfqRefs.Offline: forgets the pins, while the source leaves stale pointers in the table of a group that is going away.
- Sfq4.SfqData.AddRequest: keeps the previous finish tag by value; the source reads it through a pointer to a request that `sfq_put_request` may have freed.
- MergeRefs.CfqRefs.SetupMerge: the two queues are distinct, synchronous, and the first is not yet scheduled to merge, as its only caller and the cooperator search ensure.
- CfqCore.CfqData.PutQueue: says which references may be dropped; that the callers hold them is what MergeRefs proves, on its own copy of the counts.
- CfqCore.CfqData.SelectQueue: the cooperator is NULL or any queue on a priority tree that passes the search's filters; closeness in sectors and the order of the priority trees are not modelled, because the source does not reposition queues there on dispatch.
- Deadline.DeadlineData.DispatchRequests: requires a pending request, because the source leaves the direction unset otherwise; its constant return value is ignored. Times do not wrap.
- Sfq4.SentWithin: the set of processes is fixed and no call finds the device full; a call that does loses its process's turn.
- Sfq14.TagsLeaveInOrder: tags are unbounded integers, the source uses 32-bit ones.
- Identity of heap entries: `heap_swap` exchanges the contents of two structures, so the heaps are stated on (tag, request) pairs.
- One state for everything: the core with its group tree, the weights, the references and the 64-bit virtual time are separate state machines joined by parameters (the scaled charge, the references taken and dropped).
- `grp_service_tree.count`: decremented but never incremented for groups, so no claim is made about it.
- In-flight limits: `must_dispatch` bypasses them, so whether there is room for one more request is a parameter.
- Idling on completion, seekiness and slice lengths: heuristics that only choose among the steps modelled.
- The fallback queue for failed allocations, and allocation failures in general.
- The merge hash, `elv_attempt_insert_merge` and the block layer's own merging.
- Red-black rebalancing, locks, RCU, work queues, timers, sysfs, cgroup files, statistics and logging.
- The other schedulers of the repository: copies or earlier versions of the cores above.
