# Verified models of the AIE runtime and the NPU driver

Dafny models of four parts of the system, with proofs of what they are for:

- **Async work queue** of the NPU driver (`AsyncQueue*.dfy`, `IntrusiveLists.dfy`): a step system in
  which enqueuers, timepoint callbacks, failed registrations, the shutdown walk and the worker
  interleave freely, one atomic access at a time. The theorems are about every run. The two intrusive
  lists are also modelled as linked structures updated in place. `AsyncQueueOutcomes.dfy` and
  `AsyncQueueWaits.dfy` say what becomes of an op, `AsyncQueueProgress.dfy` that shutdown does not hang,
  `AsyncQueueLatePost.dfy` which posts can come after the queue is gone.
- **Packet-switch configuration** (`PacketTypes.dfy`, `PacketGroups*.dfy`, `Amsel*.dfy`,
  `PacketSwitch.dfy`, `PacketDelivery.dfy`): a compiler from "source port and packet ID to destination
  ports" to ordered mask rules and (arbiter, msel) pairs, and the hardware rule that gives these a
  meaning. `PacketDelivery.ConfigureSwitches` says that the meaning is preserved. Work lists may repeat
  entries: `PacketGroupsRepeat.dfy` is about one repetition, `PacketGroupsLate.dfy` about what follows a
  bad one, `PacketGroupsRuns.dfy` about whole lists, `PacketGroupsExamples.dfy` gives two of them.
  `AmselComponents.dfy` and `AmselPlacement.dfy` say in terms of the flows when pairs can be found.
- **Congestion-aware router** (`DAryHeap.dfy`, `RoutingGraph.dfy`, `Dijkstra.dfy`, `PathTrace.dfy`,
  `Capacity.dfy`, `Congestion.dfy`, `FindPaths.dfy`, `Router.dfy`): the d-ary heap, the path search,
  the backward trace and the capacity account, up to what a returned solution guarantees.
- **Command chains and buffer-descriptor IDs** (`CommandChain.dfy`, `CommandRuns.dfy`, `CommandCode.dfy`,
  `TxnPatch.dfy`, `PatchTable.dfy`, `BdIds.dfy`): the batched submission path against the plain one, two in-place
  binary patchers and what they make of a chained command, and the ID allocator.

`Common.dfy` holds the sequence vocabulary. `dafny verify dfyconfig.toml` checks everything.

## How the code is rendered

- Async queue: atomics are sequentially consistent; each armed timepoint fires once or is cancelled
  once; no enqueue runs while destroy does. The registration loop reads its bound again after the last
  arm (`async_queue.cc:594`), when the worker may already have freed the op; the model uses the bound
  as it was at the start. The drain wait of destroy is a wait for `inflight_count` to be zero.
- A mask word is the set of its one bits, and so is a master select word; `PacketGroups.Bit` connects
  them to numbers. Sorting is the unique sorted arrangement (`PacketGroups.SortedUnique`). Flows may
  come to the generator in any order, of which the sorted one is an instance.
- The per-box matrices of the router are maps from `RoutingGraph.Cell`; whole-matrix loops that treat
  each entry alone are map comprehensions. Demand is real. A missing distance is infinite. Foreign
  calls (device, allocation) have arbitrary outcomes.

## What turned out different from the documentation

- Cancelled ops are served newest first, not in submission order (`AsyncQueueCancel.CancelledNewestFirst`).
- The work list has one entry for each destination port, so an ID of a broadcast is repeated. A repetition can
  make packets match no rule, or a rule of other destinations (`PacketGroupsExamples`).
  `PacketGroupsRuns.AllCaughtIff` says exactly for which lists the rules are as intended, and the
  delivery theorem is for these.
- The thread that made an op ready can post the worker notification after destroy has freed the queue
  (`AsyncQueueLatePost.PostAfterDone`); it cannot if no post is owed when the drain wait ends.
- A queued vertex whose distance is lowered stays where it is in the heap, so paths need not be shortest;
  `Dijkstra.ShortestIff` gives the exact condition, and `Dijkstra.ShortestPaths` when it is met.
- A packet group's claim of a row and column is not for good (`Congestion.CornersChangeHands`).
- A descriptor address sum of 2^48 or more damages the upper half of the word (`PatchTable.UpperKept`).

## Model

| member | source | states |
|---|---|---|
| `AsyncQueueTheorems.StepKeeps` | runtime/src/iree-amd-aie/driver/amdxdna/async_queue.cc:142-621 | every step of every party (enqueuer, timepoint callback, failed registration, shutdown walk, worker) keeps the queue invariant: exact wait counts, linked ready stack, inflight list, inflight count, shutdown and wake-up conditions |
| `AsyncQueueTheorems.RunInv` | runtime/src/iree-amd-aie/driver/amdxdna/async_queue.cc:142-621 | the invariant holds in every state of every run |
| `AsyncQueueTheorems.WaitCountExact` | runtime/src/iree-amd-aie/driver/amdxdna/async_queue.cc:207-229 | in every reachable state `wait_count` is the number of waits not yet accounted for; it is zero exactly when all are, and exactly when the op has left the waiting side |
| `AsyncQueueTheorems.ClaimedOnce` | runtime/src/iree-amd-aie/driver/amdxdna/async_queue.cc:394-463 | over a run, exactly one step, among racing callbacks, failed registrations and shutdown cancels, takes an op's `wait_count` to zero |
| `AsyncQueueTheorems.PushedOnce` | runtime/src/iree-amd-aie/driver/amdxdna/async_queue.cc:156-175 | each op is pushed to the ready stack at most once, exactly the ops past the waiting side have been pushed, and a pushed op is not on the inflight list |
| `AsyncQueueTheorems.ProcessedInPushOrder` | runtime/src/iree-amd-aie/driver/amdxdna/async_queue.cc:240-276 | the CAS-pushed stack with whole-stack exchange and reversal is a FIFO queue: push order is processing order, then the batch, then the stack upside down |
| `AsyncQueueTheorems.Outcomes` | runtime/src/iree-amd-aie/driver/amdxdna/async_queue.cc:277-306 | a body runs or a signal is given only if every wait settled without error or cancellation; one outcome, then one cleanup, then one release of resources, each at most once and in this order |
| `AsyncQueueTheorems.AsSubmitted` | runtime/src/iree-amd-aie/driver/amdxdna/async_queue.cc:502-588 | every op in a run is as it was submitted: that many waits, with or without a body and a cleanup |
| `AsyncQueueOutcomes.RunCaused` | runtime/src/iree-amd-aie/driver/amdxdna/async_queue.cc:207-229 | an op has an error recorded only if one of its waits failed or was cancelled |
| `AsyncQueueOutcomes.ReleasedOutcome` | runtime/src/iree-amd-aie/driver/amdxdna/async_queue.cc:277-306 | a released op had its body called, once, if and only if it has one and all its waits were clean; its signals were tried if and only if, besides, the body did not fail; they were given if and only if that call succeeded, and failed, once, in every other case |
| `AsyncQueueWaits.CleanIffReached` | runtime/src/iree-amd-aie/driver/amdxdna/async_queue.cc:207-229 | the waits of an op that is ready are clean if and only if every one of its callbacks was told that its semaphore was reached |
| `AsyncQueueWaits.OutcomeByCalls` | runtime/src/iree-amd-aie/driver/amdxdna/async_queue.cc:277-306 | so the outcome of a released op is a function of what callbacks, body and signalling returned in the run |
| `AsyncQueueTheorems.InflightCountExact` | runtime/src/iree-amd-aie/driver/amdxdna/async_queue.cc:180-202 | `inflight_count` is always accepted minus released ops |
| `AsyncQueueTheorems.ReleasedIsQuiet` | runtime/src/iree-amd-aie/driver/amdxdna/async_queue.cc:590-618 | once an op is released, no registration, callback, decrement or push step of it is possible |
| `AsyncQueueTheorems.NoLostWakeup` | runtime/src/iree-amd-aie/driver/amdxdna/async_queue.cc:237-263 | if the worker sleeps on a current token with ready work or shutdown pending, some thread is about to post, and that post wakes it |
| `AsyncQueueTheorems.ExitsDrained` | runtime/src/iree-amd-aie/driver/amdxdna/async_queue.cc:237-246 | the worker returns only after shutdown was requested and every accepted op was processed and released |
| `AsyncQueueTheorems.NoDeadlock` | runtime/src/iree-amd-aie/driver/amdxdna/async_queue.cc:465-488 | while an accepted op is unreleased, one of its waits is still armed or some party can take a step; new enqueues, a first call of destroy and semaphores are not counted as parties |
| `AsyncQueueProgress.WalkDisarms` | runtime/src/iree-amd-aie/driver/amdxdna/async_queue.cc:398-440 | in every state after the shutdown walk no wait of any op is armed |
| `AsyncQueueProgress.UnreleasedStep` | runtime/src/iree-amd-aie/driver/amdxdna/async_queue.cc:465-488 | once destroy has begun, an unreleased op never depends on a semaphore: some party can take a step |
| `AsyncQueueProgress.DestroyNeverStuck` | runtime/src/iree-amd-aie/driver/amdxdna/async_queue.cc:465-488 | from the first step of destroy to its last, some party can take a step |
| `AsyncQueueProgress.WorkerReturns` | runtime/src/iree-amd-aie/driver/amdxdna/async_queue.cc:237-263 | once shutdown is requested, every step of the worker brings it nearer to its exit, at most eight steps away |
| `AsyncQueueProgress.WorkerRests` | runtime/src/iree-amd-aie/driver/amdxdna/async_queue.cc:247-263 | the worker does not spin: with nothing ready and no shutdown requested, its steps lead to sleep |
| `AsyncQueueLatePost.LatePosts` | runtime/src/iree-amd-aie/driver/amdxdna/async_queue.cc:465-488 | once destroy has seen the queue drained, an op owes a post if and only if it owed one at that moment and has not posted since; nothing new is ever owed |
| `AsyncQueueLatePost.NoLatePosts` | runtime/src/iree-amd-aie/driver/amdxdna/async_queue.cc:465-488 | so no post comes after the queue is freed, if none is owed when the drain wait ends |
| `AsyncQueueLatePost.PostAfterDone` | runtime/src/iree-amd-aie/driver/amdxdna/async_queue.cc:161-174 | without that condition it does happen: a whole run in which destroy is done and the thread that pushed the op still has its post to make |
| `AsyncQueueCancel.CancelledNewestFirst` | runtime/src/iree-amd-aie/driver/amdxdna/async_queue.cc:394-463 | of two ops cancelled by one shutdown walk, the one submitted later is pushed, hence served, first (the comment at 443-445 says the opposite) |
| `AsyncQueueCancel.RunWalking` | runtime/src/iree-amd-aie/driver/amdxdna/async_queue.cc:398-440 | throughout the walk its local chain holds cancelled ops against the order of the inflight list it started from |
| `AsyncQueueInvariant.AccountCancelledCounts` | runtime/src/iree-amd-aie/driver/amdxdna/async_queue.cc:424-428 | one subtraction of the number of cancels won accounts for exactly those waits |
| `IntrusiveLists.InflightList.PushFront` | runtime/src/iree-amd-aie/driver/amdxdna/async_queue.cc:581-588 | head insertion keeps every back link the cell that points to its op |
| `IntrusiveLists.InflightList.Remove` | runtime/src/iree-amd-aie/driver/amdxdna/async_queue.cc:142-151 | removal at any position takes out exactly that op, keeps the list well linked, and does nothing to an op that is off the list |
| `IntrusiveLists.ReverseReady` | runtime/src/iree-amd-aie/driver/amdxdna/async_queue.cc:265-275 | the in-place loop turns the chain into its reverse and touches no inflight link |
| `IntrusiveLists.LinkChain` | runtime/src/iree-amd-aie/driver/amdxdna/async_queue.cc:446-453 | the walk's chain is linked in front of the current ready stack |
| `PacketGroups.MemberMatches` | runtime/src/iree-amd-aie/aie_runtime/iree_aie_router.cc:825-838 | every ID of a group satisfies the masked compare with the group's smallest ID under the group's agreement mask |
| `PacketGroups.SingletonMatches` | runtime/src/iree-amd-aie/aie_runtime/iree_aie_router.cc:825-838 | a singleton's full mask matches its own ID and no other ID below 2^numMaskBits |
| `PacketGroups.UpdateGroupMask` | runtime/src/iree-amd-aie/aie_runtime/iree_aie_router.cc:825-838 | the loop leaves, under each member, exactly the bits on which all members agree, and other entries as they were |
| `PacketGroups.SortedUnique` | runtime/src/iree-amd-aie/aie_runtime/iree_aie_router.cc:861-867 | the group order has one sorted arrangement, whatever sorting algorithm produces it |
| `PacketGroups.VerifyGroupsByMask` | runtime/src/iree-amd-aie/aie_runtime/iree_aie_router.cc:887-901 | true exactly if no ID of a later group satisfies an earlier group's rule |
| `PacketGroups.AddSlave` | runtime/src/iree-amd-aie/aie_runtime/iree_aie_router.cc:932-974 | one work-list entry: merged into the first group with equal destinations if the merged list verifies, else rolled back and added as a singleton |
| `PacketGroupsProof.AddIdOk` | runtime/src/iree-amd-aie/aie_runtime/iree_aie_router.cc:932-974 | an ID not met before keeps the port invariant: groups partition the IDs, share destinations, hold exact masks, are sorted, and no rule matches an ID of a later group, also on the never re-verified singleton path |
| `PacketGroupsProof.RollbackOk` | runtime/src/iree-amd-aie/aie_runtime/iree_aie_router.cc:958-967 | undoing a rejected merge of an ID not met before restores the invariant for all others |
| `PacketGroupsProof.NewGroupOk` | runtime/src/iree-amd-aie/aie_runtime/iree_aie_router.cc:969-973 | a new singleton of an ID not met before neither shadows a group nor is shadowed |
| `PacketGroupsProof.EmitSlaveGroupsAndMasks` | runtime/src/iree-amd-aie/aie_runtime/iree_aie_router.cc:903-976 | the loop over the work list computes the emission, entry by entry |
| `PacketGroupsProof.OwnRuleFirst` | runtime/src/iree-amd-aie/aie_runtime/iree_aie_router.cc:887-901 | a declared ID is caught by its own group's rule and by no earlier one |
| `PacketGroupsRepeat.RepeatHarmless` | runtime/src/iree-amd-aie/aie_runtime/iree_aie_router.cc:932-974 | meeting an ID again changes nothing if its own group is the first with its destinations |
| `PacketGroupsRepeat.RepeatRejected` | runtime/src/iree-amd-aie/aie_runtime/iree_aie_router.cc:950-967 | if another group comes first, the merge of a repeated ID always fails verification |
| `PacketGroupsRuns.RepeatIff` | runtime/src/iree-amd-aie/aie_runtime/iree_aie_router.cc:932-974 | after an ID is met again, every ID is caught first by a group that contains it, if and only if it is not so that another group comes first and the ID is the smallest of a larger group |
| `PacketGroupsLate.EnterLate` | runtime/src/iree-amd-aie/aie_runtime/iree_aie_router.cc:958-973 | the first repetition that finds another group in front leaves the groups as they were, with one singleton more |
| `PacketGroupsLate.LateRejected` | runtime/src/iree-amd-aie/aie_runtime/iree_aie_router.cc:950-967 | from then on every merge fails verification |
| `PacketGroupsLate.LateStep` | runtime/src/iree-amd-aie/aie_runtime/iree_aie_router.cc:932-974 | so every later entry, new or repeated, adds a singleton to the groups as they were, and masks are exact but for smallest members that have become singletons |
| `PacketGroupsLate.LateIff` | runtime/src/iree-amd-aie/aie_runtime/iree_aie_router.cc:825-838 | in that phase all IDs are caught by groups that contain them if and only if every group whose smallest ID has become a singleton has only such members |
| `PacketGroupsRuns.PortState` | runtime/src/iree-amd-aie/aie_runtime/iree_aie_router.cc:903-976 | the state of every port after any work list: the invariant, as long as repetitions find their own group first, and the singleton phase from there on |
| `PacketGroupsRuns.AllCaughtIff` | runtime/src/iree-amd-aie/aie_runtime/iree_aie_router.cc:903-976 | for every work list and port, the rules catch every ID by a group that contains it if and only if the port is good; goodness is a condition on the list and on the groups up to the first bad repetition |
| `PacketGroupsRuns.DistinctGood` | runtime/src/iree-amd-aie/aie_runtime/iree_aie_router.cc:903-976 | a list without repetitions is good at every port, and stays in the invariant to its end |
| `PacketGroupsRuns.RulesPreserveDests` | runtime/src/iree-amd-aie/aie_runtime/iree_aie_router.cc:903-976 | at a good port the first matching rule of a declared ID belongs to a group that contains it and all of whose members have its destinations |
| `PacketGroupsExamples.RepeatedEntryDropsPacket` | compiler/plugins/target/AMD-AIE/aie/AMDAIECreatePathFindFlows.cpp:391-399 | a work list with one entry for each destination port of an ID, after which a declared packet matches no rule |
| `PacketGroupsExamples.RepeatedEntryMisdelivers` | compiler/plugins/target/AMD-AIE/aie/AMDAIECreatePathFindFlows.cpp:391-399 | another one, after which a declared packet is caught by a rule of IDs with other destinations |
| `AmselModel.AddedAllOk` | runtime/src/iree-amd-aie/aie_runtime/amsel_generator.cc:80-91 | recording a connection keeps the four indexes consistent and appends exactly the given destinations to the source |
| `AmselModel.ExtendNext` | runtime/src/iree-amd-aie/aie_runtime/amsel_generator.cc:16-35 | adding a connection keeps distinct port lists on distinct msels in range, and every source under its own list |
| `AmselGenerator.MSelGenerator.AddConnection` | runtime/src/iree-amd-aie/aie_runtime/amsel_generator.cc:16-35 | a known port list keeps its msel, a new one takes the next, and failure (no msel left) changes nothing |
| `AmselGenerator.MSelGenerator.AddConnections` | runtime/src/iree-amd-aie/aie_runtime/amsel_generator.cc:37-44 | succeeds exactly if the msels suffice for all distinct port lists; then holds all sources given |
| `AmselGenerator.MSelGenerator.NumMSelsForConnections` | runtime/src/iree-amd-aie/aie_runtime/amsel_generator.cc:46-59 | the number of connections without an msel, repetitions counted, in eight bits |
| `AmselModel.SearchFound` | runtime/src/iree-amd-aie/aie_runtime/amsel_generator.cc:119-148 | a finished breadth-first search has found exactly the connected component of its port and exactly the sources attached to it |
| `AmselGenerator.CollectGroup` | runtime/src/iree-amd-aie/aie_runtime/amsel_generator.cc:119-148 | the search loop terminates with the component of the destination port and its sources, once each |
| `AmselGenerator.CollectGroups` | runtime/src/iree-amd-aie/aie_runtime/amsel_generator.cc:112-148 | the groups are exactly the connected components of the source/destination-port graph, disjoint, covering every destination port, in the order in which the ports reach them |
| `AmselComponents.GroupsAreComponents` | runtime/src/iree-amd-aie/aie_runtime/amsel_generator.cc:112-148 | they are also the components by definition: the least closed sets of ports that the sources feed, and there are equally many |
| `AmselPlacement.OutcomeDecided` | runtime/src/iree-amd-aie/aie_runtime/amsel_generator.cc:151-186 | the outcome for a tile, by its connections: success if and only if the rule can place all components; with an arbiter for each component that is if no component has more distinct port lists than there are msels; and with an arbiter and fewer sources than msels it always succeeds |
| `AmselPlacement.PlacementUnique` | runtime/src/iree-amd-aie/aie_runtime/amsel_generator.cc:151-186 | the greedy rule (a fresh arbiter, or, with none left, the first one whose strict estimate has room, if the component fits there) allows one placement at most |
| `AmselPlacement.StuckUnplaceable` | runtime/src/iree-amd-aie/aie_runtime/amsel_generator.cc:164-183 | a placement that cannot go on shows that there is no complete one |
| `AmselPlacement.PlaceableIfFew` | runtime/src/iree-amd-aie/aie_runtime/amsel_generator.cc:164-183 | with an arbiter and fewer sources than msels all components can be placed, however many there are |
| `AmselPlacement.PlaceableIfEnough` | runtime/src/iree-amd-aie/aie_runtime/amsel_generator.cc:162-165 | with an arbiter for each component it is the number of distinct port lists of each that decides |
| `AmselPlacement.RoomIff` | runtime/src/iree-amd-aie/aie_runtime/amsel_generator.cc:167-173 | the estimate over the generator's state is the one over the components placed on it |
| `AmselGenerator.AssignArbiters` | runtime/src/iree-amd-aie/aie_runtime/amsel_generator.cc:151-186 | every group ends up whole in one arbiter's generator, placed by the greedy rule; it fails exactly at the first group for which the rule has no choice: more lists than msels on a fresh arbiter, no arbiter with room, or an overflow of the one merged into |
| `AmselGenerator.FindMerge` | runtime/src/iree-amd-aie/aie_runtime/amsel_generator.cc:166-183 | the first arbiter whose strict msel estimate leaves room, if any |
| `AmselModel.AssignmentSolves` | runtime/src/iree-amd-aie/aie_runtime/amsel_generator.cc:187-195 | pairs read back from the generators solve the tile: exactly the sources with a destination have a pair, in range, one arbiter per shared destination port, equal pairs only for identical port lists |
| `AmselGenerator.TileAMSelGenerator.Solve` | runtime/src/iree-amd-aie/aie_runtime/amsel_generator.cc:111-195 | success is a solution of the tile; it succeeds if and only if the rule can place all components; nothing but the pairs changes |
| `AmselGenerator.AMSelGenerator.Solve` | runtime/src/iree-amd-aie/aie_runtime/amsel_generator.cc:228-234 | success solves every tile; failure is the failure of some tile, whose components the rule cannot place |
| `AmselGenerator.AMSelGenerator.AddConnection` | runtime/src/iree-amd-aie/aie_runtime/amsel_generator.cc:210-220 | records the connection on its tile and on no other; fails on an unknown tile |
| `PacketSwitch.CollectConnections` | runtime/src/iree-amd-aie/aie_runtime/iree_aie_router.cc:980-1026 | every tile's generator knows exactly the flows of that tile |
| `PacketSwitch.BuildMastersets` | runtime/src/iree-amd-aie/aie_runtime/iree_aie_router.cc:1042-1053 | a pair is in a master port's set exactly if the port is among the ports of that pair on that tile |
| `PacketSwitch.EmitPacketRouting` | runtime/src/iree-amd-aie/aie_runtime/iree_aie_router.cc:980-1056 | success gives every source a pair in range, one arbiter to all sources of a master port, equal pairs only to sources with the same ports, and master sets that hold exactly the pairs of the sources feeding them; it succeeds if and only if every source has destinations and the components of every tile can be placed; failure means a source without destinations, a component with more distinct port lists than msels, or more components than arbiters and no fewer sources than msels |
| `PacketSwitch.SingleFlowRoutes` | runtime/src/iree-amd-aie/aie_runtime/iree_aie_router.cc:980-1056 | the failure condition is a real one: it does not hold of a single flow on a tile with an arbiter and an msel |
| `PacketDelivery.ConfigureMaster` | runtime/src/iree-amd-aie/aie_runtime/iree_aie_configure.cc:367-374 | arbiter of the last pair and the select word with the bit of every msel below eight |
| `PacketDelivery.SingleArbiter` | runtime/src/iree-amd-aie/aie_runtime/iree_aie_configure.cc:367-374 | all pairs of one master port name the same arbiter, so taking the last is harmless |
| `PacketDelivery.DeliversExactly` | runtime/src/iree-amd-aie/aie_runtime/iree_aie_configure.cc:361-374 | the masters on a pair's arbiter with that msel bit set are exactly the destination ports of each source that has the pair |
| `PacketDelivery.EmitRules` | compiler/plugins/target/AMD-AIE/aie/AMDAIECreatePathFindFlows.cpp:494-522 | one rule per group, with mask and ID of its smallest member and a member's pair; refused exactly if there are more groups than rule slots |
| `PacketDelivery.RouteIsFirstRule` | runtime/src/iree-amd-aie/aie_runtime/iree_aie_configure.cc:361-365 | the hardware's rule search is the first-rule search through the groups |
| `PacketDelivery.PacketDelivered` | runtime/src/iree-amd-aie/aie_runtime/iree_aie_router.cc:903-1056 | a packet declared at a good port, matched by the first matching rule and sent to all selected masters, reaches exactly its declared destinations, whichever group member's pair the rule carries |
| `PacketDelivery.ConfigureSwitches` | runtime/src/iree-amd-aie/aie_runtime/iree_aie_router.cc:903-1056 | the whole compilation, for any work list: if a configuration comes out, every packet of a good port (every port, if the list has no repetitions) reaches exactly the destinations of its flow; none comes out if and only if the flows cannot be given pairs or a port needs more rules than it has slots |
| `DAryHeap.ChildrenOf` | runtime/src/iree-amd-aie/aie_runtime/d_ary_heap.h:208-215 | for any arity of at least two, the nodes whose parent is i are exactly its children |
| `DAryHeap.TopMinimum` | runtime/src/iree-amd-aie/aie_runtime/d_ary_heap.h:134-144 | the root of an ordered heap has a least key |
| `DAryHeap.UpStep` | runtime/src/iree-amd-aie/aie_runtime/d_ary_heap.h:263-280 | swapping a smaller key with its parent moves the one open edge up |
| `DAryHeap.DownStep` | runtime/src/iree-amd-aie/aie_runtime/d_ary_heap.h:344-350 | swapping with a least child moves the open edges down to that child |
| `DAryHeap.RaisedOrdered` | runtime/src/iree-amd-aie/aie_runtime/d_ary_heap.h:251-295 | raising an element by as many levels as the first loop counts restores the order |
| `DAryHeap.Heap.Push` | runtime/src/iree-amd-aie/aie_runtime/d_ary_heap.h:125-132 | the contents gain the value and the index map stays exact whatever the keys; an ordered heap stays ordered |
| `DAryHeap.Heap.Pop` | runtime/src/iree-amd-aie/aie_runtime/d_ary_heap.h:146-162 | the contents lose the top and the index map stays exact whatever the keys; an ordered heap stays ordered |
| `DAryHeap.Heap.Update` | runtime/src/iree-amd-aie/aie_runtime/d_ary_heap.h:168-173 | restores the order after one key, and no other, was lowered |
| `DAryHeap.Heap.Contains` | runtime/src/iree-amd-aie/aie_runtime/d_ary_heap.h:175-179 | true exactly for the values in the heap |
| `DAryHeap.Heap.ShiftUp` | runtime/src/iree-amd-aie/aie_runtime/d_ary_heap.h:281-293 | the second loop computes the raised arrangement and the exact index map |
| `DAryHeap.Heap.SmallestChild` | runtime/src/iree-amd-aie/aie_runtime/d_ary_heap.h:311-343 | a child with a least key among all children in the heap |
| `DAryHeap.Heap.PreserveDown` | runtime/src/iree-amd-aie/aie_runtime/d_ary_heap.h:299-357 | permutes the contents and restores the order below the root |
| `RoutingGraph.ChannelsFrom` | runtime/src/iree-amd-aie/aie_runtime/iree_aie_router.cc:416-446 | lists exactly the vertices reachable by one channel: available connections in the box and wires to neighbours |
| `Dijkstra.RelaxOk` | runtime/src/iree-amd-aie/aie_runtime/iree_aie_router.cc:468-471 | lowering a queued vertex behind the heap's back keeps the tree exact |
| `Dijkstra.DiscoverOk` | runtime/src/iree-amd-aie/aie_runtime/iree_aie_router.cc:459-467 | a white vertex has never been queued; queuing it keeps the invariant |
| `Dijkstra.SearchDone` | runtime/src/iree-amd-aie/aie_runtime/iree_aie_router.cc:412-476 | when the queue is empty, the popped vertices are exactly the reachable ones |
| `Dijkstra.TreePathOk` | runtime/src/iree-amd-aie/aie_runtime/iree_aie_router.cc:394-477 | every predecessor chain is a path of channels from the source, and its total weight is the recorded distance |
| `Dijkstra.ShortestPaths` | runtime/src/iree-amd-aie/aie_runtime/iree_aie_router.cc:394-477 | terminates; pops, hence queues, each vertex at most once; predecessors exactly for the reachable vertices other than the source; every predecessor popped earlier, so chains are acyclic; distances exact along tree edges; no channel to a vertex popped later offers a shorter way; all paths are shortest unless some queued vertex had its distance lowered, which does not happen with equal weights |
| `Dijkstra.ShortestIff` | runtime/src/iree-amd-aie/aie_runtime/iree_aie_router.cc:449-473 | the tree is one of shortest paths if and only if no channel back to a vertex popped earlier offers a shorter way |
| `Dijkstra.AscendingShortest` | runtime/src/iree-amd-aie/aie_runtime/iree_aie_router.cc:409-411 | if vertices are popped in the order of their distances, all paths are shortest |
| `Dijkstra.FirstWayStands` | runtime/src/iree-amd-aie/aie_runtime/iree_aie_router.cc:458-471 | with equal weights and vertices popped in order, no later way to a vertex is shorter than the first |
| `Capacity.UnitCharge` | runtime/src/iree-amd-aie/aie_runtime/iree_aie_router.cc:574-592 | a group charged at most one unit crosses an entry at most 32 times, or once without joining and with no packets counted before |
| `Capacity.CrossingCharged` | runtime/src/iree-amd-aie/aie_runtime/iree_aie_router.cc:608-616 | a group that crosses an entry, or finds packets counted there, is charged at least one unit |
| `Capacity.OneGroup` | runtime/src/iree-amd-aie/aie_runtime/iree_aie_router.cc:622-638 | within capacity only one group crosses an entry, and only if no other group found packets there |
| `Congestion.CrossedOk` | runtime/src/iree-amd-aie/aie_runtime/iree_aie_router.cc:574-595 | one crossing is booked exactly once, as joined or as a unit of its own, and leaves other entries alone |
| `Congestion.ClaimBlocks` | runtime/src/iree-amd-aie/aie_runtime/iree_aie_router.cc:574-586 | a packet flow that joins keeps other packet groups from joining on its row and column, and nowhere else |
| `Congestion.CornersChangeHands` | runtime/src/iree-amd-aie/aie_runtime/iree_aie_router.cc:574-586 | but not for good: when another group joins elsewhere in the box, the entries where their rows and columns meet change hands |
| `Congestion.CrossedFair` | runtime/src/iree-amd-aie/aie_runtime/iree_aie_router.cc:574-592 | every claim is of a group that joined on the row or column, and a packet flow takes a unit of its own only where another group has joined |
| `Congestion.DearerCrossed` | runtime/src/iree-amd-aie/aie_runtime/iree_aie_router.cc:107-113 | within an iteration no entry gets cheaper than at its start, and one at capacity costs half as much again at least |
| `PathTrace.PairsAvailable` | runtime/src/iree-amd-aie/aie_runtime/iree_aie_router.cc:596-600 | the two port lists of a switch box setting have equal length and pair ports the box can connect |
| `PathTrace.LinksConfigured` | runtime/src/iree-amd-aie/aie_runtime/iree_aie_router.cc:596-600 | every link inside a switch box is in its setting |
| `PathTrace.TraceIsRoute` | runtime/src/iree-amd-aie/aie_runtime/iree_aie_router.cc:550-604 | the traced links are channels, drive no vertex twice, and contain a path from the source to every destination |
| `FindPaths.TraceFlow` | runtime/src/iree-amd-aie/aie_runtime/iree_aie_router.cc:550-606 | the backward walk terminates with a route and its settings, and books every crossing |
| `FindPaths.RouteGroup` | runtime/src/iree-amd-aie/aie_runtime/iree_aie_router.cc:541-619 | every flow of a group gets a route that is its entry of the solution, along a search tree for the weights it met, in which entries at capacity are dearer; at the end of the group units used are units charged |
| `FindPaths.EntryIsLegal` | runtime/src/iree-amd-aie/aie_runtime/iree_aie_router.cc:525-645 | an entry not over capacity is crossed by one circuit flow and nothing else, or by at most 32 flows of one packet group; no circuit flow crosses an entry with previously routed packets |
| `Router.GroupFlows` | runtime/src/iree-amd-aie/aie_runtime/iree_aie_router.cc:499-503 | every flow is in the group of its ID, in order; groups in ascending order of ID |
| `Router.Router.AddFlow` | runtime/src/iree-amd-aie/aie_runtime/iree_aie_router.cc:266-299 | a known source gets one more destination and nothing else changes; a new one a new flow, in group -1 for a circuit, in the group of the first flow that shares the destination, or in a fresh group |
| `Router.Router.ChooseGroup` | runtime/src/iree-amd-aie/aie_runtime/iree_aie_router.cc:281-292 | the group ID of a new flow; only a fresh one moves the counter |
| `Router.Router.RouteOnce` | runtime/src/iree-amd-aie/aie_runtime/iree_aie_router.cc:520-658 | one iteration starts from weights given by past overloads and the last use; its routes regard congestion and packet flows share uncontended entries; overloads are counted; without illegal edges it is a solution |
| `Router.Router.FindAllPaths` | runtime/src/iree-amd-aie/aie_runtime/iree_aie_router.cc:485-663 | a returned solution routes every flow and uses every entry legally, is that of the first iteration without illegal edges, and was guided by how often entries had been over capacity and how they were used; none comes back only after exactly `maxIterations` iterations, each of which left an entry over capacity |
| `Router.DemandGrows` | runtime/src/iree-amd-aie/aie_runtime/iree_aie_router.cc:96-105 | every overload and every use makes an entry strictly dearer in the next iteration |
| `CommandChain.RunDefault` | runtime/src/iree-amd-aie/driver/amdxdna/direct_command_buffer.cc:1028-1051 | the default path submits all commands in order, or a prefix of them and fails; every command submitted has a patched code; with no failing device call it succeeds if and only if the codes it patches are well-formed |
| `CommandChain.NormalRun` | runtime/src/iree-amd-aie/driver/amdxdna/direct_command_buffer.cc:771-856 | the kernel command submitted as often as asked, or fewer times and a failure; nothing for zero runs |
| `CommandChain.ReconfigureRun` | runtime/src/iree-amd-aie/driver/amdxdna/direct_command_buffer.cc:858-934 | the reconfiguration command submitted as often as asked, or fewer times and a failure |
| `CommandChain.ChunksFromAll` | runtime/src/iree-amd-aie/driver/amdxdna/direct_command_buffer.cc:739-747 | chunking a group loses, repeats and reorders nothing |
| `CommandChain.ChunksFromFit` | runtime/src/iree-amd-aie/driver/amdxdna/direct_command_buffer.cc:739-747 | chunks are on one queue, never empty, within `max_slots`, and full but for the last |
| `CommandChain.CommandBuffer.Accumulate` | runtime/src/iree-amd-aie/driver/amdxdna/direct_command_buffer.cc:528-642 | appends the commands of the default path in its order, with a new group exactly when the queue changes; on success the group gains those commands, a buffer with each reconfiguration's data and the dispatch's bindings; a failure leaves a prefix, and nothing is submitted |
| `CommandChain.CommandBuffer.SubmitChain` | runtime/src/iree-amd-aie/driver/amdxdna/direct_command_buffer.cc:647-708 | a chain is submitted only if it binds no more buffers than the device allows |
| `CommandChain.CommandBuffer.FlushChains` | runtime/src/iree-amd-aie/driver/amdxdna/direct_command_buffer.cc:714-769 | submits the chunks of all groups in order, or a prefix and fails, each within the ceiling; writes all bindings back; the groups are dropped unless the slot count could not be had |
| `CommandRuns.RunChained` | runtime/src/iree-amd-aie/driver/amdxdna/direct_command_buffer.cc:528-769 | the concatenated chunks are the default path's commands, with the same queue, control code, arguments and repeat counts; on failure a prefix of them; with each command goes its code with the addresses of its arguments written in by the table of its own run; each chain binds all control-packet data and bindings of its run; on success all bindings are written back; with no failing device call and good codes and tables it succeeds if and only if the largest chain of every run is within the ceiling |
| `CommandRuns.RunsPartition` | runtime/src/iree-amd-aie/driver/amdxdna/direct_command_buffer.cc:569-576 | the runs are the dispatches cut exactly where the queue changes |
| `CommandRuns.WithinIff` | runtime/src/iree-amd-aie/driver/amdxdna/direct_command_buffer.cc:672-684 | whether all chains are within the ceiling is decided by the dispatches: commands up to the slot limit, plus reconfigurations, plus bindings of each run |
| `CommandChain.BufferArgs` | runtime/src/iree-amd-aie/driver/amdxdna/direct_command_buffer.cc:823-840 | the default path's buffer arguments are base plus both offsets, in order |
| `CommandChain.CommandBuffer.BindingAddresses` | runtime/src/iree-amd-aie/driver/amdxdna/direct_command_buffer.cc:553-567 | the chained path's addresses are the same |
| `CommandCode.PatchCodeBytes` | runtime/src/iree-amd-aie/driver/amdxdna/direct_command_buffer.cc:498-499 | patching a code as words is patching its bytes in place: same outcome, same length |
| `CommandCode.TableCodeSucceeds` | runtime/src/iree-amd-aie/driver/amdxdna/direct_command_buffer.cc:500-505 | whether the table can be applied depends on the table, the length of the code and the number of addresses only |
| `CommandCode.ChainedCodeDecodes` | runtime/src/iree-amd-aie/driver/amdxdna/direct_command_buffer.cc:483-519 | every chained kernel command is a run of a dispatch, and the code that goes with it decodes, at each entry of that run's table (if no two overlap), to the old address plus the argument address that the default path passes, the addend and the aperture |
| `TxnPatch.PatchWrite32Constants` | runtime/src/iree-amd-aie/driver/amdxdna/direct_command_buffer.cc:409-444 | the in-place loop computes outcome and bytes of the patch function |
| `TxnPatch.OpSizeAt` | runtime/src/iree-amd-aie/driver/amdxdna/direct_command_buffer.cc:386-407 | the size read at a serialised operation is the operation's size |
| `TxnPatch.TaggedIff` | runtime/src/iree-amd-aie/driver/amdxdna/direct_command_buffer.cc:378-382 | the tagged words are the sentinel with an index below 2^16 added, and that index is read back |
| `TxnPatch.PatchSerialized` | runtime/src/iree-amd-aie/driver/amdxdna/direct_command_buffer.cc:416-442 | patching a serialised list of operations is serialising the patched list; succeeds exactly if every tagged index is within the constants |
| `TxnPatch.PatchTransaction` | runtime/src/iree-amd-aie/driver/amdxdna/direct_command_buffer.cc:409-444 | the same for a whole transaction: header, operation boundaries and trailing bytes stay |
| `TxnPatch.PatchedValue` | runtime/src/iree-amd-aie/driver/amdxdna/direct_command_buffer.cc:425-440 | exactly the tagged WRITE32 values change, each to the constant its index names |
| `PatchTable.NewAddress` | runtime/src/iree-amd-aie/driver/amdxdna/direct_command_buffer.cc:475-478 | the descriptor decodes to old address plus argument, addend and aperture, modulo 2^48, rounded down to four |
| `PatchTable.UpperKept` | runtime/src/iree-amd-aie/driver/amdxdna/direct_command_buffer.cc:478 | the other half of the word survives exactly if the sum has no one bit above bit 47 where the word has a zero |
| `PatchTable.CarryDamages` | runtime/src/iree-amd-aie/driver/amdxdna/direct_command_buffer.cc:478 | for every sum from 2^48 to below 2^49: the upper half gains its lowest bit, so it changes exactly if that bit was zero |
| `PatchTable.ApplyPatchTable` | runtime/src/iree-amd-aie/driver/amdxdna/direct_command_buffer.cc:458-481 | the in-place loop applies the entries in order up to the first bad one |
| `PatchTable.SucceedsIff` | runtime/src/iree-amd-aie/driver/amdxdna/direct_command_buffer.cc:469-473 | success exactly if every entry's argument index, bounds and alignment are right |
| `PatchTable.OthersKept` | runtime/src/iree-amd-aie/driver/amdxdna/direct_command_buffer.cc:470-478 | words no entry addresses are left alone |
| `PatchTable.TableDecodes` | runtime/src/iree-amd-aie/driver/amdxdna/direct_command_buffer.cc:458-481 | in a table of disjoint entries every descriptor decodes to its own sum, exactly and with the rest of the word intact below 2^48 |
| `PatchTable.OrderIrrelevant` | runtime/src/iree-amd-aie/driver/amdxdna/direct_command_buffer.cc:465-479 | the order of disjoint entries does not matter |
| `BdIds.LongestNext` | runtime/src/iree-amd-aie/aie_runtime/Utils/ChannelBdIdGenerator.cpp:58-69 | one scan step keeps `best` the first of the longest runs of free IDs |
| `BdIds.PrefixBest` | runtime/src/iree-amd-aie/aie_runtime/Utils/ChannelBdIdGenerator.cpp:68 | stopping early is right: a run of the asked length found in a prefix is the first one of the whole list |
| `BdIds.ChannelBdIdGenerator.LongestRun` | runtime/src/iree-amd-aie/aie_runtime/Utils/ChannelBdIdGenerator.cpp:57-70 | on an ascending list the result is the lowest-starting window of free IDs of length min(num, longest run) |
| `BdIds.ChannelBdIdGenerator.GetAndAssignConsecutiveBdIds` | runtime/src/iree-amd-aie/aie_runtime/Utils/ChannelBdIdGenerator.cpp:49-76 | assigns exactly that window; on any list the IDs are distinct, valid and were free |
| `BdIds.ChannelBdIdGenerator.GetAndAssignBdId` | runtime/src/iree-amd-aie/aie_runtime/Utils/ChannelBdIdGenerator.cpp:11-47 | on an ascending list the least free ID, or in incremental mode the least one above the last used if there is one; none exactly if none is free |
| `BdIds.ChannelBdIdGenerator.NumAvailableBdIds` | runtime/src/iree-amd-aie/aie_runtime/Utils/ChannelBdIdGenerator.h:66-75 | the number of unassigned entries of the channel's list |
| `BdIds.ChannelBdIdGenerator.ReleaseBdId` | runtime/src/iree-amd-aie/aie_runtime/Utils/ChannelBdIdGenerator.h:62 | the ID is free again and nothing else changes |
| `BdIds.ReleasedBetween` | runtime/src/iree-amd-aie/aie_runtime/Utils/ChannelBdIdGenerator.cpp:11-76 | over any history of assignments and releases, an ID handed out twice was released in between |

## Left out

- Whether another placement than the greedy one exists when the arbiter/msel search fails: its merge test is strict and counts repeated port lists, so one may.
- Reuse of channels by new packet flows beside previously routed ones: the fixed counts are charged at the end of the first group, so such reuse is not always accepted; what is accepted is proved legal.
- Merging two packet groups when a new flow overlaps both: the code does not, the flow joins the first.
- addFixedCircuitConnection, addFixedPacketConnection and initialize, which only fill the graph and counts the model takes as given (with `RoutingGraph.GraphOk` for what `interconnect` builds).
- Routing a flow to itself (`iree_aie_router.cc:555-559`): sources and destinations differ in direction.
- emitConnections, existsPathToDest, shim-mux tables, and whether a path is a sensible physical route: only graph-level facts are claimed.
- The frontier epoch of the worker (`async_queue.cc:291-300`), arenas, status objects and semaphore internals.
- Termination of destroy under a fair scheduler: no state is stuck and the worker's exit is bounded, but retries of a compare-and-swap are not.
- Enqueue failures before the op is accepted (`async_queue.cc:510-566`): nothing of the queue has changed by then.
- Fill, update and copy commands, executed while recording; only dispatches are modelled.
- How firmware patches buffer addresses on the default path: both paths are compared by control code and argument addresses before that.
- 64-bit overflow of buffer address sums in `CommandChain.Addresses`.
- aie-rt, CDO and kernel driver calls, header dropping in `configureSwitchPacketMasters`, device constants, buffer mapping and sync.
- ChannelGenerator, LockIdGenerator and packet header packing: single-step members.
- PacketGroupsProof.AddIdOk: for an ID not met before on its port, because a repeated one can break the invariant; repetitions are in `PacketGroupsRepeat.RepeatHarmless`, `PacketGroupsLate.EnterLate` and `PacketGroupsLate.LateStep`.
- PacketGroupsProof.RollbackOk: as `PacketGroupsProof.AddIdOk`.
- PacketGroupsProof.NewGroupOk: as `PacketGroupsProof.AddIdOk`.
- PacketDelivery.PacketDelivered: for good ports; at a bad port some ID is not caught by a group that contains it, which may by chance still reach its ports through the rule of another group with the same destinations.
- PacketDelivery.ConfigureSwitches: select words have eight bits, so tiles are taken to have at most eight msels; the flows of a tile are placed by the greedy rule, which may fail although a solution exists.
- Dijkstra.ShortestPaths: takes the channel cache and the weights as values; the order in which channels are sorted is not fixed.
