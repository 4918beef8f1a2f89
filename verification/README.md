# Models of the VPSim virtual platform

This project models the parts of VPSim that carry state over many steps and states what they keep.

* **The single-producer single-consumer queue** (`Spsc*.dfy`). Every shared load and store of an
  enqueue, dequeue, pop or peek is one atomic step of a two-process state machine. Any interleaving
  refines a plain first-in first-out sequence.
* **The CPU/memory epoch protocol** (`Epoch*.dfy`). The ISS side and the memory thread are two
  processes over a shared priority queue, two epoch counters and two delay slots per CPU.
* **Parameter sets** (`AddrSpaces.dfy`, `Param*.dfy`). Lists of address ranges stand for partial
  functions from addresses to values, and every operation is shown to be its pointwise meaning.
* **Network-on-chip routing** (`Dijkstra.dfy`, `NoC*.dfy`). Shortest paths, shared routing tables,
  hop counts, and the closed forms on mesh and ring.
* **The mesh contention model** (`MeshRoutes.dfy`, `MeshTraffic.dfy`, `OrderedKeys.dfy`,
  `PacketBuffers.dfy`, `PacketLatencies.dfy`, `Contention.dfy`, `ContentionBounds.dfy`,
  `ContentionLaws.dfy`).
* **The round-robin router** (`RoundRobin.dfy`, `Router.dfy`).
* **The interrupt controller** (`GicQueues.dfy`, `Gic.dfy`, `GicRuns.dfy`), after the ARM GICv2
  architecture (IHI 0048B); software interrupts follow section 4.3.15, GICD_SGIR.
* **The LRU cache set** (`LruOrder.dfy`, `LruSet.dfy`).

Where two threads share state the code is a state machine: program counters are datatypes, a step is
a function, and a run is any sequence of actions, so that a theorem over `Run` is a theorem over every
interleaving. Where one object updates its fields the code is a class whose methods are proved against
functions of the old state.

## Properties that hold only under a condition

* `ComputePacketLatency` asks in a comment (CoherenceInterconnect.cpp line 604) whether `find` and
  `prev` are always legal. They are. The later `prev(it, n)` and the lookup by its result are legal
  for all traffic if and only if the buffers have depth one (`SafeIffDepthOne`); for given routes they
  are legal if and only if `SafeDepth` holds, which is stated by ranks in the buffers.
* `NextVictim` is meant to be the least recently used line. The test for the top rank precedes the
  reset of the line just used, so that line is elected itself when it held the top rank at a higher
  index than its successor (`ElectedIsLeastRecent`, `MostRecentElected`).
* `trim` leaves a container sorted and disjoint if and only if no entry meets an address that lies in
  two of the allowed ranges (`TrimContainer`, `Trim`, with an input that fails in `TrimOverlap`).
  Lookups are right in any case.

## Where code and comments differ

* `ApproximateDelayParameter::operator<` is reversed, so `max` in `mergeImportedParam` keeps the
  shorter delay. The model follows the code.
* In `QueueWaitingTime` fewer packets than virtual channels divide by an integer zero; the quotient is
  an infinite double, the difference is negative and the wait is zero. The model says so outright.
* The interrupt controller keeps 512 interrupts of pending state, while its registers can name 1024.
  The model demands numbers below 512 where the code indexes the pending words, except for the
  number written to end an interrupt: the code clears its pending bit, outside the words if it is 512
  or more, and then fails because no such number is at the head (`LargeIdRefused`); the model reports
  the failure.

## Model

| member | source | states |
|---|---|---|
| `SpscTheorems.Fifo` | components/include/components/readerwriterqueue.h:270-608 | In every interleaving of producer and consumer steps from a freshly built queue, the arguments of the accepted enqueue calls of the run are, in call order, exactly the delivered values followed by what is still stored; only try_dequeue and pop deliver, only peek peeks, an empty answer saw nothing stored at a moment inside the call; no assertion fails, the blocks strictly between front and tail block are full and those outside that arc are empty |
| `SpscTheorems.RunOk` | components/include/components/readerwriterqueue.h:270-608 | The invariant (ring of blocks, arc between front and tail block, stale shadow copies, what each thread knows at each step) survives every run |
| `SpscTheorems.ProducerStepOk` | components/include/components/readerwriterqueue.h:499-608 | Every step of an enqueue keeps the invariant; only linking a new block lengthens the ring |
| `SpscTheorems.ConsumerStepOk` | components/include/components/readerwriterqueue.h:270-474 | Every step of try_dequeue, pop or peek keeps the invariant and the length of the ring |
| `SpscTheorems.RunKeepsCalls` | components/include/components/readerwriterqueue.h:270-608 | Accepted and delivered values are those of the calls that returned true, in call order, over every run |
| `SpscCalls.RunFits` | components/include/components/readerwriterqueue.h:270-608 | Over every run the n-th enqueue call has the n-th push outcome and the n-th dequeue call the n-th pop outcome, each of the kind of the call; an enqueue that may allocate is never refused and a try_enqueue never runs out of memory |
| `SpscCalls.EnqueueSucceeds` | components/include/components/readerwriterqueue.h:567-600 | If no allocation fails, every enqueue that may allocate is accepted |
| `SpscMoments.RunWitnessed` | components/include/components/readerwriterqueue.h:293-358 | Every refusal and every empty answer reports what was stored at a moment inside its own call, counted by the outcomes of completed calls |
| `SpscProofs.StartOk` | components/include/components/readerwriterqueue.h:516-521 | The fast-path test on the shadow front only ever errs on the safe side |
| `SpscProofs.CheckFrontOk` | components/include/components/readerwriterqueue.h:521-536 | Refreshing the shadow front keeps the invariant; a full tail block is really full at that moment |
| `SpscProofs.WriteOk` | components/include/components/readerwriterqueue.h:522-529 | Writing the element touches a slot that is not part of the queue's contents |
| `SpscProofs.PublishOk` | components/include/components/readerwriterqueue.h:531-533 | Publishing the new tail appends exactly the written element to the queue |
| `SpscProofs.CheckRingOk` | components/include/components/readerwriterqueue.h:535-536 | The next block equals the front block exactly when the tail block is last in the ring |
| `SpscProofs.NextFrontOk` | components/include/components/readerwriterqueue.h:545-552 | The block ahead is empty, so the assertion holds |
| `SpscProofs.NextWriteOk` | components/include/components/readerwriterqueue.h:546-560 | Writing into the empty block ahead leaves the contents alone |
| `SpscProofs.NextTailOk` | components/include/components/readerwriterqueue.h:562-562 | Publishing the tail of the block ahead before the tail block pointer hides the element until the pointer moves |
| `SpscProofs.MoveOk` | components/include/components/readerwriterqueue.h:564-565 | Moving the tail block pointer appends exactly the written element |
| `SpscProofs.AllocOk` | components/include/components/readerwriterqueue.h:567-585 | A new block, or a failed allocation, leaves the queue unchanged |
| `SpscProofs.LinkOk` | components/include/components/readerwriterqueue.h:585-595 | Linking the new block right behind the tail block inserts it into the ring and leaves the queue unchanged until the tail block pointer moves |
| `SpscProofs.CStartOk` | components/include/components/readerwriterqueue.h:293-297 | The consumer's stale shadow tail never shows an element that is not there |
| `SpscProofs.CCheckTailOk` | components/include/components/readerwriterqueue.h:297-311 | Refreshing the shadow tail; an empty front block is really empty at that moment |
| `SpscProofs.CReadOk` | components/include/components/readerwriterqueue.h:300-304 | The value read is the head of the queue; a peek leaves the queue unchanged and a dequeue goes on to remove it |
| `SpscProofs.CAdvanceOk` | components/include/components/readerwriterqueue.h:306-309 | Publishing the new front removes exactly the head |
| `SpscProofs.CCheckTailBlockOk` | components/include/components/readerwriterqueue.h:311-311 | A consumer that finds its block to be the tail block answers empty only when the queue was empty |
| `SpscProofs.CRecheckOk` | components/include/components/readerwriterqueue.h:314-322 | The second look at the front block after reading the tail block cannot skip a filled block |
| `SpscProofs.CNextOk` | components/include/components/readerwriterqueue.h:325-330 | The next block lies inside the arc |
| `SpscProofs.CNextTailOk` | components/include/components/readerwriterqueue.h:331-337 | The next block is not empty, so the assertion holds |
| `SpscProofs.CMoveFrontOk` | components/include/components/readerwriterqueue.h:341-341 | Moving the front block pointer rotates the ring and keeps the contents |
| `SpscProofs.CLookNextOk` | components/include/components/readerwriterqueue.h:396-402 | A peek into the next block returns the head of the queue |
| `SpscProofs.RefusedMeansFull` | components/include/components/readerwriterqueue.h:536-600 | When an enqueue is refused, every block but the spare one is full |
| `SpscConstructor.Construct` | components/include/components/readerwriterqueue.h:89-146 | The constructor builds a ring of equal empty blocks whose usable room is at least maxSize: one block, of the least power of two above maxSize, or blocks of the largest size, one of them to spare |
| `SpscConstructor.BlockCount` | components/include/components/readerwriterqueue.h:103-108 | The block-count formula is ceil(maxSize / (M - 1)) + 1 |
| `SpscConstructor.CeilLog2` | components/include/components/readerwriterqueue.h:101-101 | The block size is the least power of two that is not below maxSize + 1 |
| `SpscConstructor.RefusalMeansFull` | components/include/components/readerwriterqueue.h:520-536 | With try_enqueue only, an element is refused only if at least maxSize elements were stored at a moment inside the call |
| `SpscTheorems.RunKeepsRefusals` | components/include/components/readerwriterqueue.h:534-600 | Every refusal in every run of try_enqueue saw all blocks but one full |
| `SpscProgress.WaitFree` | components/include/components/readerwriterqueue.h:270-608 | Wait-freedom: in every interleaving an enqueue ends after at most seven of its own steps and a dequeue, pop or peek after at most nine, whatever the other thread does (an allocation counts as one step) |
| `SpscGrowth.DoublingsLeast` | components/include/components/readerwriterqueue.h:569-569 | Doubling stops at the first size that is not below MAX_BLOCK_SIZE |
| `SpscGrowth.BlocksDouble` | components/include/components/readerwriterqueue.h:569-575 | Over every run, blocks keep their size and the k-th block added is 2^k times as large as the first ones, until that reaches MAX_BLOCK_SIZE |
| `SpscGrowth.AllocationMeansFull` | components/include/components/readerwriterqueue.h:567-590 | Over every run, an enqueue that goes for a new block has seen the queue full at a moment inside the call |
| `SpscGrowth.NewBlockMeansFull` | components/include/components/readerwriterqueue.h:566-590 | Over every run, a block is added only by an enqueue during which, at some moment, all blocks of the ring but the front one (or the only one) were full |
| `SpscPow2.CeilToPow2` | components/include/components/readerwriterqueue.h:619-631 | On 64-bit words the result is the power of two with x/2 <= size-1 < x, or zero when size-1 has its top bit set |
| `SpscPow2.LeastAbove` | components/include/components/readerwriterqueue.h:619-631 | That power of two is the least one not below the argument |
| `SpscSizes.CeilMatches` | components/include/components/readerwriterqueue.h:101-101 | For every 64-bit size up to 2^63 the word that the bit trick yields stands for the power of two that the constructor uses |
| `SpscPow2.SmearTops` | components/include/components/readerwriterqueue.h:622-629 | Or-ing the shifted word sets exactly the bits below the highest one |
| `SpscBlocks.MaskIsInc` | components/include/components/readerwriterqueue.h:520-520 | The masked increment is the modular increment for power-of-two sizes, on 64-bit words |
| `EpochOrder.HandledInOrder` | components/include/components/MainMemCosim.hpp:193-298 | Over every run, handled requests are sorted by epoch and time stamp; they and the pending ones are the notifications of the run, each once, with the time stamp it came with and in the epoch it came in; an epoch is handled only after the CPU side has left it, and nothing older than the memory epoch is pending |
| `EpochCalls.RunCalls` | components/include/components/MainMemCosim.hpp:98-137 | What is pushed, the epoch, the notification switch and the delays are read off the actions of the run: one request per notification that counts, one epoch per FillBiases, one delay per CPU access handled |
| `EpochOrder.RunKeepsOrder` | components/include/components/MainMemCosim.hpp:245-311 | The invariant behind it survives every interleaving of the two threads |
| `EpochOrder.MemKeepsOrder` | components/include/components/MainMemCosim.hpp:250-296 | Every step of the memory thread keeps it, including both put-backs |
| `EpochOrder.NotifyKeepsOrder` | components/include/components/MainMemCosim.hpp:193-228 | A new request belongs to the CPU's own epoch and disturbs nothing the memory thread knows |
| `EpochOrder.FirstPopKeepsOrder` | components/include/components/MainMemCosim.hpp:257-262 | The first pop of an epoch |
| `EpochOrder.NextPopKeepsOrder` | components/include/components/MainMemCosim.hpp:290-290 | The following pops of an epoch |
| `EpochOrder.HandleKeepsOrder` | components/include/components/MainMemCosim.hpp:271-289 | Handling a request of the current epoch keeps the handled sequence sorted |
| `EpochOrder.PutBackKeepsOrder` | components/include/components/MainMemCosim.hpp:265-270 | A popped request of a later epoch is put back and not lost |
| `EpochOrder.AdvanceKeepsOrder` | components/include/components/MainMemCosim.hpp:258-295 | Moving the memory epoch never passes a pending request |
| `EpochDelays.DelaysReportedOnce` | components/include/components/MainMemCosim.hpp:124-137 | With notifications on throughout, the CPU side leaves its wait at most EPOCHS - 1 epochs ahead, never drains the slot being added to, and the call that ends epoch j reports exactly what the memory system chose for the CPU accesses of epoch j - 1 |
| `EpochTotals.DelaysConserved` | components/include/components/MainMemCosim.hpp:124-137 | Over every run, with notifications on, halted or switched: for every CPU the delays chosen for its accesses are those reported plus those in its two slots |
| `EpochDelays.RunKeepsDelays` | components/include/components/MainMemCosim.hpp:124-137 | The two slots hold the delays of the two latest epochs over every run |
| `EpochDelays.HandleKeepsDelays` | components/include/components/MainMemCosim.hpp:275-279 | A CPU access adds its delay to the slot of its own epoch only |
| `EpochDelays.DrainKeepsDelays` | components/include/components/MainMemCosim.hpp:386-391 | Draining reports one epoch's delays for every CPU and leaves the slot empty |
| `EpochDelays.FillKeepsDelays` | components/include/components/MainMemCosim.hpp:124-129 | Entering a new epoch starts from an empty slot |
| `EpochDelays.MemKeepsDelays` | components/include/components/MainMemCosim.hpp:250-296 | The other steps of the memory thread touch no delay |
| `EpochProgress.NoDeadlock` | components/include/components/MainMemCosim.hpp:128-134 | The two waits and the two mutexes never block both threads at once |
| `EpochWaiting.AlwaysMoves` | components/include/components/MainMemCosim.hpp:124-298 | In every reachable state in which FillBiases cannot go on, the next step of the memory thread changes the state, whichever first request it takes |
| `EpochWaiting.ProperExists` | components/include/components/MainMemCosim.hpp:245-298 | A queue with requests always has one with no request of an earlier epoch, or of the same epoch and an earlier time stamp, so that the pops above exist |
| `EpochWaiting.WaitEnds` | components/include/components/MainMemCosim.hpp:128-129 | From every reachable state and in every interleaving, the memory thread takes at most a bounded number of steps (linear in pending requests times epochs) before a polling CPU side may go on |
| `EpochWaiting.MemNearer` | components/include/components/MainMemCosim.hpp:250-296 | Every step of the memory thread raises its epoch, handles a request or comes nearer to one of the two |
| `EpochProgress.RunKeepsLocks` | components/include/components/MainMemCosim.hpp:263-291 | A mutex is held exactly by the thread inside its critical section, over every run |
| `AddrSpaces.Intersect` | core/AddrSpace.cpp:93-98 | True exactly when some address lies in both ranges |
| `AddrSpaces.Intersection` | core/AddrSpace.cpp:100-110 | Contains exactly the common addresses |
| `AddrSpaces.RelativeComplement` | core/AddrSpace.cpp:112-127 | The pieces are disjoint and contain exactly the addresses of the first range outside the second |
| `ParamContainers.GetParameterValue` | core/vpsimModule/parameterSet.cpp:24-42 | The value of the entry that covers the address, or the default |
| `ParamContainers.Defrag` | core/vpsimModule/parameterSet.cpp:321-363 | Terminates, keeps every lookup and the order, leaves no mergeable neighbours, and is sorted and disjoint if and only if its input was, provided the whole address space occurs at most once |
| `ParamContainers.Canonical` | core/vpsimModule/parameterSet.cpp:321-396 | Two defragmented containers with the same lookups are equal |
| `ParamContainers.EqualContainers` | core/vpsimModule/parameterSet.cpp:371-391 | Entry-by-entry equality |
| `ParamSetting.SetParameterHelper` | core/vpsimModule/parameterSet.cpp:132-184 | Terminates, keeps the container sorted and disjoint and equals the pointwise update: pick(old, new) on overlap, new on uncovered addresses of the range, unchanged elsewhere |
| `ParameterSets.CombineContainers` | core/vpsimModule/parameterSet.cpp:219-224 | Merging a container into another is the pointwise combination, in defragmented form |
| `ParameterSets.NewDelays` | core/vpsimModule/parameterSet.cpp:255-281 | The splitting by rate ranges terminates and partitions the range, scaling by the rate where one applies |
| `ParameterSets.ScaleDelays` | core/vpsimModule/parameterSet.cpp:283-288 | Every own delay is scaled by the exported rate at its address |
| `ParameterSets.TrimContainer` | core/vpsimModule/parameterSet.cpp:297-314 | Lookups are restricted to the allowed ranges; the result is sorted and disjoint if and only if no two allowed ranges overlap inside an entry |
| `ParameterSets.AllPartsApart` | core/vpsimModule/parameterSet.cpp:299-309 | Before sorting, the pieces are disjoint if and only if no two allowed ranges overlap inside an entry |
| `ParameterSets.TrimOverlap` | core/vpsimModule/parameterSet.cpp:299-313 | Trimming 0-9 to the allowed ranges 0-5 and 3-9 leaves two overlapping entries that defrag does not merge |
| `ParamContainers.SortReflectsForm` | core/vpsimModule/parameterSet.cpp:310-310 | A sorted list is in proper form only if the unsorted one was disjoint |
| `ParamContainers.MergeReflectsForm` | core/vpsimModule/parameterSet.cpp:340-349 | Merging neighbours hides no overlap |
| `ParamModule.ParameterSet.SetParameter` | core/vpsimModule/parameterSet.cpp:96-111 | In the container of the parameter's type every address of the range gets the value and every other address keeps its own; the other containers are unchanged |
| `ParamModule.ParameterSet.MergeImportedParam` | core/vpsimModule/parameterSet.cpp:212-231 | At every address: specified if either is, enabled if either is, and the shorter of the delays specified; rates do not propagate |
| `ParamModule.ParameterSet.AddExportedParam` | core/vpsimModule/parameterSet.cpp:234-294 | Blocking flags are or-ed; at every address the delay is the own time times the exported factor, if there is one, plus the exported time |
| `ParamModule.ParameterSet.Trim` | core/vpsimModule/parameterSet.cpp:297-319 | All three containers are restricted to the allowed ranges; the set stays valid if and only if no two allowed ranges overlap inside an entry |
| `ParamModule.ParameterSet.Equals` | core/vpsimModule/parameterSet.cpp:366-396 | Equality of all three containers |
| `ParamModule.EqualIffSameValues` | core/vpsimModule/parameterSet.cpp:366-396 | On defragmented containers operator== holds if and only if every address has the same value |
| `ParamModule.MergePorts` | core/vpsimModule/vpsimModule.cpp:140-143 | Merging the sets of all ports gives the pointwise fold |
| `ParamModule.FoldIgnoresOrder` | core/vpsimModule/parameterSet.cpp:212-231 | The fold does not depend on the order of the ports |
| `ParamModule.MergeOrderIrrelevant` | core/vpsimModule/parameterSet.cpp:212-231 | Merging the same sets in any order produces equal containers |
| `ParamModule.MaxCommutes` | core/vpsimModule/moduleParameters.cpp:77-83 | The maxima of blocking flags and of (reversed) delays are commutative and associative |
| `ParameterSets.MaxDelay` | core/vpsimModule/moduleParameters.cpp:139-145 | The maximum in the reversed order is the shorter delay |
| `Dijkstra.Dijkstra` | components/connect/dijkstra.cpp:18-55 | Terminates; the reversed path is a walk of minimal weight from source to destination; no path is returned exactly when the destination is unreachable |
| `Dijkstra.Search` | components/connect/dijkstra.cpp:30-46 | Despite stale queue entries and the early exit, the distance of the destination is that of a shortest walk |
| `Dijkstra.Scan` | components/connect/dijkstra.cpp:35-45 | Relaxing the edges of one node |
| `NoCRouting.NoCBase.AddRouter` | components/connect/NoCBase.cpp:146-155 | A router is added once, with its port counters at zero |
| `NoCRouting.NoCBase.AddLink` | components/connect/NoCBase.cpp:163-195 | The link takes the next free ports of both routers, is recorded as the way from one to the other and becomes an edge of weight one |
| `NoCRouting.NoCBase.AddRouting` | components/connect/NoCBase.cpp:388-409 | The first entry for a router and target stays |
| `NoCRouting.NoCBase.AddPath` | components/connect/NoCBase.cpp:495-509 | Splicing a shortest path into the shared tables keeps every entry leading one hop nearer to its target |
| `NoCRouting.NoCBase.RoutePair` | components/connect/NoCBase.cpp:475-509 | Every pair of different routers gets an entry |
| `NoCRouting.NoCBase.BuildDefaultRoutingBidirectional` | components/connect/NoCBase.cpp:462-519 | On every connected topology every entry of the default tables leads one hop nearer to its target |
| `NoCHops.WalkIsChain` | components/connect/NoCBase.cpp:188-194 | With weight one on every link, path weights are hop counts |
| `NoCHops.PotentialIsHops` | components/connect/NoCBase.cpp:188-194 | A potential that drops by one along some link and by no more along any is the hop distance |
| `NoCHopCount.HopCounts` | components/connect/NoCNoContention.cpp:63-95 | Following the tables terminates and counts exactly the hops of a shortest path, for every pair |
| `NoCHopCount.CountHops` | components/connect/NoCNoContention.cpp:82-93 | The inner loop terminates with the shortest-path hop count |
| `NoCShapes.BuildMesh` | components/connect/Mesh.cpp:80-124 | The constructor lays out the four-neighbour grid |
| `NoCShapes.MeshHops` | components/connect/Mesh.cpp:92-123 | On the mesh the hop distance is the Manhattan distance |
| `NoCShapes.MeshHopCounts` | components/connect/Mesh.cpp:80-124 | Mesh, default routing and hop counting together yield Manhattan distances |
| `NoCRing.BuildRing` | components/connect/Ring.cpp:21-64 | The constructor lays out the one- or two-way ring |
| `NoCRing.RingHops` | components/connect/Ring.cpp:40-63 | On the ring the hop distance is the number of forward steps, or of the shorter way round |
| `NoCRing.ForwardIsModular` | components/connect/Ring.cpp:42-43 | The number of forward steps is the difference of the positions modulo the size |
| `NoCRing.RingHopCounts` | components/connect/Ring.cpp:21-64 | Ring, default routing and hop counting together yield that closed form |
| `MeshRoutes.XYRouteLeads` | components/connect/CoherenceInterconnect.cpp:492-550 | The XY route is a chain of neighbouring routers from source to the destination's local port, one router longer than the sum of the coordinate distances |
| `MeshRoutes.XYRouteNears` | components/connect/CoherenceInterconnect.cpp:492-550 | Every hop is one nearer to the destination and inside the mesh |
| `MeshRoutes.XYRouteSimple` | components/connect/CoherenceInterconnect.cpp:492-550 | No router is visited twice |
| `MeshRoutes.XYRouteXFirst` | components/connect/CoherenceInterconnect.cpp:509-543 | The route leaves its row only in the column of the destination |
| `MeshRoutes.XYRouteOk` | components/connect/CoherenceInterconnect.cpp:492-550 | The local port appears at the end of the route and only there |
| `MeshRoutes.XYRouteShortest` | components/connect/CoherenceInterconnect.cpp:408-421 | The route length is the closed-form distance of the contention-free model and the hop distance of the mesh graph, plus one |
| `Contention.CoherenceInterconnect.ComputeRouteAndUpdateRouters` | components/connect/CoherenceInterconnect.cpp:492-550 | Computes the XY route; every flit enters exactly the buffers on it and every router on it counts the flits |
| `Contention.CoherenceInterconnect.Traverse` | components/connect/CoherenceInterconnect.cpp:512-515 | One hop: the flits enter the port's buffer with no waiting time and the router counts them |
| `Contention.CoherenceInterconnect.SavePacket` | components/connect/CoherenceInterconnect.cpp:477-480 | One packet per flit, with consecutive ids |
| `Contention.CoherenceInterconnect.Inject` | components/connect/CoherenceInterconnect.cpp:774-779 | Keeps packetBuffer[k] at id k + 1, buffers in agreement with routes, and the sum of router counts equal to the total distance |
| `MeshTraffic.EnteredAgrees` | components/connect/CoherenceInterconnect.cpp:492-550 | After a packet is saved an id is again in a port's buffer exactly when that port is on its route |
| `MeshTraffic.CountedSum` | components/connect/CoherenceInterconnect.cpp:507-547 | A route of h routers adds h times the flits to the sum of the router counts |
| `MeshTraffic.RouterCounts` | components/connect/CoherenceInterconnect.cpp:507-547 | The counter at x + y * mX grows by the flits exactly if the route passes the router in column x and row y |
| `PacketLatencies.QueueWaitingTime` | components/connect/CoherenceInterconnect.cpp:552-564 | Zero if fewer packets than channels; else wait ahead plus router and link latency less the share of the interval, or zero if that is negative |
| `PacketLatencies.HeadOfLine` | components/connect/CoherenceInterconnect.cpp:633-661 | The position search, the search for the hop of the packet ahead and the step to its next hop stay inside their containers; the blocked wait is that of the looked-up packet, or the lookup leaves the buffer or misses its key |
| `Contention.QueueDelay` | components/connect/CoherenceInterconnect.cpp:591-631 | The wait behind the packet ahead; begin, find and prev stay inside the buffer |
| `Contention.CoherenceInterconnect.ServeHop` | components/connect/CoherenceInterconnect.cpp:586-664 | One hop records the same wait in the port, on the router and for the packet; fails exactly when the lookup is not safe |
| `Contention.CoherenceInterconnect.ServePacket` | components/connect/CoherenceInterconnect.cpp:584-664 | The wait of a packet is the sum of its recorded waits; other packets' entries are untouched |
| `Contention.CoherenceInterconnect.ComputePacketLatency` | components/connect/CoherenceInterconnect.cpp:575-669 | Succeeds if and only if every lookup is safe; then buffers and router waits are those of serving the packets hop by hop in order, every latency is its zero-load latency plus its recorded waits, and their sum is the zero-load sum plus what routers were charged |
| `Contention.SameRoutesSameHops` | components/connect/CoherenceInterconnect.cpp:583-667 | Latencies already written to the packet list play no part in later waits |
| `Contention.ComputedLatencies` | components/connect/CoherenceInterconnect.cpp:571-573 | Every latency is at least the zero-load latency, and equal to it for a packet that is first in all its buffers |
| `ContentionBounds.LatencyBounded` | components/connect/CoherenceInterconnect.cpp:571-669 | The latency of the k-th packet exceeds its zero-load latency by at most (2^(k-1) - 1) router-and-link times per hop |
| `ContentionBounds.PacketsBounded` | components/connect/CoherenceInterconnect.cpp:583-667 | Serving all packets in order keeps every recorded wait within that bound |
| `ContentionLaws.WaitEquations` | components/connect/CoherenceInterconnect.cpp:583-663 | Over all traffic, the wait of every packet at every hop equals its wait behind the packet ahead (owed on first meeting, nothing or that packet's new wait afterwards) plus its wait for the packet that blocks it, in terms of the final waits of earlier packets |
| `ContentionLaws.PlatoonLaw` | components/connect/CoherenceInterconnect.cpp:575-669 | k packets on one route: the j-th, counted from 0, is exactly j times max(0, router + link - interval / (k / channels)) late, whatever the depth; it is late at all exactly if j > 0 and the packets need more time than the interval has |
| `ContentionLaws.GainPositive` | components/connect/CoherenceInterconnect.cpp:552-564 | There is a cost exactly when there are as many packets as channels and their share of router and link times exceeds the interval |
| `ContentionLaws.BlockedPays` | components/connect/CoherenceInterconnect.cpp:633-661 | A packet behind one that is blocked in another port waits at least as long as the blocking packet waits there |
| `PacketBuffers.DepthOneSafe` | components/connect/CoherenceInterconnect.cpp:649-655 | With buffer depth one every lookup is safe |
| `PacketBuffers.SafeIffDepthOne` | components/connect/CoherenceInterconnect.cpp:649-655 | On a mesh of three columns or more all traffic is safe if and only if the buffers have depth one, whatever the number of virtual channels |
| `PacketBuffers.JamUnsafe` | components/connect/CoherenceInterconnect.cpp:652-655 | For every greater depth, depth times channels packets from router 1 to 2, then one from 0 to 2 and one from 0 to 1 make the iterator step before the first element |
| `PacketBuffers.SafeHopIsLookup` | components/connect/CoherenceInterconnect.cpp:639-656 | The iterator walk succeeds exactly when the packet that many places ahead exists and goes on to the same port |
| `OrderedKeys.StepBackIs` | components/connect/CoherenceInterconnect.cpp:653-653 | Stepping back n places succeeds if and only if n keys come before, and ends n places before |
| `OrderedKeys.PositionIn` | components/connect/CoherenceInterconnect.cpp:641-648 | The counting loop returns the rank of the packet, or the size of the buffer |
| `Contention.CoherenceInterconnect.CloseInterval` | components/connect/CoherenceInterconnect.cpp:791-796 | Closing an interval keeps AverageLatency equal to the zero-load latencies of all counted packets plus the total waits of all routers |
| `Contention.CoherenceInterconnect.NetworkTimingModel` | components/connect/CoherenceInterconnect.cpp:758-807 | Injects one packet per flit and destination along its XY route, closing the interval first exactly when the time stamp lies outside it; over any run flits injected are flits counted plus flits buffered, the sum of RouterPacketsCount is TotalDistance, TotalDistance grows by the closed-form distances, and nothing fails at depth one |
| `RoundRobin.RoundRobinSearch` | components/connect/Router.cpp:95-109 | Finds the requesting port with the fewest ports before it in turn, and nothing exactly when no port requests |
| `RoundRobin.GrantNearer` | components/connect/Router.cpp:190-190 | A grant to another port brings a waiting port nearer |
| `RoundRobin.OvertakenAtMost` | components/connect/Router.cpp:144-212 | A waiting port is overtaken at most NbIn - 1 times |
| `Router.Router.ReadInput` | components/connect/Router.cpp:144-173 | An input port without a held flit is read once, its head is marked and held; every held flit sits in exactly the map of its output port |
| `Router.Router.ServeOutput` | components/connect/Router.cpp:175-212 | The port first in turn is granted if the output has room; other outputs are untouched |
| `Router.Router.DoRoute` | components/connect/Router.cpp:111-212 | A whole step reads exactly the heads of the inputs that hold nothing and serves every output once; it keeps, per input port, arrived = sent, then held, then unread, and, per input and output, what was written = what was sent |
| `Router.FlowInOrder` | components/connect/Router.cpp:111-212 | What an output got from an input is, in order, a prefix of what arrived there for it; the rest is held or unread |
| `Router.WrittenWhereRouted` | components/connect/Router.cpp:169-195 | Every flit written to an output came in by a port of the router and has its target routed to that output; a target without an entry goes to output 0 |
| `Router.SendFlows` | components/connect/Router.cpp:187-195 | A sent flit is appended to exactly one output log and one input history |
| `Router.HeldThrough` | components/connect/Router.cpp:175-212 | A flit that stays held keeps its place and has come nearer if its output was served; otherwise it was written to its output |
| `Router.Deliver` | components/connect/Router.cpp:111-212 | Over any run of arrivals and steps, exactly `others` flits of other ports are written to its output before a held flit, at most NbIn - 1, and NbIn steps with room, wherever they fall, suffice |
| `GicQueues.ScanExtends` | components/peripherals/gic.cpp:632-680 | Queues grow only at the tail and stay free of duplicates |
| `GicQueues.ScanHolds` | components/peripherals/gic.cpp:632-680 | Exactly the pending, enabled, targeted interrupts of sufficient priority join the queue |
| `GicQueues.NewcomersSorted` | components/peripherals/gic.cpp:632-680 | Newcomers join in the order of their interrupt numbers |
| `GicQueues.CombinedOk` | components/peripherals/gic.cpp:615-699 | After the logic has run the acknowledge register shows the head of a non-empty queue |
| `GicQueues.CombinedComplete` | components/peripherals/gic.cpp:615-699 | No signallable interrupt is missing from the queue, and the line is up exactly when the queue is not empty |
| `GicQueues.JoinsIff` | components/peripherals/gic.cpp:632-680 | On a CPU that is served an interrupt is in the queue exactly if it was there or it is enabled, pending, targeted at the CPU and its priority value is at most the mask |
| `GicQueues.NewcomersMean` | components/peripherals/gic.cpp:632-680 | Whatever joins is the acknowledge value of an interrupt that meets the four conditions |
| `GicQueues.MaskMonotone` | components/peripherals/gic.cpp:654-657 | A mask that admits more removes no interrupt from the queue |
| `GicQueues.PriorityMonotone` | components/peripherals/gic.cpp:654-657 | A lower priority value removes no interrupt from the queue |
| `GicQueues.AckMeans` | components/peripherals/gic.cpp:645-648 | The acknowledge value carries the interrupt number and, for software interrupts, the CPU it comes from |
| `GicQueues.EndOfReadSucceeds` | components/peripherals/gic.cpp:162-203 | Ending the interrupt shown in the acknowledge register fails exactly when the queue is empty |
| `GicQueues.EndedMeans` | components/peripherals/gic.cpp:181-202 | The ended interrupt is no longer pending unless the next one has its number, and the acknowledge register shows the next one or 1023 |
| `GicQueues.EndedStaysAway` | components/peripherals/gic.cpp:181-202 | An ended interrupt is queued again only if the next one has its number and its own CPU raised it last; with nothing left the acknowledge register reads 1023 |
| `Gic.InterruptController.CombLogic` | components/peripherals/gic.cpp:615-724 | Starting after the round-robin position, every CPU is looked at exactly once; on a CPU that is served exactly the enabled, pending, targeted interrupts that the mask admits join, the register shows the head and the line is up iff the queue is not empty |
| `Gic.InterruptController.CombineCpu` | components/peripherals/gic.cpp:621-699 | One CPU: queue, acknowledge register and line |
| `Gic.InterruptController.EndOfInterrupt` | components/peripherals/gic.cpp:162-210 | Serves exactly the head, whose number was written, shows the next one or 1023, and fails exactly on an empty queue or a different interrupt number |
| `GicQueues.LargeIdRefused` | components/peripherals/gic.cpp:181-192 | A number of 512 or more never matches the head, so that writing one ends in the mismatch error |
| `Gic.InterruptController.SoftwareInterrupt` | components/peripherals/gic.cpp:373-394 | The interrupt is pending with its origin at exactly the CPUs reached: those of the list for filter 0, all but the writer for 1, the writer for 2, all for 3 |
| `Gic.InterruptController.DeviceInterrupt` | components/peripherals/gic.cpp:522-549 | The line level sets or clears the pending state of every CPU for shared interrupts, of the CPUs in the upper half for private ones; software interrupts are refused |
| `Gic.InterruptController.EnableInterrupts` | components/peripherals/gic.cpp:335-354 | Enables exactly the named interrupts, shared ones for every CPU |
| `Gic.InterruptController.WriteRegister` | components/peripherals/gic.cpp:394-396 | Control, mask, priority and target writes followed by the logic keep the invariant |
| `Gic.EnabledMeans` | components/peripherals/gic.cpp:335-354 | Bit i of register n enables interrupt 8n + i and nothing else changes |
| `Gic.BitsMean` | components/peripherals/gic.cpp:340-387 | The bit test that all register fields are read with: a number is the sum of the powers of two at its bits |
| `GicRuns.Run` | components/peripherals/gic.cpp:118-160 | Over any run, what was ever queued for a CPU only grows at its end and starts with what the CPU was served, and the numbers it was served are exactly those its own end-of-interrupt writes have named, in their order |
| `GicRuns.HeadStays` | components/peripherals/gic.cpp:162-203 | While a CPU ends nothing, the head of its queue stays whatever else happens |
| `GicRuns.Handle` | components/peripherals/gic.cpp:118-160 | Every access keeps the invariant and the histories and fails exactly in the three error cases; only an effective end of interrupt serves anything |
| `GicRuns.ReadThenEnd` | components/peripherals/gic.cpp:162-203 | Ending the interrupt read from the acknowledge register is never an error, whatever other CPUs and devices do in between |
| `LruSet.CacheSet.constructor` | components/memory/include/memory/CacheSet.hpp:150-159 | The initial ranks make line 0 the first victim |
| `LruSet.CacheSet.LocateLineInSet` | components/memory/include/memory/CacheSet.hpp:225-231 | The first valid line with the tag, or none |
| `LruSet.CacheSet.UpdateReplacementData` | components/memory/include/memory/CacheSet.hpp:175-185 | Ranks stay a permutation that mirrors the move-to-front list; the elected victim |
| `LruSet.CacheSet.AccessSet` | components/memory/include/memory/CacheSet.hpp:115-128 | A hit uses the line found, a miss the victim; ranks stay ordered by last use over any sequence of accesses |
| `LruOrder.UseKeepsRanks` | components/memory/include/memory/CacheSet.hpp:180-184 | One use moves the line to the front of the recency list |
| `LruOrder.UseKeepsOrder` | components/memory/include/memory/CacheSet.hpp:180-184 | The recency list stays sorted by time of last use |
| `LruOrder.RankIsRecency` | components/memory/include/memory/CacheSet.hpp:175-185 | A lower rank means a later use |
| `LruOrder.ElectedIsLeastRecent` | components/memory/include/memory/CacheSet.hpp:180-184 | NextVictim is the least recently used line if and only if the line just used did not hold the top rank, or has a lower index than its successor; otherwise it is the line just used |
| `LruOrder.LeastRecentIsLast` | components/memory/include/memory/CacheSet.hpp:175-185 | The least recently used line is the last of the recency list, the one with the top rank |
| `LruOrder.MostRecentElected` | components/memory/include/memory/CacheSet.hpp:180-184 | Filling a two-way set elects the line used last |

## Left out

- Construct: computes the block size as the power of two `Pow2(CeilLog2(n))`, which is what `ceilToPow2` yields for sizes up to 2^63 (`CeilMatches`); for larger ones the 64-bit result is zero and is not modelled. Allocation failure in the constructor aborts and is not modelled.
- Fifo: memory is sequentially consistent; fences and weak memory orders are not modelled, nor are destructors, moves, the lifetime of the pointer that `peek` returns, `size_approx` and the blocking wrapper. `pop` is a dequeue whose value is dropped.
- HandledInOrder: one simulator; `Stop`, the polling sleeps, wrap-around of the 64-bit epochs and the contents of a memory access are not modelled. The delay of an access is an arbitrary number.
- DelaysReportedOnce: the conversion factor and the rounding of delays to whole nanoseconds are left out.
- SetParameterHelper: address ranges have base <= end; a default-constructed or inverted range is not modelled. The container is passed and returned as a value where the code changes it by reference.
- AddExportedParam: delays and rates are reals.
- MergePorts: the set of predecessors and the "changed?" test of `refreshParameters` are left out, and so is that function as a fixpoint over the module graph.
- `getParameterValForAddrSpace`: not modelled, its iterator advances once per leftover piece.
- Dijkstra: weights are positive reals and an infinite distance is a value of its own, instead of floats and their maximum; on an unreachable destination the code follows parent -1 and the model returns no path.
- BuildDefaultRoutingBidirectional: routers are numbered 0..n-1 and the tables start empty, as the topologies build them. `BuildRoutingXY`, imported topologies, memory mapping and `bind` are left out.
- PacketBuffers.SafeIffDepthOne: meshes of one or two columns are not covered by the failing traffic.
- NetworkTimingModel: positions are parameters, so the lookup of positions by id or address, the read and write counters and per-initiator statistics are left out. Times are reals; the contention interval is the configured one.
- HeadOfLine: after an unsafe lookup the model stops; what the code reads from a key it inserts, or before the first element, is not modelled.
- DoRoute: output fifos are logs of what was written; whether a fifo has room is a parameter of each step. Absent (null) input ports are left out.
- CombLogic: the virtual interface, maintenance interrupts, raw writes to the acknowledge register and interrupt disable (whose index starts at the wrong base) are left out. Registers are fields instead of bytes of a memory.
- GicRuns.Run: `mPendingCpuIds`, which nothing reads, is left out.
- AccessSet: filling the line is the caller's part. The FIFO and MRU policies are left out, as is the count until replacement. The associativity is at most the line size, because the constructor allocates that many lines.
- The MSI coherence protocol, `C_SyncFifo`, peripherals other than the interrupt controller, schedulers, loggers, XML parsing and the ISS wrappers: not part of this model.
