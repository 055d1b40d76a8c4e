# Verification of the elastic SYCL HLS load-store queues, decoupling and analyses

A Dafny model of the dynamic-scheduling HLS compiler: the two load-store queues that let
decoupled kernels share a memory, the protocols between those kernels, the compiler analyses
that place them, and three integer benchmark kernels.  `dafny verify dfyconfig.toml` checks
everything.

## What is modelled

**Load-store queues.**  A kernel is a list of loads and stores; the values it stores, and
whether a speculated store happens at all, are any function of the values loaded before
(`Kernels`).  The address generator tags a store with its number (from 1) and a load with the
number of stores before it.  The compute unit performs its pipe operations in program order,
with blocking reads of load values; the queue has no write-after-read check, and this order is
what makes that right.

* `BramQueue` is the on-chip queue: one function a rule on values, and the class
  `LoadStoreQueue` that updates registers and memory in place and is proved to compute them.
  `BramInvariant` says what a cycle keeps, `BramSystem` puts the queue between its two clients
  with bounded pipes, any of which may be unavailable in any cycle: in every run the compute
  unit receives the values of sequential execution.  `BramProgress` proves, under weak fairness
  (`FairRuns`), that nothing gets stuck and that fair runs end with the sequential loads and
  memory.  `BramMuxes` puts the three muxes and any number of load, store request and store
  value ports in front of the queue (`Lines`) and shows that each of its steps is a step of
  `BramSystem` or none, so that the result carries over; `BramMuxProgress` proves the same of
  progress, for port pipes of any depth.
* `DramQueue` is the off-chip queue, with the commit queue that hides the store latency and the
  load queues that proceed in parallel; `DramInvariant`, `DramPorts` (the LoadPort and LoadMux
  kernels) and `DramSystem` prove the same refinement for it, and `DramMuxes` carries it over to
  several store request and store value ports.  `DramPipes` gives the pipes their depths.  With
  these the queue can get stuck: `DramProgress` proves that it does only if the kernel jams, a
  condition on kernel, depths and queue size, and that otherwise fair runs end with the
  sequential loads, and with the sequential memory once the stores in flight have landed
  (`DramWork` has what a step gets done); `DramDeadlock` proves that a jam leads to a deadlock, and
  `DramBursts` has a kernel that can jam only while the compute unit waits to write a store value.
* `TagMux` is the mux that merges tagged requests or values of several ports; `StoreTags` proves
  that main kernel and block processing elements (PEs), executing or poisoning their blocks,
  together tag the store values 1, 2, 3, ... in program order and mark exactly the executed ones
  valid, and `StoreValues` that values marked in this way leave the mux in program order.

**Decoupling.**  `BlockPe` is a basic block run by a predicated PE next to the main kernel, as a
network of two processes over bounded pipes, with the predicates EXECUTE, RESET, EXIT and POISON,
and with a log of the blocks the PE enters; `PeStores` identifies this log with the commands of
`StoreTags`: one entry into the block or the poison block for each executed or poisoned event.

**Analyses.**  `Cfg` has reachability without the back edge and the enumeration of paths to the
latch, `Poison` the collection of edges to be poisoned, `PoisonCalls` where the calls end up, `Cdg`
the control dependence graph, `Hoisting` the search for sources of lost decoupling and the hoisting
of requests to them (over `Arrivals`, selections from lists and what a stack without repetition
takes next), `Speculation` the way from a graph and its post-dominator tree through both to the
placed requests, `DefUse` the search along def-use chains.

**Benchmarks.**  `Bitonic`, `FloydWarshall` and `Dijkstra` (over `Walks`), on 32-bit sums;
`DijkstraOrder` says on which costs the sums of the last one fit.

## Premises

Memory of the on-chip queue returns the old data when it is read and written in one cycle
(`install.sh:33-45`).  A store issued to off-chip memory lands within eight cycles and in issue
order.  Addresses are never the invalid sentinel.  The registers of the off-chip queue that the
code leaves uninitialised start empty, as those of the on-chip queue do.

## Where the code falls short

* **Poison placement with several true blocks.**  The placement is meant to let every path poison or
  execute a request exactly once.  The `break` after a true block is entered
  (`lib/DataHazardAnalysis.cpp:396-399`) leaves later blocks unexamined at that edge, and the union
  over paths then can place two poison edges on one path (`Poison.ForkPoisonsTwice`, on a graph that
  meets all premises, `Poison.ForkIsPlain`).
* **Poison placement in a loop that is left into an outer loop.**  Reachability stops at the latch of
  the inner loop only (`include/CommonLLVM.h:526-540`), so that a true block that has been passed by is
  still reachable by way of the outer loop.  An edge is then not poisoned where it should be, a later
  one is, and a path can execute and poison the same request, even with a single true block
  (`Poison.NestExecutesAndPoisons`, premises in `Poison.NestIsLayered`).
  `Poison.ExactlyOnceIffUnmixed` gives the exact condition for both;
  `Poison.ExactlyOnceInPlainBody` reduces it to earlier true blocks where the loop is left through its
  latch only and has no inner loop, and `Poison.ProgramOrderIsSafe` gives an order of the true blocks
  that always meets it there.
* **Control dependence of a block on itself.**  The comment in `include/CDG.h:227-232` excludes it,
  because a block post-dominates itself; the code asks for proper post-dominance, so that the
  block of a loop can depend on itself (`Cdg.LoopDependsOnItself`).  The test holds exactly if the
  comment's definition does or the block depends on itself (`Cdg.TestMatchesLiteralDefinition`).
* **Poison calls at the start of a block.**  If the true block cannot get to the end of a collected
  edge, the call is put at the start of the block there (`lib/ElasticTransform.cpp:486-488`), where
  every path that enters the block runs it.  For two conditions in a row, as in
  `if (a && b) T else S`, both edges into `S` are collected, and each path into `S` poisons it twice
  (`PoisonCalls.BothPoisonsTwice`).  In a loop body without inner loops a request is settled exactly
  once if and only if the collected edges do so and every block with a call at its start has one way
  in, the edge of the call (`PoisonCalls.RunsOnceIffSoleEntry`).  A path that visits the true block
  runs no call if the collected edges settle the request once (`PoisonCalls.VisitRunsNoCall`), and
  where every collected edge ends in a block that control can get to from the true block, as in a
  plain `if`, placing the calls changes nothing (`PoisonCalls.ReachedEdgesRunOnce`).
* **Hoisting where lossy branches of one loop depend on each other.**  A request is hoisted along the
  chain of first sources in its loop.  Some number of passes leaves every request at rest in exactly
  one block if and only if this chain ends for every block with requests
  (`Hoisting.SettlesIffChainsEnd`).  It can fail to end in two ways.  A loop header whose own branch
  loses decoupling is a source of itself: moving a request from a block to the same block first adds
  it and then removes it (`lib/DataHazardAnalysis.cpp:293-297`), and it is lost
  (`Speculation.LossyHeaderLosesRequests`).  And in a loop such as
  `while (A[i]) { ...; if (B[j]) break; }` with both branches lossy, header and body are each the
  other's source, requests go to and fro, and the passes of the compiler never end
  (`Speculation.TwoExitsNeverRest`); they end exactly if every chain ends or comes to a block that is
  its own source (`Hoisting.RestsIffChainsStop`).  Where no chain of lossy sources in one loop runs in
  a circle, every chain ends (`Speculation.NoCircleEnds`).
* **Deadlock of the off-chip queue.**  In the middle of an iteration the queue writes what it sends
  for a load (`lsq/LoadStoreQueueDRAM.hpp:296-311`) to pipes of depth 8, and LoadMux writes the
  values to a pipe of depth 16 (`scripts/compilation/ASTTransform.py:151-160`); both wait for room.
  The compute unit takes values in program order.  While it waits for a load of one port, 26 loads
  of another port that can go fill up that port and with it the queue, and nobody can move.  A
  store, a load of the same address on port 0 and `n` loads of other addresses on port 1 can end so
  if and only if `n` is at least 26; all it takes is that the value of the store comes late
  (`DramDeadlock.SpreadDeadlocksIffFilled`).  In general a kernel jams (`DramProgress.Jams`) if,
  counting from some operation, enough loads of one port to fill it up follow no more stores than
  the allocation queue holds, none of which goes to their addresses; the operation is a load of
  another port, or a store with the value pipe full before it and every earlier load able to go as
  well.  Without a jam every fair run ends complete (`DramProgress.FairRunsEndSequentially`), so
  also with pipes that hold all loads (`DramProgress.DeepPipesNeverJam`); a kernel of stores and
  then loads of other addresses on one port, which can only wait for room for a value, jams from 17
  stores and 26 loads on if the allocation queue has at least 17 slots (`DramBursts.LeastBurst`); if
  the request pipes hold all requests, a kernel jams exactly if some run ends in a deadlock
  (`DramDeadlock.JamsIffDeadlock`).
* **Missing edges in the shortest-path benchmark.**  A missing edge costs the greatest integer, and
  adding to it overflows (the model gives the sum its two's-complement value).  The result is right
  if and only if no sum wraps (`Dijkstra.CorrectIffNeverWraps`), and that is a condition on the
  costs and the start node: taking the nodes in the order of their distance, the distance of every
  node but the start and the cost of its edge to any later node must add up to at most the greatest
  integer (`DijkstraOrder.CorrectIffFits`, and `DijkstraOrder.CorrectIffPairsFit` for positive
  costs).  On the graph the host itself builds the result is wrong for every size from 3 on
  (`Dijkstra.HostGraphWraps`): the odd nodes, which cannot be reached, end with the least number,
  and all even ones but the first two with -1 (`Dijkstra.HostGraphDistances`).
  `FloydWarshall.Kernel` has the corresponding condition.
* **Bitonic sort** leaves the array unless its length is a power of two
  (`Bitonic.StaysInsideIffPowerOfTwo`).

## Model

| member | source | states |
|---|---|---|
| `BramQueue.LoadStoreQueue.constructor` | lsq/LoadStoreQueueBRAM.hpp:234-262 | the registers start invalid, the tag counter at 0, for any queue sizes of at least 2 |
| `BramQueue.LoadStoreQueue.Step` | lsq/LoadStoreQueueBRAM.hpp:288-480 | one iteration in place takes registers, memory and pipes exactly to the state and pipe effects of the rule functions; their meaning is `BramInvariant.CycleKeeps` and `BramInvariant.AnswerIsSequential` |
| `BramInvariant.DataKept` | lsq/LoadStoreQueueBRAM.hpp:301-357 | a value is consumed only for an allocated store, and after the store logic memory is the sequential memory after the values consumed by then, poisoned ones skipped |
| `BramQueue.LoadStoreQueue.ReturnLoad` | lsq/LoadStoreQueueBRAM.hpp:359-388 | the head load is answered when safe or bypassed, from the latch, the bypass or the old memory word, and stays latched while its pipe is full |
| `BramQueue.LoadStoreQueue.CheckLoads` | lsq/LoadStoreQueueBRAM.hpp:408-429 | the first two loads become safe when all earlier stores are allocated and none pending matches |
| `BramQueue.LoadStoreQueue.ShiftLoads` | lsq/LoadStoreQueueBRAM.hpp:431-448 | the load queue shifts exactly when its head is invalid |
| `BramQueue.LoadStoreQueue.ShiftStores` | lsq/LoadStoreQueueBRAM.hpp:450-478 | a slot or a bubble enters at the tail and the last tag follows the accepted request |
| `BramInvariant.HeadStore` | lsq/LoadStoreQueueBRAM.hpp:308-356 | the value read next always belongs to the store at the head: the n-th value meets the n-th request |
| `BramInvariant.StoresKept` | lsq/LoadStoreQueueBRAM.hpp:451-477 | at every cycle boundary memory is the sequential memory after the consumed values, and the queue holds the following requests in order across bubbles |
| `BramInvariant.CheckedIsClear` | lsq/LoadStoreQueueBRAM.hpp:411-426 | tag comparison against the allocation queue decides that no pending earlier store hits the address |
| `BramInvariant.LatchIsSequential` | lsq/LoadStoreQueueBRAM.hpp:360-369 | latch, same-cycle bypass and memory all give the oldest load its sequential value |
| `BramInvariant.CycleKeeps` | lsq/LoadStoreQueueBRAM.hpp:288-480 | every cycle with clients in order keeps the whole invariant |
| `BramInvariant.AnswerIsSequential` | lsq/LoadStoreQueueBRAM.hpp:371-386 | the only value a cycle returns is the sequential one of the oldest unanswered load, on that load's port |
| `BramInvariant.ResetIsInvariant` | lsq/LoadStoreQueueBRAM.hpp:238-262 | the initial registers satisfy the invariant |
| `Kernels.GenerateRequests` | lib/ElasticTransform.cpp:342-345 | one counter, incremented by stores before use and read by loads, gives stores their number and loads the number of stores before them |
| `Kernels.TagsAreNumbers` | lib/ElasticTransform.cpp:399-404 | store tags are 1, 2, 3, ..., load tags never decrease and never exceed the stores before them |
| `Kernels.LoadsAreSequential` | lib/ElasticTransform.cpp:417-427 | what the t-th tagged load must return is memory with the valid stores tagged 1 to t applied in order |
| `BramSystem.QueueKeeps` | lsq/LoadStoreQueueBRAM.hpp:288-480 | a cycle with any availability of the pipes keeps the invariant of queue, pipes and clients |
| `BramSystem.NextKeeps` | lsq/LoadStoreQueueBRAM.hpp:226-480 | every step of address generator, compute unit or queue keeps it |
| `BramSystem.RunsAreSequential` | lsq/LoadStoreQueueBRAM.hpp:288-480 | in every run, at every step, the compute unit has received exactly the sequential values, and memory is sequential memory after the consumed store values, poisoned ones skipped |
| `BramProgress.StuckIsComplete` | lsq/LoadStoreQueueBRAM.hpp:292-477 | a reachable state in which no client can move and a cycle with every pipe responding changes nothing has all its work done |
| `BramProgress.FairRunAdvances` | lsq/LoadStoreQueueBRAM.hpp:292-477 | from every reachable state with work left, as many fair stretches as there are queue slots accept a request, consume a value or return a load, for all queue sizes of at least 2 and pipe capacities of at least 1 |
| `BramProgress.FairRunsEndSequentially` | lsq/LoadStoreQueueBRAM.hpp:288-480 | every run with enough fair stretches ends complete, with the loads and the final memory of sequential execution |
| `BramMuxes.MuxesKeep` | lsq/LoadStoreQueueBRAM.hpp:87-224 | a cycle of a mux changes nothing in what has been sent and not yet taken by the queue, in order: muxes and pipes of several ports are one FIFO |
| `BramMuxes.QueueIsSingle` | lsq/LoadStoreQueueBRAM.hpp:234-480 | a cycle of the queue behind the muxes is a cycle of the queue on the single streams, in which what is still in a mux is not available |
| `BramMuxes.NextKeeps` | lsq/LoadStoreQueueBRAM.hpp:87-480 | every step of clients, muxes or queue keeps the three ordered streams and the invariant of the system with single streams |
| `BramMuxes.RunsAreSequential` | lsq/LoadStoreQueueBRAM.hpp:85-480 | for any number of ports, any distribution of requests and values over them and any timing: in every run, at every step, the compute unit has received exactly the sequential values, and memory is the sequential one |
| `BramMuxProgress.StuckLine` | lsq/LoadStoreQueueBRAM.hpp:87-224 | a mux that can neither pass on nor read an item has something in the pipe behind it, or nothing is left to deliver |
| `BramMuxProgress.FairRunAdvances` | lsq/LoadStoreQueueBRAM.hpp:85-480 | from every reachable state with work left, as many fair stretches as there are queue slots get some done in a client, a mux or the queue, for any number of ports and port pipes of any depth from 1 on |
| `BramMuxProgress.FairRunsEndSequentially` | lsq/LoadStoreQueueBRAM.hpp:85-480 | every run of clients, muxes and queue with enough fair stretches ends complete, with the loads and the final memory of sequential execution |
| `DramQueue.LoadStoreQueue.Step` | lsq/LoadStoreQueueDRAM.hpp:198-377 | one iteration over all registers and ports, in place, is the cycle function and has its pipe effects |
| `DramQueue.LoadStoreQueue.StepStores` | lsq/LoadStoreQueueDRAM.hpp:203-290 | the store half of an iteration in place: arrival, issue, commit queue, allocation queue and tag count become those of the cycle function |
| `DramQueue.LoadStoreQueue.PushCommit` | lsq/LoadStoreQueueDRAM.hpp:252-262 | the commit queue shifts for a new store or to drop an empty front slot, and not otherwise |
| `DramQueue.LoadStoreQueue.StepPort` | lsq/LoadStoreQueueDRAM.hpp:295-374 | one load port in place: send, accept, check of the first two entries and shift give the next queue, the request taken and the load sent |
| `DramQueue.LoadStoreQueue.FindCommit` | lsq/LoadStoreQueueDRAM.hpp:345-358 | the forwarding scan yields the most recent match, and a match exactly if there is one |
| `DramInvariant.CommitsStayRight` | lsq/LoadStoreQueueDRAM.hpp:252-262 | the latest commit entry of an address is always the sequential memory word |
| `DramInvariant.CoverageKept` | lsq/LoadStoreQueueDRAM.hpp:28-29 | as long as a store may still be in flight, within the store latency after its issue, the commit queue has an entry with its address |
| `DramInvariant.ForwardedIsSequential` | lsq/LoadStoreQueueDRAM.hpp:299-303 | a forwarded value is the sequential one |
| `DramInvariant.FetchIsSettled` | lsq/LoadStoreQueueDRAM.hpp:304-308 | a load that is sent to memory, because it misses the commit queue, finds no store to its address in flight at that moment; that this lasts until it is served is `DramPorts.SendKeeps` and `DramPorts.FetchKeeps` |
| `DramInvariant.PortKept` | lsq/LoadStoreQueueDRAM.hpp:294-374 | a cycle keeps every load slot's safety and forwarding facts, including flags set on empty slots |
| `DramPorts.MuxKeeps` | lsq/LoadStoreQueueDRAM.hpp:105-118 | LoadMux, driven by the selector stream, always emits the value of the next load in issue order |
| `DramPorts.FetchKeeps` | lsq/LoadStoreQueueDRAM.hpp:91-103 | LoadPort reads the sequential value whenever it gets round to it |
| `DramPorts.SendKeeps` | lsq/LoadStoreQueueDRAM.hpp:296-311 | splitting loads into bypass and memory streams loses and reorders nothing |
| `DramPorts.ReceiveKeeps` | lsq/LoadStoreQueueDRAM.hpp:115-116 | the i-th value received on a port belongs to the i-th load issued on it |
| `DramSystem.LandKeeps` | lsq/LoadStoreQueueDRAM.hpp:77-88 | stores landing at any time within the latency change nothing a load can see |
| `DramSystem.NextKeeps` | lsq/LoadStoreQueueDRAM.hpp:164-377 | every step of clients, queue, memory, LoadPort or LoadMux keeps the invariant |
| `DramSystem.RunsAreSequential` | lsq/LoadStoreQueueDRAM.hpp:198-377 | in every run, at every step, the compute unit has received exactly the sequential values, and memory with the stores in flight landed is the sequential memory |
| `DramMuxes.FoundIsNext` | lsq/LoadStoreQueueDRAM.hpp:224-243 | the mux inside the queue, which moves only while a store waits at the head, finds the value of the store that is consumed next |
| `DramMuxes.QueueIsSingle` | lsq/LoadStoreQueueDRAM.hpp:120-290 | a cycle of the queue behind the store request mux and with its own value mux is a cycle on the ordered streams, in which what is still in a mux is not available |
| `DramMuxes.FedRunsAreSequential` | lsq/LoadStoreQueueDRAM.hpp:120-377 | for any number of store request and store value ports, any distribution of the stores and any timing: in every run, at every step, the received values and the memory are those of sequential execution |
| `DramPipes.PipedNextKeeps` | lsq/LoadStoreQueueDRAM.hpp:294-312 | with pipes of given depths every step is one of the system without bounds or none, keeps the bounds, and keeps that every load that has been sent was safe to go |
| `DramPipes.OnlySelectorsFill` | lsq/LoadStoreQueueDRAM.hpp:70-75 | forwarded values, addresses and fetched values of a port are together as many as its selectors, so that the selector pipe is the one that fills up |
| `DramPipes.PipedRunsAreSequential` | lsq/LoadStoreQueueDRAM.hpp:70-377 | for pipes of any depths: in every run, at every step, the received values and the memory, stores in flight landed, are those of sequential execution |
| `DramProgress.StuckIsJam` | lsq/LoadStoreQueueDRAM.hpp:296-311 | if no client can move and the queue has no room for the load it would send, then the compute unit waits elsewhere and there are enough loads of this port that can go to fill it up: the kernel jams |
| `DramProgress.StuckIsDone` | lsq/LoadStoreQueueDRAM.hpp:198-377 | if no client can move, the queue has room, and a cycle with every input pipe responding does nothing and shortens no wait, then all operations have been done and their values consumed |
| `DramProgress.FairRunAdvances` | lsq/LoadStoreQueueDRAM.hpp:70-377 | unless the kernel jams, from every reachable state with work left as many fair stretches as there are queue slots get some work done, for all depths of at least 1 and however late the stores land |
| `DramProgress.FairRunsEndSequentially` | lsq/LoadStoreQueueDRAM.hpp:70-377 | unless the kernel jams, every run with enough fair stretches ends complete, with the loads of sequential execution and, the stores in flight landed, its memory |
| `DramProgress.DeepPipesNeverJam` | lsq/LoadStoreQueueDRAM.hpp:70-75 | with pipes that hold as many loads as the kernel has operations no kernel jams |
| `DramDeadlock.DeadlockStays` | lsq/LoadStoreQueueDRAM.hpp:296-311 | from a deadlock only stores in flight can still land, and it stays one |
| `DramDeadlock.DeadlockIsJam` | lsq/LoadStoreQueueDRAM.hpp:296-311 | in a deadlock, for pipes of any depths, work is left and the kernel jams |
| `DramDeadlock.SpreadDeadlocksIffFilled` | lsq/LoadStoreQueueDRAM.hpp:105-118 | a store, a load of its address on one port and `n` loads of other addresses on another can end in a deadlock if and only if `n` loads fill up a port; with the depths of the source these are 26 |
| `DramDeadlock.FewLoadsNeverJam` | lsq/LoadStoreQueueDRAM.hpp:296-311 | with fewer loads on the other port that kernel does not jam, so that its fair runs end complete |
| `DramDeadlock.JamsIffDeadlock` | lsq/LoadStoreQueueDRAM.hpp:296-311 | with request pipes that hold all requests, and any other depths of at least 1, a kernel jams if and only if some run from the initial state ends in a deadlock |
| `DramBursts.BurstJamsIffFull` | lsq/LoadStoreQueueDRAM.hpp:296-311 | stores to one address and then loads of others on one port jam if and only if there are more stores than the value pipe holds, the allocation queue has more slots than that, and the loads fill up the port: then the compute unit waits to write a store value |
| `DramBursts.LeastBurst` | scripts/compilation/ASTTransform.py:151-165 | with the depths of the source: from 17 stores, 17 slots and 26 loads on |
| `TagMux.Mux.Step` | lsq/LoadStoreQueueBRAM.hpp:102-127 | one iteration over the held items in place: emit the item with the next tag, refill empty ports |
| `TagMux.CycleKeeps` | lsq/LoadStoreQueueBRAM.hpp:148-173 | held items and undelivered items are always exactly each port's share of the items still to come: nothing lost, nothing repeated |
| `TagMux.OutputIsMerge` | lsq/LoadStoreQueueBRAM.hpp:87-224 | for every timing of the ports the output is a prefix of the tag-ordered merge |
| `TagMux.EmitsWithinTwo` | lsq/LoadStoreQueueBRAM.hpp:195-222 | if the ports respond, the next tag comes out within two cycles |
| `StoreTags.MainKernel` | lib/ElasticTransform.cpp:835-872 | the tags the main kernel uses itself and hands over, skipping as many as the block has stores, give every port its share of 1, 2, 3, ... in program order, with the valid bits of the events they belong to; a PE is handed one command for each event of its block, executed or poisoned, with the number of stores before it |
| `StoreTags.BlockKernel` | lib/ElasticTransform.cpp:880-897 | a PE continues each tag it was handed by one for every store, valid from its block and not valid from its poison block |
| `StoreTags.CommandsGiveShare` | lib/ElasticTransform.cpp:880-897 | continuing the tags of these commands gives exactly the PE's share of the numbers of all stores |
| `StoreTags.PoisonBlock` | lib/ElasticTransform.cpp:880-897 | the poison block uses as many tags as the block has stores, without a valid value |
| `StoreTags.AllKernels` | lib/ElasticTransform.cpp:816-897 | for every sequence of executed and poisoned events all kernels together tag the store values 1, 2, 3, ... in program order |
| `StoreTags.MarksOfEvent` | lib/ElasticTransform.cpp:432-510 | each store of an event has the number after those of all earlier events' stores, on the port of its kernel, and is valid exactly if the event is executed |
| `StoreValues.ValuesLeaveInProgramOrder` | lsq/LoadStoreQueueBRAM.hpp:133-175 | kernels and mux together: whatever the timing, the i-th store value passed on is that of the i-th store in program order, with its valid bit |
| `StoreValues.ValueOfEvent` | lsq/LoadStoreQueueBRAM.hpp:133-175 | the values of an event come out after those of all earlier events, valid exactly if the event is executed |
| `BlockPe.PeKeeps` | lib/ElasticTransform.cpp:553-615 | every PE transition keeps what it still owes the main kernel |
| `BlockPe.NextKeeps` | lib/ElasticTransform.cpp:520-722 | every step of main kernel or PE keeps the pipes aligned with the sequential loop |
| `BlockPe.SomeoneMoves` | lib/ElasticTransform.cpp:629-635 | until the end one of the two processes can move, for all pipe capacities of at least 1, thanks to the dummy exchange at function exit |
| `BlockPe.RunsEnd` | lib/ElasticTransform.cpp:591-595 | no interleaving goes on for ever |
| `BlockPe.RunsAgree` | lib/ElasticTransform.cpp:520-722 | for all loop runs, predicates and bodies, every interleaving yields the recurrence values of the sequential loops, and the PE enters its block for executed and its poison block for poisoned iterations, in order; an interleaving that cannot go on has all results, all entries, a finished PE and empty pipes |
| `PeStores.EntriesMatchCommands` | lib/ElasticTransform.cpp:835-897 | in every interleaving each block the PE enters meets the next command of the main kernel, the poison block exactly for a poisoned event, and what it writes there is the beginning of its share of the tags and valid bits of all stores; when the interleaving cannot go on there is one entry for each executed or poisoned event, and the share is complete |
| `Cfg.IsReachableWithinLoop` | include/CommonLLVM.h:513-543 | the worklist terminates and holds exactly if the target is the latch or some path reaches it without passing the latch |
| `Cfg.AllBlockPaths` | lib/DataHazardAnalysis.cpp:319-349 | the queue terminates on graphs acyclic apart from headers and returns exactly the paths to the stop block that enter no header |
| `Cfg.Continue` | lib/DataHazardAnalysis.cpp:338-344 | a partial path is replaced by its one-block continuations, header blocks left out |
| `Poison.ExamineEdge` | lib/DataHazardAnalysis.cpp:391-407 | examining an edge, with its `break`, settles and poisons exactly the true blocks given up there |
| `Poison.ExaminePath` | lib/DataHazardAnalysis.cpp:378-408 | one path contributes exactly its first edge that gives up each pending true block |
| `Poison.CalculatePoisonBlocks` | lib/DataHazardAnalysis.cpp:371-410 | the collected edges of a true block are exactly those some path to the latch poisons |
| `Poison.ExactlyOnceIffUnmixed` | lib/DataHazardAnalysis.cpp:384-407 | on every graph on which the paths can be enumerated: every path settles a true block's requests exactly once if and only if the speculation block is not the latch, no block is entered with them pending on one path and settled on another, and the latch is never entered with them pending |
| `Poison.ExactlyOnceInPlainBody` | lib/DataHazardAnalysis.cpp:384-407 | in a loop without inner loops that is left through its latch only, the condition need only hold of true blocks examined earlier |
| `Poison.OneTrueBlock` | lib/DataHazardAnalysis.cpp:371-410 | with one true block, in such a loop, every path visits it or crosses exactly one poison edge, never both, exactly if the speculation block is not the latch |
| `Poison.ProgramOrderIsSafe` | lib/DataHazardAnalysis.cpp:392-399 | the same for several true blocks, in such a loop, each reachable from those examined before it |
| `Poison.PathLocal` | lib/DataHazardAnalysis.cpp:378-408 | a path by itself poisons none of its edges if it visits the true block, exactly one if it gives the true block up, and it does neither only if it has no edge or ends in a latch examined earlier |
| `Poison.ForkPoisonsTwice` | lib/DataHazardAnalysis.cpp:396-399 | a graph with two true blocks on which one path crosses two poison edges for the same requests |
| `Poison.ForkIsPlain` | lib/DataHazardAnalysis.cpp:319-349 | that graph is acyclic, without inner loops and left through the latch only |
| `Poison.NestExecutesAndPoisons` | include/CommonLLVM.h:526-540 | a loop left into an outer one, with a single true block, on which a path executes and poisons the same request |
| `Poison.NestIsLayered` | lib/DataHazardAnalysis.cpp:319-349 | the paths of that graph can be enumerated: it is acyclic apart from its headers |
| `PoisonCalls.RunsOnceIffSoleEntry` | lib/ElasticTransform.cpp:478-488 | in a loop without inner loops that is left through its latch only: with the calls placed on edges or at the start of blocks every path settles a request exactly once if and only if the collected edges do so and every edge to whose end control cannot get from the true block before the back edge is the only way into the block there |
| `PoisonCalls.VisitRunsCrossedCalls` | lib/ElasticTransform.cpp:482-488 | on every graph: of the calls placed on edges or at the start of blocks a path that visits the true block runs those of the collected edges it crosses, where it crosses them, and no others |
| `PoisonCalls.VisitRunsNoCall` | lib/ElasticTransform.cpp:482-488 | on every graph: if the collected edges settle a request exactly once, a path that visits its true block runs no call for it |
| `PoisonCalls.ReachedEdgesRunOnce` | lib/ElasticTransform.cpp:482-485 | on every graph: if control can get from the true block to the end of each collected edge before the back edge, every path settles a request once with the calls placed if and only if it does so with the collected edges |
| `PoisonCalls.TriangleRunsOnce` | lib/ElasticTransform.cpp:482-485 | one condition: the call gets a block on the edge past the true block, every path settles the request once, and the path over the true block runs no call |
| `PoisonCalls.BothPoisonsTwice` | lib/ElasticTransform.cpp:486-488 | two conditions in a row, for which the collected edges settle a request exactly once, but a path runs two calls at the start of one block |
| `Cdg.TestMatchesDefinition` | include/CDG.h:227-232 | on every graph whose blocks all reach the exit the successor test holds exactly if the definition by paths does, with proper post-dominance |
| `Cdg.TestMatchesLiteralDefinition` | include/CDG.h:227-232 | the definition as the comment states it, in which no block depends on itself, holds exactly if the test does and the blocks differ |
| `Cdg.LoopDependsOnItself` | lib/CDG.cpp:112-125 | a loop of one block on which the test says that the block depends on itself |
| `Cdg.TestIsControlDependent` | lib/CDG.cpp:112-125 | the test as computed from the post-dominator table and successor list is the predicate |
| `Cdg.RootIffDominatesAll` | lib/CDG.cpp:193-195 | a block hangs on the root exactly if it lies on no cycle and post-dominates every block that reaches it |
| `Cdg.RootPostDominatesEntry` | lib/CDG.cpp:193-195 | a reachable block on the root post-dominates the entry |
| `Cdg.ControlDependenceGraph.Calculate` | lib/CDG.cpp:174-197 | the two loops fill nodes and edges in place: an edge for every control dependence by the definition, a root edge for every block with none |
| `Cdg.ControlDependenceGraph.ControlDependencySources` | lib/CDG.cpp:149-172 | no source for blocks on the root, and else the sources of all their edges in the order of the nodes |
| `Cdg.SourcesAreDependences` | lib/CDG.cpp:149-172 | these sources are the blocks depended on by the definition, in the order of the blocks, the early return included |
| `Cdg.DependencesInOrder` | lib/CDG.cpp:160-169 | these blocks stand in the list at the places they have among all blocks, from left to right, each place once |
| `Hoisting.GetLodCtrlDepSources` | lib/DataHazardAnalysis.cpp:40-67 | the worklist terminates and finds exactly the lossy sources reached over branches that lose nothing, not beyond the loop header; block by block, each in the order of the table, where the block visited next is always the one put on the list last |
| `Hoisting.LodSourcesAreFirst` | lib/DataHazardAnalysis.cpp:40-67 | the specified search finds exactly the lossy blocks that come first on some chain of control dependences |
| `Hoisting.LodSourcesInOrder` | lib/DataHazardAnalysis.cpp:46-64 | the specified search lists, for each block visited, its lossy sources in the order of the table; each block visited is the one whose first arrival on the list is the last of those not visited yet, and nothing that arrives is left out |
| `Hoisting.OrderIsUnique` | lib/DataHazardAnalysis.cpp:49-51 | there is only one such order of visits, so that it determines the result |
| `Hoisting.OwnSourcesFirst` | lib/DataHazardAnalysis.cpp:54-57 | the lossy sources of the block itself lead the result, in the order of the table |
| `Hoisting.FirstLossySourceLeads` | lib/DataHazardAnalysis.cpp:54-57 | the result begins with the first lossy source of the block, if it has one |
| `Hoisting.HoistBlock` | lib/DataHazardAnalysis.cpp:281-298 | all requests of a block go to its first source in the same loop, whatever other sources follow; something moves exactly if the block has requests and such a source |
| `Hoisting.HoistAll` | lib/DataHazardAnalysis.cpp:275-300 | wherever the passes end at all they do, and leave no request in a block with a source in its loop |
| `Hoisting.HoistSpeculativeRequests` | lib/DataHazardAnalysis.cpp:259-315 | wherever the passes end at all: every request is placed exactly at the end of the chain of first sources above its own block, if there is one and it is another block, and nowhere else |
| `Hoisting.RestsIffChainsStop` | lib/DataHazardAnalysis.cpp:275-300 | some number of passes leaves every request at rest if and only if above every block with requests the chain of first sources ends or comes to a block that is its own first source |
| `Hoisting.SettlesIffChainsEnd` | lib/DataHazardAnalysis.cpp:275-300 | some number of passes leaves every request at rest in exactly one block if and only if above every block with requests the chain of first sources ends |
| `Hoisting.EndsInTime` | lib/DataHazardAnalysis.cpp:287-290 | a chain that ends does so within as many steps as there are blocks: the condition can be checked before hoisting |
| `Hoisting.StopsInTime` | lib/DataHazardAnalysis.cpp:287-290 | the same for a chain that comes to a block that is its own first source |
| `Speculation.LodSourceIsDependence` | lib/DataHazardAnalysis.cpp:40-67 | the search on the table of the control dependence graph finds exactly the lossy branches that decide, by the definition on paths, whether the block runs |
| `Speculation.LiftReaches` | lib/DataHazardAnalysis.cpp:287-297 | from every source a request can be hoisted to, control can get to the block it is hoisted from |
| `Speculation.FirstDirectIsTarget` | lib/DataHazardAnalysis.cpp:287-297 | a block that depends directly on lossy branches in its own loop is hoisted from to the first of them in the list of blocks |
| `Speculation.PlaceRequests` | lib/DataHazardAnalysis.cpp:259-315 | from function and post-dominator tree to the placed requests, wherever hoisting ends at all: if the chain above its block ends, a request leaves its block exactly if the block depends on a lossy branch in its own loop, and is placed in one block only, at the end of a chain of such branches, which depends on none itself and from which control can get to the request's own block; if not, the request is lost. A placed request is in a loop with the header of its own block's loop, or both are in none. Where each block on the way depends directly on lossy branches in its loop, the way goes to the first of these in the list of blocks |
| `Hoisting.MoveKeepsIffElsewhere` | lib/DataHazardAnalysis.cpp:293-297 | a move keeps a request in some block if and only if the source is another block |
| `Speculation.NoCircleEnds` | lib/DataHazardAnalysis.cpp:277-300 | where no chain of lossy sources in one loop comes back to where it began, every chain of first sources ends, whatever the order in which sources are found |
| `Speculation.LossyHeaderLosesRequests` | lib/DataHazardAnalysis.cpp:287-297 | a loop whose header is a lossy source of itself: the passes end, the chain does not, and a request hoisted from it is lost |
| `Speculation.TwoExitsNeverRest` | lib/DataHazardAnalysis.cpp:275-300 | a loop left at its header and by a break, both branches lossy: no number of passes leaves a request of the body at rest |
| `DefUse.IsInDefUsePath` | include/CommonLLVM.h:547-583 | the list-driven search terminates, duplicates included, and holds exactly if the source is reached by operand or phi-to-terminator steps that end in an operand step |
| `DefUse.NothingToPush` | include/CommonLLVM.h:555-578 | an instruction that comes up again has nothing left to push |
| `Bitonic.XorFlips` | experiments/bitonic_sort_dram.cpp:30-30 | `i ^ j` for a power of two adds or subtracts `j` according to that bit |
| `Bitonic.HalfClean` | experiments/bitonic_sort_dram.cpp:33-41 | comparing the halves of a bitonic sequence leaves two bitonic halves, nothing in one above anything in the other |
| `Bitonic.CompareExchange` | experiments/bitonic_sort_dram.cpp:33-41 | the swap rule puts a pair in the order of its direction and permutes the array |
| `Bitonic.Pass` | experiments/bitonic_sort_dram.cpp:29-43 | the inner loop compares every pair at distance `j` once, and permutes the array |
| `Bitonic.PassMerges` | experiments/bitonic_sort_dram.cpp:28-43 | a pass halves the bitonic blocks of a stage and keeps their order |
| `Bitonic.Stage` | experiments/bitonic_sort_dram.cpp:28-45 | a stage turns alternating runs of length `k / 2` into alternating runs of length `k` |
| `Bitonic.Sort` | experiments/bitonic_sort_dram.cpp:23-46 | for every array whose length is a power of two the three loops end with a sorted permutation of the input |
| `Bitonic.StaysInsideIffPowerOfTwo` | experiments/bitonic_sort_dram.cpp:30-36 | the accesses stay inside the array exactly if the length is 0 or a power of two |
| `FloydWarshall.PivotIsFixed` | experiments/floyd_warshall_dram.cpp:27-34 | row and column `k` stay fixed during round `k` |
| `FloydWarshall.Round` | experiments/floyd_warshall_dram.cpp:28-33 | a round relaxes every entry once from the values at its start while no sum wraps, and leaves a negative entry once one does |
| `FloydWarshall.RoundAdvances` | experiments/floyd_warshall_dram.cpp:27-34 | after round `k` the entries are the distances over nodes up to `k` |
| `FloydWarshall.Kernel` | experiments/floyd_warshall_dram.cpp:26-34 | with zero diagonal and non-negative weights the entries end as the least weights of all walks if and only if the walks joined at each round fit in 32 bits |
| `FloydWarshall.SmallWeightsFit` | experiments/floyd_warshall_dram.cpp:64-73 | weights up to half the greatest integer, such as the host's, always fit |
| `Dijkstra.InitData` | experiments/sssp.cpp:122-140 | costs from the adjacency matrix, and the start state with the start node expanded |
| `Dijkstra.FindNearest` | experiments/sssp.cpp:33-42 | the first open node with the least distance, or node 0 with the greatest integer |
| `Dijkstra.RelaxAll` | experiments/sssp.cpp:47-53 | relaxing in place equals relaxing all open nodes at once |
| `Dijkstra.Kernel` | experiments/sssp.cpp:30-55 | `numNodes - 2` rounds on arrays are that many rounds of the specification, whose meaning is `Dijkstra.CorrectIffNeverWraps` |
| `Walks.PlusIsTwosComplement` | experiments/sssp.cpp:48-49 | the sum of two 32-bit numbers lies in their range and differs from the exact sum by a multiple of 2^32 |
| `Dijkstra.NextKeeps` | experiments/sssp.cpp:32-55 | a round without a wrapped sum keeps visited distances final, open nodes not nearer, and `pred` a tree of shortest walks |
| `Dijkstra.AdvancedIsCorrect` | experiments/sssp.cpp:32-55 | the result is right although the last node is never expanded, or when the remaining nodes are out of reach |
| `Dijkstra.CorrectIffNeverWraps` | experiments/sssp.cpp:30-55 | with costs from 0 to the greatest integer all entries end as the distances if and only if no sum of the run wraps |
| `DijkstraOrder.NeverWrapsIffFits` | experiments/sssp.cpp:33-53 | no sum wraps if and only if, with the nodes in order of distance, each but the first has edges to all later ones that can be added to its distance, and node 0 has free edges to all open ones if the search runs dry with two or more of them open |
| `DijkstraOrder.CorrectIffFits` | experiments/sssp.cpp:30-55 | that condition on costs and start node holds exactly if all entries end as the distances |
| `DijkstraOrder.CorrectIffPairsFit` | experiments/sssp.cpp:30-55 | with positive costs: exactly if, for every node but the start and every node behind it by distance and then by number, the distance of the one and the edge to the other add up in 32 bits |
| `Dijkstra.SmallCostsNeverWrap` | experiments/sssp.cpp:48-49 | costs up to half the greatest integer never wrap |
| `Dijkstra.HostGraphWraps` | experiments/sssp.cpp:104-140 | on the host's own graph the result is wrong for every size from 3 on |
| `Dijkstra.HostGraphDistances` | experiments/sssp.cpp:104-140 | what the rounds leave there, for every size from 3 on: 0 for node 0, 1 for node 2, the least number for all odd nodes and -1 for all other even ones |

## Left out

- End signals: the queues poll them when the head allocation is empty, which does not mean that the queue is; nothing is claimed about a drain at termination.
- Tags are unbounded numbers: fewer than 2^32 stores are assumed.
- Stored and loaded values are integers; pipes are FIFOs without hardware timing, and one loop iteration is one cycle.
- The store value mux inlined into the on-chip queue for two or three ports: there the queue takes values from the pipe behind a mux kernel.
- BramMuxes.RunsAreSequential: store values are sent by one compute unit in program order, over any ports; that PEs which send by themselves give the same stream is `StoreValues.ValuesLeaveInProgramOrder`.
- DramSystem.RunsAreSequential: all pipes are unbounded; `DramPipes.PipedRunsAreSequential` has their depths.
- DramPipes.PipedNextKeeps: an iteration of the queue is one step, which waits before it begins if one of its writes has no room. In the code it waits at that write, with the store half of the iteration and the ports before it already done. The predicate and selector pipes of a port count as one, and of the pipes to the store port only this is kept that no store is overdue when a cycle begins.
- DramProgress.FairRunsEndSequentially: that the queue gets a turn says that no store is overdue then.
- DramDeadlock.JamsIffDeadlock: that a jam leads to a deadlock supposes request pipes that hold all requests; with shallower ones that a deadlock needs a jam still holds (`DramDeadlock.DeadlockIsJam`), and the other half is proved for one family of kernels (`DramDeadlock.SpreadDeadlocksIffFilled`). Pipes may fail to respond for any finite time.
- DramMuxes.FedRunsAreSequential: the pipes are unbounded, and progress is proved with one store port (`DramProgress`).
- The clients, pipes, LoadPort, LoadMux and the block PE are steps of a state machine on values, not objects.
- BramProgress.FairRunAdvances: the queue's fair turn is a cycle in which all pipes respond together.
- Kernel programs are straight lists of operations with known addresses; control flow of the original kernel shows only in which operations are listed and which stores are poisoned.
- Loop PEs, PE outputs that are not hoisted out of the loop, more than one PE input of that kind (`BlockPe` has one, written for every execution of the block), and the merging of poison blocks.
- PeStores.EntriesMatchCommands: the PE reads predicates and tags from two pipes; the model pairs its entries with the tags in the order in which these are sent and has no pipe for them.
- Poison.CalculatePoisonBlocks: edges are kept per true block; all requests of one true block share them. Paths are those the enumeration yields: it drops every path that enters a header, so nothing is said of paths through inner loops.
- Hoisting.HoistSpeculativeRequests: the loop that moves requests changes the set it walks over (`lib/DataHazardAnalysis.cpp:293-297`); the model moves every request. Which memory operations are considered for speculation is a parameter.
- Hoisting.GetLodCtrlDepSources: which branches need values of the compute unit is a parameter.
- The post-dominator tree is a table supplied by the compiler framework and required to be right.
- Bitonic.Sort: the stage counter is unbounded; with 2^30 elements or more the 32-bit counter would overflow.
- Dijkstra.Kernel: the visited flags are booleans, in the source integers 0 and 1.
- Instruction rewriting, pipe deduplication, scheduling heuristics, floating-point benchmarks, host programs and scripts: plumbing, or easy members only.
