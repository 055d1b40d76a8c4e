module BramProgress {
  // Freedom from deadlock of the on-chip queue and its clients, and what they end with.
  //
  // In a fair stretch of a run each client moves or is found unable to, and the queue has a cycle
  // in which every pipe responds; anything else may happen in between.  From every reachable
  // state with work left, `|stores| + |loads|` fair stretches get some of it done
  // (`FairRunAdvances`), for all queue sizes of at least 2 and pipe capacities of at least 1;
  // hence every run with enough fair stretches completes the kernel, with the loads and the
  // memory of sequential execution (`FairRunsEndSequentially`).

  import opened FairRuns
  import opened Wrappers
  import opened StoreAllocation
  import opened BramQueue
  import opened BramInvariant
  import opened Kernels
  import opened BramSystem

  function AllOpen(ports: nat, junk: nat): Availability
  {
    Availability(true, true, true, seq(ports, _ => true), junk)
  }

  /** Everything done so far, by the clients and by the queue. */
  function Work(y: System): nat
  {
    y.agu + y.cu + y.queue.lastStoreTag + y.progress.consumed + y.progress.answered + y.progress.accepted
  }

  ghost predicate Complete(k: Kernel, y: System)
    requires InBounds(k)
  {
    && y.agu == |k.ops| && y.cu == |k.ops|
    && y.progress.consumed == |TraceOf(k).stores| && y.progress.answered == |TraceOf(k).loads|
  }

  // -------------------------------------------------- how long a cycle can do nothing

  /** Bubbles in front of the oldest load. */
  ghost function LoadDepth(q: seq<LoadSlot>): (d: nat)
    ensures d <= |q|
    ensures q != [] ==> d < |q|
  {
    if Pending(q) == [] || q[0].valid then 0 else 1 + LoadDepth(q[1..])
  }

  /** 1 while the oldest load is not marked safe. */
  ghost function Unsafe(q: seq<LoadSlot>): (d: nat)
    ensures d <= 1
  {
    if Pending(q) == [] then 0
    else if q[0].valid then (if q[0].safe then 0 else 1)
    else Unsafe(q[1..])
  }

  ghost function Wait(s: State): nat
  {
    StoreDepth(s.stores) + LoadDepth(s.loads) + Unsafe(s.loads)
  }

  lemma {:induction false} LoadDepthShifts(q: seq<LoadSlot>, e: LoadSlot)
    requires !e.valid
    ensures LoadDepth(q + [e]) == LoadDepth(q) && Unsafe(q + [e]) == Unsafe(q)
  {
    PendingAppend(q, e);
    if q != [] && Pending(q) != [] && !q[0].valid {
      assert (q + [e])[1..] == q[1..] + [e];
      LoadDepthShifts(q[1..], e);
    }
  }

  ghost function SystemWait(y: System): nat
  {
    Wait(y.queue)
  }

  /** A cycle that takes nothing and returns nothing. */
  ghost predicate Idle(s: State, o: Offers)
    requires Shaped(s)
  {
    var fx := CycleEffects(s, o);
    !fx.tookVal && !fx.tookLoad && !fx.tookStore && fx.answer == None
  }

  lemma IdleStores(s: State, o: Offers)
    requires Shaped(s) && Idle(s, o)
    ensures StoreDepth(StoresNext(s, o)) <= StoreDepth(s.stores)
    ensures !s.stores[0].valid && Requests(s.stores) != [] ==> StoreDepth(StoresNext(s, o)) < StoreDepth(s.stores)
  {
    if !s.stores[0].valid {
      StoreDepthShifts(s.stores[1..], Allocated(None, o.junk));
    }
  }

  /** Marking loads safe, and nothing else. */
  ghost predicate SafeMore(q: seq<LoadSlot>, p: seq<LoadSlot>)
  {
    && |q| == |p|
    && forall i :: 0 <= i < |q| ==> q[i].valid == p[i].valid && (q[i].safe ==> p[i].safe)
  }

  lemma {:induction false} SafeMoreWaitsLess(q: seq<LoadSlot>, p: seq<LoadSlot>)
    requires SafeMore(q, p)
    ensures (Pending(q) == []) == (Pending(p) == [])
    ensures LoadDepth(q) == LoadDepth(p) && Unsafe(p) <= Unsafe(q)
  {
    if q != [] {
      SafeMoreWaitsLess(q[1..], p[1..]);
    }
  }

  lemma IdleLoads(s: State, o: Offers)
    requires Shaped(s) && Idle(s, o)
    ensures LoadDepth(LoadsNext(s, o)) + Unsafe(LoadsNext(s, o)) <= LoadDepth(s.loads) + Unsafe(s.loads)
    ensures !s.loads[0].valid && Pending(s.loads) != [] ==>
      LoadDepth(LoadsNext(s, o)) + Unsafe(LoadsNext(s, o)) < LoadDepth(s.loads) + Unsafe(s.loads)
    ensures s.loads[0].valid && !s.loads[0].safe && s.loads[0].tag <= s.lastStoreTag && !Conflicts(s.stores, s.loads[0].addr, s.loads[0].tag) ==>
      LoadDepth(LoadsNext(s, o)) + Unsafe(LoadsNext(s, o)) < LoadDepth(s.loads) + Unsafe(s.loads)
  {
    var l1 := LoadsAnswered(s, o);
    var l3 := LoadsChecked(s.stores, s.lastStoreTag, l1);
    assert LoadsAccepted(l1, o.loadReq) == l1;
    SafeMoreWaitsLess(s.loads, l3);
    if !s.loads[0].valid {
      LoadDepthShifts(l3[1..], EmptyLoad(|o.room|));
    } else if !s.loads[0].safe && s.loads[0].tag <= s.lastStoreTag && !Conflicts(s.stores, s.loads[0].addr, s.loads[0].tag) {
      var head := l1[0];
      assert Conflicts(s.stores, head.addr, head.tag) == Conflicts(s.stores, s.loads[0].addr, s.loads[0].tag);
    }
  }

  // ------------------------------------------------------------ nothing left to wait for

  /** No client can move, and the cycle neither does any work nor shortens the wait. */
  ghost predicate Stuck(k: Kernel, c: Config, y: System)
    requires Shaped(y.queue)
  {
    var s, o := y.queue, OffersOf(c, y, AllOpen(|y.answers|, 0));
    && !AguReady(k, c, y) && !CuReady(k, c, y)
    && (s.stores[0].valid ==> y.storeVals == [])
    && (!s.stores[0].valid ==> y.storeReqs == [] && Requests(s.stores) == [])
    && (!s.loads[0].valid ==> y.loadReqs == [] && Pending(s.loads) == [])
    && (s.loads[0].valid ==> !Returns(s, o))
    && (s.loads[0].valid && !s.loads[0].safe ==> s.loads[0].tag > s.lastStoreTag || Conflicts(s.stores, s.loads[0].addr, s.loads[0].tag))
  }

  lemma IdleIsStuck(k: Kernel, c: Config, y: System, junk: nat)
    requires SoundAndSystem(k, c, y) && !AguReady(k, c, y) && !CuReady(k, c, y)
    requires var o := OffersOf(c, y, AllOpen(|y.answers|, junk)); Idle(y.queue, o) && Wait(Cycle(y.queue, o)) >= Wait(y.queue)
    ensures Stuck(k, c, y)
  {
    IdleHeads(y.queue, OffersOf(c, y, AllOpen(|y.answers|, junk)));
    HeadsAreStuck(k, c, y, junk);
  }

  lemma HeadsAreStuck(k: Kernel, c: Config, y: System, junk: nat)
    requires Shaped(y.queue) && !AguReady(k, c, y) && !CuReady(k, c, y)
    requires Idle(y.queue, OffersOf(c, y, AllOpen(|y.answers|, junk)))
    requires !y.queue.stores[0].valid ==> Requests(y.queue.stores) == []
    requires !y.queue.loads[0].valid ==> Pending(y.queue.loads) == []
    requires y.queue.loads[0].valid && !y.queue.loads[0].safe ==>
      y.queue.loads[0].tag > y.queue.lastStoreTag || Conflicts(y.queue.stores, y.queue.loads[0].addr, y.queue.loads[0].tag)
    ensures Stuck(k, c, y)
  {
    var s := y.queue;
    if !s.loads[0].valid {
      NonePending(s.loads, |s.loads| - 1);
    }
  }

  /** What keeps an idle queue from shifting, or from marking its oldest load safe. */
  lemma IdleHeads(s: State, o: Offers)
    requires Shaped(s) && Idle(s, o) && Wait(Cycle(s, o)) >= Wait(s)
    ensures !s.stores[0].valid ==> Requests(s.stores) == []
    ensures !s.loads[0].valid ==> Pending(s.loads) == []
    ensures s.loads[0].valid && !s.loads[0].safe ==>
      s.loads[0].tag > s.lastStoreTag || Conflicts(s.stores, s.loads[0].addr, s.loads[0].tag)
  {
    IdleStores(s, o);
    IdleLoads(s, o);
  }

  lemma {:induction false} NonePending(q: seq<LoadSlot>, i: nat)
    requires Pending(q) == [] && i < |q|
    ensures !q[i].valid
  {
    if i > 0 {
      NonePending(q[1..], i - 1);
    }
  }

  /** With a store waiting at the head and no value for it, the compute unit has sent the
      values of exactly the consumed stores. */
  lemma StoreAtHead(k: Kernel, c: Config, y: System)
    requires SoundAndSystem(k, c, y) && Stuck(k, c, y)
    requires y.storeReqs != [] || Requests(y.queue.stores) != []
    ensures y.progress.consumed == |StoresIn(k.ops, y.cu)| < y.queue.lastStoreTag
  {
    HeadStore(TraceOf(k), y.queue, y.progress.consumed);
  }

  /** The other case: no store is allocated, and all requests sent have been consumed. */
  lemma NoStoreAtHead(k: Kernel, c: Config, y: System)
    requires SoundAndSystem(k, c, y) && Stuck(k, c, y) && y.storeVals != []
    ensures y.progress.consumed == |StoresIn(k.ops, y.agu)| < |StoresIn(k.ops, y.cu)|
    ensures y.storeReqs == []
  {
  }

  /** With no load in the queue, all load requests sent have been answered. */
  lemma NoLoadAtHead(k: Kernel, c: Config, y: System)
    requires SoundAndSystem(k, c, y) && Stuck(k, c, y) && !y.queue.loads[0].valid
    ensures y.progress.answered == y.progress.accepted == |LoadsIn(k.ops, y.agu)| && y.loadReqs == []
  {
  }

  lemma {:induction false} PositionsOrdered(ops: seq<Op>, m: nat, n: nat)
    requires m <= |ops| && n <= |ops|
    ensures |StoresIn(ops, m)| < |StoresIn(ops, n)| || |LoadsIn(ops, m)| < |LoadsIn(ops, n)| ==> m < n
    ensures m <= n ==> |StoresIn(ops, m)| <= |StoresIn(ops, n)| && |LoadsIn(ops, m)| <= |LoadsIn(ops, n)|
  {
    if m <= n {
      RequestsGrow(ops, m, n);
    } else {
      RequestsGrow(ops, n, m);
    }
  }

  /** The store value pipe is empty: the compute unit is not waiting for room in it. */
  lemma ValuesTaken(k: Kernel, c: Config, y: System)
    requires SoundAndSystem(k, c, y) && Stuck(k, c, y)
    ensures y.storeVals == []
  {
    if y.storeVals != [] {
      NoStoreAtHead(k, c, y);
      PositionsOrdered(k.ops, y.agu, y.cu);
      HeadLoad(TraceOf(k), y.queue.loads, y.queue.latch, y.progress.consumed, y.progress.answered, y.progress.accepted);
      assert false;
    }
  }

  /** The address generator has passed every store that precedes an accepted load. */
  lemma StoresBeforeSent(k: Kernel, y: System, m: nat)
    requires InBounds(k) && AguInvariant(k, TraceOf(k), y) && m < y.progress.accepted
    ensures TraceOf(k).loads[m].tag <= |StoresIn(k.ops, y.agu)|
  {
    TagsAreNumbers(k.ops, y.agu, |k.memory|);
    RequestsGrow(k.ops, y.agu, |k.ops|);
    assert TraceOf(k).loads[m] == LoadsIn(k.ops, y.agu)[m];
  }

  /** Every pipe to a waiting compute unit is empty, so there is room for any answer. */
  lemma RoomForAnswer(k: Kernel, c: Config, y: System)
    requires SoundAndSystem(k, c, y) && !CuReady(k, c, y) && y.cu < |k.ops| && k.ops[y.cu].Load?
    ensures y.progress.answered == |LoadsIn(k.ops, y.cu)|
    ensures var o := OffersOf(c, y, AllOpen(|y.answers|, 0));
      |o.room| == c.ports && forall p :: 0 <= p < c.ports ==> o.room[p]
  {
    FrontAnswer(k, y);
  }

  /** With the queue's oldest load the one the compute unit waits for, the load must lack
      permission to go. */
  lemma WaitingLoadIsUnsafe(k: Kernel, c: Config, y: System)
    requires SoundAndSystem(k, c, y) && Stuck(k, c, y)
    requires y.cu < |k.ops| && k.ops[y.cu].Load? && y.queue.loads[0].valid
    ensures !y.queue.loads[0].safe && y.queue.loads[0].tag == |StoresIn(k.ops, y.cu)|
    ensures y.queue.loads[0].tag <= |StoresIn(k.ops, y.agu)|
  {
    FrontAnswer(k, y);
    RoomForAnswer(k, c, y);
    HeadLoad(TraceOf(k), y.queue.loads, y.queue.latch, y.progress.consumed, y.progress.answered, y.progress.accepted);
    PortsInRange(k.ops, |k.ops|, c.ports);
    StoresBeforeSent(k, y, y.progress.answered);
  }

  lemma NotAtQueuedLoad(k: Kernel, c: Config, y: System)
    requires SoundAndSystem(k, c, y) && Stuck(k, c, y) && y.cu < |k.ops| && k.ops[y.cu].Load?
    ensures !y.queue.loads[0].valid
  {
    var s, head := y.queue, y.queue.loads[0];
    if head.valid {
      WaitingLoadIsUnsafe(k, c, y);
      if head.tag <= s.lastStoreTag {
        var i :| 0 <= i < |s.stores| && s.stores[i].addr == head.addr && s.stores[i].tag <= head.tag;
        SlotIsRequested(s.stores, i);
      }
      StoreAtHead(k, c, y);
      assert false;
    }
  }

  /** A load the compute unit waits for and the queue has not seen is still to be sent,
      behind a store request that finds its pipe full. */
  lemma UnsentLoadBehindStore(k: Kernel, c: Config, y: System)
    requires SoundAndSystem(k, c, y) && Stuck(k, c, y) && y.cu < |k.ops| && k.ops[y.cu].Load?
    ensures y.agu <= y.cu && y.storeReqs != []
  {
    NotAtQueuedLoad(k, c, y);
    RoomForAnswer(k, c, y);
    NoLoadAtHead(k, c, y);
    LoadAt(k, y.cu);
    PositionsOrdered(k.ops, y.agu, y.cu + 1);
  }

  lemma NotAtLoad(k: Kernel, c: Config, y: System)
    requires SoundAndSystem(k, c, y) && Stuck(k, c, y) && y.cu < |k.ops|
    ensures !k.ops[y.cu].Load?
  {
    if k.ops[y.cu].Load? {
      UnsentLoadBehindStore(k, c, y);
      StoreAtHead(k, c, y);
      PositionsOrdered(k.ops, y.agu, y.cu);
      assert false;
    }
  }

  lemma StuckIsComplete(k: Kernel, c: Config, y: System)
    requires SoundAndSystem(k, c, y) && Stuck(k, c, y)
    ensures Complete(k, y)
  {
    ValuesTaken(k, c, y);
    if y.cu < |k.ops| {
      NotAtLoad(k, c, y);
      assert false;
    }
    NothingLeft(k, c, y);
  }

  /** With the compute unit through, nothing is left of the requests either. */
  lemma NothingLeft(k: Kernel, c: Config, y: System)
    requires SoundAndSystem(k, c, y) && Stuck(k, c, y) && y.cu == |k.ops| && y.storeVals == []
    ensures Complete(k, y)
  {
    RequestsGrow(k.ops, y.agu, |k.ops|);
    HeadLoad(TraceOf(k), y.queue.loads, y.queue.latch, y.progress.consumed, y.progress.answered, y.progress.accepted);
    assert y.loadReqs == [];
    assert y.storeReqs == [];
  }

  // ------------------------------------------------------------------ steps without work

  ghost function Bound(y: System): nat
  {
    |y.queue.stores| + |y.queue.loads|
  }

  ghost predicate SameClients(y: System, z: System)
  {
    && y.agu == z.agu && y.storeReqs == z.storeReqs && y.loadReqs == z.loadReqs
    && y.cu == z.cu && y.storeVals == z.storeVals && y.answers == z.answers && y.progress == z.progress
  }

  /** What every step does: work never gets undone, and a step that does none changes nothing
      but the queue's slots and does not lengthen the wait. */
  ghost predicate Advances(k: Kernel, c: Config, y: System, z: System)
  {
    && SoundAndSystem(k, c, z) && Bound(z) == Bound(y) && Work(z) >= Work(y)
    && (Work(z) == Work(y) ==> SameClients(y, z) && Wait(z.queue) <= Wait(y.queue))
  }

  lemma IdleQueueWaitsLess(k: Kernel, c: Config, y: System, a: Availability)
    requires SoundAndSystem(k, c, y) && |a.room| == |y.answers| && Idle(y.queue, OffersOf(c, y, a))
    ensures SameClients(y, QueueStep(c, y, a)) && Wait(QueueStep(c, y, a).queue) <= Wait(y.queue)
  {
    IdleStores(y.queue, OffersOf(c, y, a));
    IdleLoads(y.queue, OffersOf(c, y, a));
  }

  lemma QueueWorks(k: Kernel, c: Config, y: System, a: Availability)
    requires SoundAndSystem(k, c, y) && |a.room| == |y.answers|
    ensures Advances(k, c, y, QueueStep(c, y, a))
    ensures Work(QueueStep(c, y, a)) == Work(y) ==> Idle(y.queue, OffersOf(c, y, a))
  {
    QueueKeeps(k, c, y, a);
    CycleWorks(c, y, a);
    if Idle(y.queue, OffersOf(c, y, a)) {
      IdleQueueWaitsLess(k, c, y, a);
    }
  }

  /** A cycle undoes no work, and one that does none is idle. */
  lemma CycleWorks(c: Config, y: System, a: Availability)
    requires Shaped(y.queue) && |a.room| == |y.answers|
    requires forall v :: v in y.storeReqs ==> v.tag > y.queue.lastStoreTag
    ensures Bound(QueueStep(c, y, a)) == Bound(y) && Work(QueueStep(c, y, a)) >= Work(y)
    ensures Work(QueueStep(c, y, a)) == Work(y) ==> Idle(y.queue, OffersOf(c, y, a))
  {
  }

  lemma StepWorks(k: Kernel, c: Config, y: System, z: System)
    requires SoundAndSystem(k, c, y) && Next(k, c, y, z)
    ensures Advances(k, c, y, z)
  {
    if AguReady(k, c, y) && z == AguStep(k, y) {
      AguKeeps(k, c, y);
    } else if CuReady(k, c, y) && z == CuStep(k, c, y) {
      CuKeeps(k, c, y);
    } else {
      var a: Availability :| |a.room| == |y.answers| && z == QueueStep(c, y, a);
      QueueWorks(k, c, y, a);
    }
  }

  // ---------------------------------------------------------------------- fair stretches

  ghost predicate AguTurn(k: Kernel, c: Config, y: System, z: System)
  {
    AguReady(k, c, y) ==> z == AguStep(k, y)
  }

  ghost predicate CuTurn(k: Kernel, c: Config, y: System, z: System)
  {
    CuReady(k, c, y) ==> z == CuStep(k, c, y)
  }

  lemma ClientTurnIsWork(k: Kernel, c: Config, y: System, z: System)
    ensures AguTurn(k, c, y, z) && AguReady(k, c, y) ==> Work(z) > Work(y)
    ensures CuTurn(k, c, y, z) && CuReady(k, c, y) ==> Work(z) > Work(y)
  {
  }

  /** A cycle of the queue in which every pipe responds. */
  ghost predicate QueueTurn(c: Config, y: System, z: System)
  {
    Shaped(y.queue) && exists junk :: z == QueueStep(c, y, AllOpen(|y.answers|, junk))
  }

  /** The system with its turns: at its turn a client moves unless it is blocked. */
  ghost function Turns(k: Kernel, c: Config, bound: nat): Machine<System>
  {
    Machine(
      2, (y, z) => Next(k, c, y, z),
      y => SoundAndSystem(k, c, y) && Bound(y) == bound,
      y => InBounds(k) && Complete(k, y),
      Work, SystemWait,
      (p, y) => if p == 0 then AguReady(k, c, y) else CuReady(k, c, y),
      (p, y, z) => if p == 0 then AguTurn(k, c, y, z) else CuTurn(k, c, y, z),
      (y, z) => QueueTurn(c, y, z))
  }

  lemma QueueTurnWorks(k: Kernel, c: Config, y: System, z: System)
    requires SoundAndSystem(k, c, y) && !Complete(k, y) && !AguReady(k, c, y) && !CuReady(k, c, y)
    requires QueueTurn(c, y, z)
    ensures Work(z) > Work(y) || Wait(z.queue) < Wait(y.queue)
  {
    var junk :| z == QueueStep(c, y, AllOpen(|y.answers|, junk));
    QueueWorks(k, c, y, AllOpen(|y.answers|, junk));
    if Work(z) == Work(y) && Wait(z.queue) >= Wait(y.queue) {
      IdleIsStuck(k, c, y, junk);
      StuckIsComplete(k, c, y);
    }
  }

  lemma WaitIsBounded(k: Kernel, c: Config, y: System)
    requires SoundAndSystem(k, c, y)
    ensures Wait(y.queue) < Bound(y) && Work(y) <= 6 * |k.ops|
  {
  }

  lemma TurnIsMonotone(k: Kernel, c: Config, y: System, z: System)
    requires SoundAndSystem(k, c, y) && Next(k, c, y, z)
    ensures SoundAndSystem(k, c, z) && Bound(z) == Bound(y) && Work(z) >= Work(y)
    ensures Work(z) == Work(y) ==> Wait(z.queue) <= Wait(y.queue) && Complete(k, z) == Complete(k, y)
    ensures Work(z) == Work(y) ==> AguReady(k, c, z) == AguReady(k, c, y) && CuReady(k, c, z) == CuReady(k, c, y)
  {
    StepWorks(k, c, y, z);
  }

  lemma TurnsAreMonotone(k: Kernel, c: Config, bound: nat)
    ensures Monotone(Turns(k, c, bound))
  {
    var m := Turns(k, c, bound);
    forall y, z {:trigger m.next(y, z)} | m.inv(y) && m.next(y, z)
      ensures m.inv(z) && m.work(z) >= m.work(y)
      ensures m.work(z) == m.work(y) ==> m.wait(z) <= m.wait(y) && m.done(z) == m.done(y)
      ensures m.work(z) == m.work(y) ==> SameReady(m, y, z)
    {
      TurnIsMonotone(k, c, y, z);
    }
  }

  lemma TurnsOfClientsWork(k: Kernel, c: Config, bound: nat)
    ensures ClientsWork(Turns(k, c, bound))
  {
    var m := Turns(k, c, bound);
    forall p: nat, y, z {:trigger m.client(p, y, z)} | p < m.clients && m.inv(y) && m.client(p, y, z) && m.ready(p, y)
      ensures m.work(z) > m.work(y)
    {
      ClientTurnIsWork(k, c, y, z);
    }
  }

  lemma TurnsOfQueueWork(k: Kernel, c: Config, bound: nat)
    ensures ServerWorks(Turns(k, c, bound))
  {
    var m := Turns(k, c, bound);
    forall y, z | m.inv(y) && m.server(y, z) && !m.done(y) && Blocked(m, y)
      ensures m.work(z) > m.work(y) || m.wait(z) < m.wait(y)
    {
      assert !m.ready(0, y) && !m.ready(1, y);
      QueueTurnWorks(k, c, y, z);
    }
  }

  lemma TurnsAreBounded(k: Kernel, c: Config, bound: nat)
    ensures Bounded(Turns(k, c, bound), bound, 6 * |k.ops| + 1)
  {
    forall y | SoundAndSystem(k, c, y)
      ensures Wait(y.queue) < Bound(y) && Work(y) <= 6 * |k.ops|
    {
      WaitIsBounded(k, c, y);
    }
  }

  lemma TurnsAreLive(k: Kernel, c: Config, bound: nat)
    ensures Live(Turns(k, c, bound), bound, 6 * |k.ops| + 1)
  {
    TurnsAreMonotone(k, c, bound);
    TurnsOfClientsWork(k, c, bound);
    TurnsOfQueueWork(k, c, bound);
    TurnsAreBounded(k, c, bound);
  }

  // -------------------------------------------------------------------------- fair runs

  /** No deadlock: from every reachable state with work left, as many fair stretches as the
      queue has slots accept a request, consume a store value or return a load. */
  lemma FairRunAdvances(k: Kernel, c: Config, run: seq<System>, marks: seq<nat>)
    requires marks != [] && marks[0] < |run| && FairRun(Turns(k, c, Bound(run[marks[0]])), run, marks)
    requires SoundAndSystem(k, c, run[marks[0]]) && !Complete(k, run[marks[0]])
    requires |marks| > Bound(run[marks[0]])
    ensures marks[|marks| - 1] < |run| && Work(run[marks[|marks| - 1]]) > Work(run[marks[0]])
  {
    var bound := Bound(run[marks[0]]);
    TurnsAreLive(k, c, bound);
    WaitIsBounded(k, c, run[marks[0]]);
    FairRuns.FairRunAdvances(Turns(k, c, bound), run, marks);
  }

  /** Once complete, the kernel stays complete. */
  lemma CompleteStays(k: Kernel, c: Config, y: System, z: System)
    requires SoundAndSystem(k, c, y) && Complete(k, y) && Next(k, c, y, z)
    ensures Complete(k, z)
  {
    var a: Availability :| |a.room| == |y.answers| && z == QueueStep(c, y, a);
    QueueKeeps(k, c, y, a);
    AnswersSent(k, c, y, a);
  }

  lemma ReachedIsSound(k: Kernel, c: Config, run: seq<System>, i: nat)
    requires InBounds(k) && Run(k, c, run) && Sound(k, c, run[0].queue.speculation) && i < |run|
    ensures SoundAndSystem(k, c, run[i])
  {
    BramSystem.RunKeeps(k, c, run, i);
  }

  lemma TurnsAreStable(k: Kernel, c: Config, bound: nat)
    ensures Stable(Turns(k, c, bound))
  {
    TurnsAreMonotone(k, c, bound);
    var m := Turns(k, c, bound);
    forall y, z {:trigger m.next(y, z)} | m.inv(y) && m.done(y) && m.next(y, z)
      ensures m.inv(z) && m.done(z)
    {
      CompleteStays(k, c, y, z);
    }
  }

  lemma FairRunCompletes(k: Kernel, c: Config, run: seq<System>, marks: seq<nat>)
    requires marks != [] && marks[0] < |run| && FairRun(Turns(k, c, Bound(run[marks[0]])), run, marks)
    requires SoundAndSystem(k, c, run[marks[0]])
    requires |marks| > Bound(run[marks[0]]) * (6 * |k.ops| + 2)
    ensures Complete(k, run[|run| - 1])
  {
    var bound := Bound(run[marks[0]]);
    TurnsAreLive(k, c, bound);
    TurnsAreStable(k, c, bound);
    FairRunEnds(Turns(k, c, bound), run, marks, bound, 6 * |k.ops| + 1);
  }

  lemma CompleteIsSequential(k: Kernel, c: Config, run: seq<System>, i: nat)
    requires InBounds(k) && Run(k, c, run) && Sound(k, c, run[0].queue.speculation)
    requires i < |run| && Complete(k, run[i])
    ensures run[i].received == Exec(k, |k.ops|).loaded && run[i].queue.data == Exec(k, |k.ops|).memory
  {
    RunsAreSequential(k, c, run, i);
    MemoryIsSequential(k, |k.ops|);
  }

  /** Every run with enough fair stretches ends with the kernel complete, with the loads and
      the memory of sequential execution. */
  lemma FairRunsEndSequentially(k: Kernel, c: Config, run: seq<System>, marks: seq<nat>)
    requires InBounds(k) && Run(k, c, run) && Sound(k, c, run[0].queue.speculation)
    requires marks != [] && marks[0] == 0 && FairRun(Turns(k, c, Bound(run[0])), run, marks)
    requires |marks| > Bound(run[0]) * (6 * |k.ops| + 2)
    ensures Complete(k, run[|run| - 1])
    ensures run[|run| - 1].received == Exec(k, |k.ops|).loaded
    ensures run[|run| - 1].queue.data == Exec(k, |k.ops|).memory
  {
    ReachedIsSound(k, c, run, 0);
    FairRunCompletes(k, c, run, marks);
    CompleteIsSequential(k, c, run, |run| - 1);
  }
}
