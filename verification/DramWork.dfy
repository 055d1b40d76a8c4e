module DramWork {
  // What the steps of the off-chip system get done, and what a cycle of the queue does that gets
  // nothing done: it brings the oldest entries to the front.

  import opened Wrappers
  import opened Sums
  import opened Traces
  import opened StoreAllocation
  import opened Kernels
  import opened DramQueue
  import opened DramInvariant
  import opened DramPorts
  import opened DramSystem

  // -------------------------------------------------------------------------- work and wait

  /** What a port has done; a load that the memory still has to serve counts one less. */
  function PortWork(p: Port): nat
  {
    p.counts.received + p.counts.muxed + p.counts.accepted +
      if |p.addrs| <= 2 * p.counts.sent then 2 * p.counts.sent - |p.addrs| else 0
  }

  function Works(ports: seq<Port>): (r: seq<nat>)
    ensures |r| == |ports| && forall p :: 0 <= p < |ports| ==> r[p] == PortWork(ports[p])
  {
    seq(|ports|, p requires 0 <= p < |ports| => PortWork(ports[p]))
  }

  function Work(y: System): nat
  {
    y.agu + y.cu + y.queue.lastStoreTag + y.consumed + Total(Works(y.ports))
  }

  /** Empty slots in front of the oldest load. */
  ghost function LoadDepth(q: seq<LoadSlot>): (d: nat)
    ensures d <= |q| && (q != [] ==> d < |q|)
  {
    if Pending(q) == [] || q[0].searching then 0 else 1 + LoadDepth(q[1..])
  }

  /** 1 while the oldest load is not marked safe. */
  ghost function Unsafe(q: seq<LoadSlot>): (d: nat)
    ensures d <= 1
  {
    if Pending(q) == [] then 0
    else if q[0].searching then (if q[0].safe then 0 else 1)
    else Unsafe(q[1..])
  }

  ghost function LoadWait(q: seq<LoadSlot>): nat
  {
    LoadDepth(q) + Unsafe(q)
  }

  ghost function Waits(loads: seq<seq<LoadSlot>>): (r: seq<nat>)
    ensures |r| == |loads| && forall p :: 0 <= p < |loads| ==> r[p] == LoadWait(loads[p])
  {
    seq(|loads|, p requires 0 <= p < |loads| => LoadWait(loads[p]))
  }

  function Sizes(loads: seq<seq<LoadSlot>>): (r: seq<nat>)
    ensures |r| == |loads| && forall p :: 0 <= p < |loads| ==> r[p] == |loads[p]|
  {
    seq(|loads|, p requires 0 <= p < |loads| => |loads[p]|)
  }

  ghost function Wait(s: State): nat
  {
    StoreDepth(s.stores) + Total(Waits(s.loads))
  }

  /** How many slots the queues have. */
  function Slots(s: State): nat
  {
    |s.stores| + Total(Sizes(s.loads))
  }

  lemma {:induction false} WaitIsBounded(s: State)
    requires Shaped(s)
    ensures Wait(s) < Slots(s)
  {
    forall p | 0 <= p < |s.loads|
      ensures Waits(s.loads)[p] <= Sizes(s.loads)[p]
    {
    }
    TotalGrows(Waits(s.loads), Sizes(s.loads));
  }

  // ------------------------------------------------------------- a port that does nothing

  ghost predicate PortIdle(q: seq<LoadSlot>, req: Option<LoadReq>)
    requires |q| >= 2
  {
    SentBy(q).None? && !TakesLoad(q, req)
  }

  /** The same requests, some of them marked safe. */
  ghost predicate SafeMore(q: seq<LoadSlot>, r: seq<LoadSlot>)
  {
    && |q| == |r|
    && forall i :: 0 <= i < |q| ==>
      && q[i].searching == r[i].searching
      && (q[i].searching ==> q[i].addr == r[i].addr && q[i].tag == r[i].tag && (q[i].safe ==> r[i].safe))
  }

  lemma {:induction false} SafeMoreWaitsLess(q: seq<LoadSlot>, r: seq<LoadSlot>)
    requires SafeMore(q, r)
    ensures Pending(q) == Pending(r) && LoadDepth(q) == LoadDepth(r) && Unsafe(r) <= Unsafe(q)
  {
    if q != [] {
      SafeMoreWaitsLess(q[1..], r[1..]);
    }
  }

  lemma {:induction false} DepthShifts(q: seq<LoadSlot>, e: LoadSlot)
    requires !e.searching
    ensures LoadDepth(q + [e]) == LoadDepth(q) && Unsafe(q + [e]) == Unsafe(q)
  {
    PendingAppend(q, e);
    if q != [] && Pending(q) != [] && !q[0].searching {
      assert (q + [e])[1..] == q[1..] + [e];
      DepthShifts(q[1..], e);
    }
  }

  lemma {:induction false} ShiftWaitsLess(q: seq<LoadSlot>)
    requires |q| >= 2
    ensures LoadWait(AfterShift(q)) <= LoadWait(q) && Pending(AfterShift(q)) == Pending(q)
    ensures !q[0].searching && Pending(q) != [] ==> LoadWait(AfterShift(q)) < LoadWait(q)
  {
    ShiftKept(q);
    if !q[0].searching {
      DepthShifts(q[1..], q[|q| - 1].(searching := false, safe := false));
    }
  }

  lemma {:induction false} IdleCheck(stores: seq<StoreSlot>, last: nat, commits: seq<CommitSlot>, q: seq<LoadSlot>, req: Option<LoadReq>)
    requires |q| >= 2 && PortIdle(q, req)
    ensures SafeMore(q, AfterCheck(stores, last, commits, AfterAccept(AfterSend(q), req)))
  {
  }

  /** A load port through a cycle in which it neither sends nor accepts. */
  lemma {:induction false} PortWaitsLess(stores: seq<StoreSlot>, last: nat, commits: seq<CommitSlot>, q: seq<LoadSlot>, req: Option<LoadReq>)
    requires |q| >= 2 && PortIdle(q, req)
    ensures var r := PortNext(stores, last, commits, q, req);
      && |r| == |q| && LoadWait(r) <= LoadWait(q)
      && (!q[0].searching && Pending(q) != [] ==> LoadWait(r) < LoadWait(q))
      && (q[0].searching && !q[0].safe && q[0].tag <= last && !Conflicts(stores, q[0].addr, q[0].tag) ==> LoadWait(r) < LoadWait(q))
  {
    var r := AfterCheck(stores, last, commits, AfterAccept(AfterSend(q), req));
    IdleCheck(stores, last, commits, q, req);
    SafeMoreWaitsLess(q, r);
    ShiftWaitsLess(r);
  }

  // ------------------------------------------------------------ a cycle that does nothing

  function AllOpen(ports: nat, junkTag: nat, junkVal: int): Availability
  {
    Availability(true, true, seq(ports, _ => true), junkTag, junkVal)
  }

  ghost predicate StoresIdle(s: State, o: Offers)
    requires |s.stores| >= 2
  {
    !Arrives(s, o) && !(Shifts(s, o) && o.storeReq.Some?)
  }

  ghost predicate Idle(y: System, a: Availability)
    requires QueueReady(y) && Shaped(y.queue) && |a.loadReqs| == |y.ports|
  {
    && StoresIdle(y.queue, OffersOf(y, a))
    && forall p: nat {:trigger PortIdle(y.queue.loads[p], OffersOf(y, a).loadReqs[p])} :: p < |y.ports| ==>
      PortIdle(y.queue.loads[p], OffersOf(y, a).loadReqs[p])
  }

  lemma StoresWaitLess(s: State, o: Offers)
    requires |s.stores| >= 2 && StoresIdle(s, o)
    ensures StoreDepth(StoresNext(s, o)) <= StoreDepth(s.stores)
    ensures !s.stores[0].valid && Requests(s.stores) != [] ==> StoreDepth(StoresNext(s, o)) < StoreDepth(s.stores)
    ensures TagNext(s, o) == s.lastStoreTag
  {
    if !s.stores[0].valid {
      StoreDepthShifts(s.stores[1..], Allocated(None, o.junkTag));
    }
  }

  lemma PortKeepsWork(p: Port, q: seq<LoadSlot>, req: Option<LoadReq>)
    requires |q| >= 2 && |p.addrs| <= 2 * p.counts.sent
    ensures PortWork(PortStep(p, q, req)) >= PortWork(p)
    ensures PortWork(PortStep(p, q, req)) == PortWork(p) ==> PortIdle(q, req) && PortStep(p, q, req) == p
  {
  }

  /** What the invariant says of the memory's queue of a port. */
  lemma AddrsAreSent(k: Kernel, ports: nat, y: System, p: nat)
    requires SystemInvariant(k, ports, y) && p < ports
    ensures |y.ports[p].addrs| <= y.ports[p].counts.sent
  {
    assert PortOk(k, TraceOf(k), y, p);
  }

  lemma PortsKeepWork(k: Kernel, ports: nat, y: System, a: Availability)
    requires SystemInvariant(k, ports, y) && QueueReady(y) && |a.loadReqs| == |y.ports|
    ensures Total(Works(QueueStep(y, a).ports)) >= Total(Works(y.ports))
    ensures Total(Works(QueueStep(y, a).ports)) == Total(Works(y.ports)) ==>
      QueueStep(y, a).ports == y.ports && forall p: nat :: p < |y.ports| ==> PortIdle(y.queue.loads[p], OffersOf(y, a).loadReqs[p])
  {
    var z := QueueStep(y, a);
    forall p: nat | p < ports
      ensures Works(z.ports)[p] >= Works(y.ports)[p]
      ensures Works(z.ports)[p] == Works(y.ports)[p] ==>
        PortIdle(y.queue.loads[p], OffersOf(y, a).loadReqs[p]) && z.ports[p] == y.ports[p]
    {
      AddrsAreSent(k, ports, y, p);
      PortMoves(y, a, p);
      PortKeepsWork(y.ports[p], y.queue.loads[p], OffersOf(y, a).loadReqs[p]);
    }
    TotalGrows(Works(y.ports), Works(z.ports));
  }

  lemma SlotsStay(y: System, a: Availability)
    requires QueueReady(y) && Shaped(y.queue) && |a.loadReqs| == |y.ports|
    ensures Slots(QueueStep(y, a).queue) == Slots(y.queue)
  {
    var z := QueueStep(y, a);
    QueueMoves(y, a);
    forall p: nat | p < |y.ports|
      ensures Sizes(z.queue.loads)[p] == Sizes(y.queue.loads)[p]
    {
      PortMoves(y, a, p);
    }
    assert Sizes(z.queue.loads) == Sizes(y.queue.loads);
  }

  /** A cycle undoes no work, and one that does none leaves the ports as they are. */
  lemma CycleWorks(k: Kernel, ports: nat, y: System, a: Availability)
    requires SystemInvariant(k, ports, y) && QueueReady(y) && |a.loadReqs| == |y.ports|
    ensures Work(QueueStep(y, a)) >= Work(y)
    ensures Work(QueueStep(y, a)) == Work(y) ==> Idle(y, a) && QueueStep(y, a).ports == y.ports
  {
    PortsKeepWork(k, ports, y, a);
    QueueMoves(y, a);
  }

  /** An idle cycle does not lengthen any wait. */
  lemma IdleWaitsLess(y: System, a: Availability)
    requires QueueReady(y) && Shaped(y.queue) && |a.loadReqs| == |y.ports| && Idle(y, a)
    ensures Wait(QueueStep(y, a).queue) <= Wait(y.queue)
    ensures Wait(QueueStep(y, a).queue) == Wait(y.queue) ==>
      && StoreDepth(QueueStep(y, a).queue.stores) == StoreDepth(y.queue.stores)
      && Waits(QueueStep(y, a).queue.loads) == Waits(y.queue.loads)
  {
    var z, o := QueueStep(y, a), OffersOf(y, a);
    QueueMoves(y, a);
    StoresWaitLess(y.queue, o);
    forall p: nat | p < |y.ports|
      ensures Waits(z.queue.loads)[p] <= Waits(y.queue.loads)[p]
    {
      PortMoves(y, a, p);
      assert PortIdle(y.queue.loads[p], o.loadReqs[p]);
      PortWaitsLess(z.queue.stores, z.queue.lastStoreTag, z.queue.commits, y.queue.loads[p], o.loadReqs[p]);
    }
    TotalGrows(Waits(z.queue.loads), Waits(y.queue.loads));
  }

  // ------------------------------------------------------------------ a queue that is stuck

  /** The store side is stuck: a head without a value (with `value` false, values do not
      respond), or nothing at all. */
  ghost predicate StoresStuck(y: System, value: bool)
    requires |y.queue.stores| >= 2
  {
    && (y.queue.stores[0].valid && value ==> y.storeVals == [])
    && (!y.queue.stores[0].valid ==> y.storeReqs == [] && Requests(y.queue.stores) == [])
  }

  /** A port is stuck: nothing to accept, if requests respond, and the oldest load, if any, waits
      for a store that is not yet accepted or not yet consumed. */
  ghost predicate PortStuck(t: Trace, n: nat, last: nat, p: Port, q: seq<LoadSlot>, open: bool)
    requires |q| >= 2
  {
    && (open ==> p.reqs == [] || q[|q| - 1].searching)
    && (!q[0].searching ==> Pending(q) == [])
    && (q[0].searching ==> q[0].tag > last || !Clear(t, n, q[0].addr, q[0].tag))
  }

  lemma StoresAreStuck(y: System, a: Availability)
    requires QueueReady(y) && Shaped(y.queue) && |a.loadReqs| == |y.ports| && a.storeReq
    requires StoresIdle(y.queue, OffersOf(y, a)) && StoreDepth(QueueStep(y, a).queue.stores) == StoreDepth(y.queue.stores)
    ensures StoresStuck(y, a.storeVal)
  {
    QueueMoves(y, a);
    StoresWaitLess(y.queue, OffersOf(y, a));
  }

  /** A store that a load conflicts with has not been consumed. */
  lemma ConflictIsAhead(t: Trace, s: State, n: nat, addr: int, tag: nat)
    requires Regular(t) && StoresInvariant(t, s, n) && addr >= 0 && Conflicts(s.stores, addr, tag)
    ensures !Clear(t, n, addr, tag)
  {
    var i :| 0 <= i < |s.stores| && s.stores[i].addr == addr && s.stores[i].tag <= tag;
    SlotIsRequested(s.stores, i);
    var r := StoreReq(s.stores[i].addr, s.stores[i].tag);
    var h :| 0 <= h < |Requests(s.stores)| && Requests(s.stores)[h] == r;
    assert t.stores[n + h] == r;
  }

  lemma {:induction false} PortIsStuck(t: Trace, s: State, n: nat, commits: seq<CommitSlot>, jobs: seq<Job>, p: Port,
      q: seq<LoadSlot>, req: Option<LoadReq>, open: bool)
    requires Regular(t) && StoresInvariant(t, s, n) && JobsRight(t, jobs)
    requires PortInvariant(t, n, commits, q, jobs, p.counts.sent, p.counts.accepted)
    requires PortIdle(q, req) && (open && p.reqs != [] ==> req.Some?)
    requires LoadWait(PortNext(s.stores, s.lastStoreTag, s.commits, q, req)) == LoadWait(q)
    ensures PortStuck(t, n, s.lastStoreTag, p, q, open)
  {
    PortWaitsLess(s.stores, s.lastStoreTag, s.commits, q, req);
    if q[0].searching && q[0].tag <= s.lastStoreTag {
      HeadJob(q, jobs, p.counts.sent, p.counts.accepted);
      ConflictIsAhead(t, s, n, q[0].addr, q[0].tag);
    }
  }

  /** Nothing moves in a cycle with the given pipes responding. */
  ghost predicate Stuck(k: Kernel, y: System, a: Availability)
    requires InBounds(k) && Shaped(y.queue) && |a.loadReqs| == |y.ports| == |y.queue.loads|
  {
    && StoresStuck(y, a.storeVal)
    && forall p: nat {:trigger StuckAt(k, y, a, p)} :: p < |y.ports| ==> StuckAt(k, y, a, p)
  }

  ghost predicate StuckAt(k: Kernel, y: System, a: Availability, p: nat)
    requires InBounds(k) && Shaped(y.queue) && p < |y.ports| == |y.queue.loads| == |a.loadReqs|
  {
    PortStuck(TraceOf(k), y.consumed, y.queue.lastStoreTag, y.ports[p], y.queue.loads[p], a.loadReqs[p])
  }

  lemma IdleIsStuck(k: Kernel, ports: nat, y: System, a: Availability)
    requires SystemInvariant(k, ports, y) && QueueReady(y) && |a.loadReqs| == |y.ports| && a.storeReq && Idle(y, a)
    requires StoreDepth(QueueStep(y, a).queue.stores) == StoreDepth(y.queue.stores)
    requires Waits(QueueStep(y, a).queue.loads) == Waits(y.queue.loads)
    ensures Stuck(k, y, a)
  {
    var z, o := QueueStep(y, a), OffersOf(y, a);
    StoresAreStuck(y, a);
    QueueMoves(y, a);
    StoresWaitLess(y.queue, o);
    QueueCore(k, ports, y, a);
    forall p: nat | p < ports
      ensures StuckAt(k, y, a, p)
    {
      PortMoves(y, a, p);
      PortFacts(k, ports, y, p);
      assert PortOk(k, TraceOf(k), y, p);
      assert PortIdle(y.queue.loads[p], o.loadReqs[p]);
      assert Waits(z.queue.loads)[p] == Waits(y.queue.loads)[p];
      PortIsStuck(TraceOf(k), z.queue, y.consumed, y.queue.commits, PortJobs(TraceOf(k), p), y.ports[p], y.queue.loads[p],
        o.loadReqs[p], a.loadReqs[p]);
    }
  }

  /** The next load of a stuck port, if it has been requested, waits for a store. */
  lemma {:induction false} NextJobWaits(t: Trace, n: nat, commits: seq<CommitSlot>, flight: seq<InFlight>, jobs: seq<Job>,
      index: nat, p: Port, q: seq<LoadSlot>, received: nat, requested: nat, last: nat, open: bool)
    requires LaneInvariant(t, n, commits, flight, jobs, index, p, q, received, requested)
    requires p.counts.sent < requested && PortStuck(t, n, last, p, q, open) && (open || p.counts.sent < p.counts.accepted)
    ensures p.counts.sent < |jobs|
    ensures var j := jobs[p.counts.sent]; j.tag > last || !Clear(t, n, j.addr, j.tag)
  {
    var c := p.counts;
    if c.accepted == c.sent {
      assert Pending(q) == [];
      NoneSearching(q, |q| - 1);
      assert false;
    } else {
      assert Pending(q)[0] == Keys(jobs)[c.sent];
      HeadJob(q, jobs, c.sent, c.accepted);
    }
  }

  lemma {:induction false} NoneSearching(q: seq<LoadSlot>, i: nat)
    requires Pending(q) == [] && i < |q|
    ensures !q[i].searching
  {
    if i > 0 {
      NoneSearching(q[1..], i - 1);
    }
  }

  // ---------------------------------------------------------------- what the clients do

  /** One port moves. */
  lemma {:induction false} OnePortWorks(ports: seq<Port>, p: nat, x: Port)
    requires p < |ports| && PortWork(x) >= PortWork(ports[p])
    ensures Total(Works(ports[p := x])) >= Total(Works(ports))
    ensures PortWork(x) > PortWork(ports[p]) ==> Total(Works(ports[p := x])) > Total(Works(ports))
  {
    TotalGrows(Works(ports), Works(ports[p := x]));
    if PortWork(x) > PortWork(ports[p]) {
      assert Works(ports[p := x])[p] > Works(ports)[p];
    }
  }

  lemma {:induction false} AguWorks(k: Kernel, y: System)
    requires AguReady(k, y)
    ensures Work(AguStep(k, y)) > Work(y)
  {
    if k.ops[y.agu].Load? {
      var p := k.ops[y.agu].port;
      OnePortWorks(y.ports, p, AguStep(k, y).ports[p]);
    }
  }

  lemma {:induction false} CuWorks(k: Kernel, y: System)
    requires CuReady(k, y)
    ensures Work(CuStep(k, y)) > Work(y)
  {
    if k.ops[y.cu].Load? {
      var p := k.ops[y.cu].port;
      OnePortWorks(y.ports, p, Receive(y.ports[p]));
    }
  }

  lemma FetchWorks(k: Kernel, ports: nat, y: System, p: nat)
    requires SystemInvariant(k, ports, y) && FetchReady(y, p)
    ensures Work(FetchStep(y, p)) > Work(y)
  {
    AddrsAreSent(k, ports, y, p);
    OnePortWorks(y.ports, p, Fetch(y.ports[p], y.memory));
  }

  lemma {:induction false} MuxWorks(y: System, p: nat)
    requires MuxStepReady(y, p)
    ensures Work(MuxStep(y, p)) > Work(y)
  {
    OnePortWorks(y.ports, p, Mux(y.ports[p]));
  }

  /** A step without work changes nothing that a client looks at. */
  ghost predicate Quiet(y: System, z: System)
  {
    && z.agu == y.agu && z.cu == y.cu && z.consumed == y.consumed && z.ports == y.ports && |z.memory| == |y.memory|
    && z.storeVals == y.storeVals && z.storeReqs == y.storeReqs && Wait(z.queue) <= Wait(y.queue)
  }

  lemma QueueStepWorks(k: Kernel, ports: nat, y: System, a: Availability)
    requires SystemInvariant(k, ports, y) && QueueReady(y) && |a.loadReqs| == |y.ports|
    ensures var z := QueueStep(y, a); Work(z) >= Work(y) && (Work(z) == Work(y) ==> Quiet(y, z))
  {
    CycleWorks(k, ports, y, a);
    QueueMoves(y, a);
    if Work(QueueStep(y, a)) == Work(y) {
      IdleWaitsLess(y, a);
    }
  }

  /** A cycle does work, shortens a wait, or is stuck. */
  lemma CycleTurn(k: Kernel, ports: nat, y: System, a: Availability)
    requires SystemInvariant(k, ports, y) && QueueReady(y) && |a.loadReqs| == |y.ports| && a.storeReq
    ensures var z := QueueStep(y, a); Work(z) > Work(y) || Wait(z.queue) < Wait(y.queue) || Stuck(k, y, a)
  {
    CycleWorks(k, ports, y, a);
    var z := QueueStep(y, a);
    if Work(z) == Work(y) {
      IdleWaitsLess(y, a);
      if Wait(z.queue) == Wait(y.queue) {
        IdleIsStuck(k, ports, y, a);
      }
    }
  }

  // ------------------------------------------------------------------------------- bounds

  /** More than all the work there is. */
  function Limit(k: Kernel, ports: nat): nat
  {
    4 * |k.ops| + ports * (5 * |k.ops|) + 1
  }

  lemma JobsAreFew(k: Kernel, p: nat)
    requires InBounds(k)
    ensures |TraceOf(k).loads| == |TraceOf(k).results| && |PortJobs(TraceOf(k), p)| <= |k.ops|
  {
    TraceIsRegular(k);
  }

  lemma PortWorkIsBounded(k: Kernel, ports: nat, y: System, p: nat)
    requires SystemInvariant(k, ports, y) && p < ports
    ensures PortWork(y.ports[p]) <= 5 * |k.ops|
  {
    assert PortOk(k, TraceOf(k), y, p);
    JobsAreFew(k, p);
  }

  lemma WorkIsBounded(k: Kernel, ports: nat, y: System)
    requires SystemInvariant(k, ports, y)
    ensures Work(y) < Limit(k, ports)
  {
    forall p | 0 <= p < ports
      ensures Works(y.ports)[p] <= 5 * |k.ops|
    {
      PortWorkIsBounded(k, ports, y, p);
    }
    TotalIsBounded(Works(y.ports), 5 * |k.ops|);
  }
}
