module DramSystem {
  // The off-chip queue with its load and store ports, a memory of bounded store latency, and
  // the two clients.  Any of them may move at any time; pipes towards the memory are not
  // bounded here, which only adds behaviours.
  //
  // `RunsAreSequential` is the main result: the compute unit receives exactly the values of
  // sequential execution, although stores are acknowledged before they reach the memory and
  // loads of different ports overtake each other.

  import opened Wrappers
  import opened Slices
  import opened Lanes
  import opened Traces
  import opened StoreAllocation
  import opened Kernels
  import opened DramQueue
  import opened DramInvariant
  import opened DramPorts

  datatype System = System(
    queue: State, memory: seq<int>, flight: seq<InFlight>, consumed: nat, ports: seq<Port>,
    agu: nat, aguTag: nat, storeReqs: seq<StoreReq>,
    cu: nat, received: seq<int>, storeVals: seq<StoreVal>)

  /** Which input pipes respond to the queue in a cycle, and what bubbles carry. */
  datatype Availability = Availability(storeVal: bool, storeReq: bool, loadReqs: seq<bool>, junkTag: nat, junkVal: int)

  ghost predicate Sound(k: Kernel, ports: nat, speculation: bool)
  {
    && InBounds(k)
    && (forall i :: 0 <= i < |k.ops| && k.ops[i].Load? ==> k.ops[i].port < ports)
    && (speculation || forall i, h :: k.compute(i, h).valid)
  }

  // ------------------------------------------------------------------------- the actions

  predicate AguReady(k: Kernel, y: System)
  {
    y.agu < |k.ops| && (k.ops[y.agu].Load? ==> k.ops[y.agu].port < |y.ports|)
  }

  function AguStep(k: Kernel, y: System): System
    requires AguReady(k, y)
  {
    match k.ops[y.agu]
    case Load(addr, port) =>
      var p := y.ports[port];
      y.(agu := y.agu + 1, ports := y.ports[port := p.(reqs := p.reqs + [LoadReq(addr, y.aguTag, port)])])
    case Store(addr) =>
      y.(agu := y.agu + 1, aguTag := y.aguTag + 1, storeReqs := y.storeReqs + [StoreReq(addr, y.aguTag + 1)])
  }

  predicate CuReady(k: Kernel, y: System)
  {
    && y.cu < |k.ops|
    && (k.ops[y.cu].Load? ==> k.ops[y.cu].port < |y.ports| && y.ports[k.ops[y.cu].port].answers != [])
  }

  function CuStep(k: Kernel, y: System): System
    requires CuReady(k, y)
  {
    match k.ops[y.cu]
    case Load(_, port) =>
      var p := y.ports[port];
      y.(cu := y.cu + 1, received := y.received + [p.answers[0]], ports := y.ports[port := Receive(p)])
    case Store(_) =>
      y.(cu := y.cu + 1, storeVals := y.storeVals + [k.compute(y.cu, y.received)])
  }

  /** The memory takes the oldest store in flight. */
  function Land(y: System): System
    requires y.flight != []
  {
    y.(memory := Written(y.memory, y.flight[0]), flight := y.flight[1..])
  }

  predicate FetchReady(y: System, p: nat)
  {
    p < |y.ports| && y.ports[p].addrs != [] && 0 <= y.ports[p].addrs[0] < |y.memory|
  }

  function FetchStep(y: System, p: nat): System
    requires FetchReady(y, p)
  {
    y.(ports := y.ports[p := Fetch(y.ports[p], y.memory)])
  }

  predicate MuxStepReady(y: System, p: nat)
  {
    p < |y.ports| && MuxReady(y.ports[p])
  }

  function MuxStep(y: System, p: nat): System
    requires MuxStepReady(y, p)
  {
    y.(ports := y.ports[p := Mux(y.ports[p])])
  }

  function OffersOf(y: System, a: Availability): Offers
    requires |a.loadReqs| == |y.ports|
  {
    Offers(
      Front(y.storeVals, a.storeVal), Front(y.storeReqs, a.storeReq),
      seq(|y.ports|, p requires 0 <= p < |y.ports| => Front(y.ports[p].reqs, a.loadReqs[p])),
      a.junkTag, a.junkVal)
  }

  /** A cycle may pass only if no store is overdue. */
  predicate QueueReady(y: System)
  {
    && |y.queue.loads| == |y.ports|
    && forall i :: 0 <= i < |y.flight| ==> y.flight[i].age < STORE_LATENCY
  }

  function PortStep(p: Port, q: seq<LoadSlot>, req: Option<LoadReq>): Port
    requires |q| >= 2
  {
    var p1 := SendOn(p, SentBy(q));
    p1.(reqs := Rest(p.reqs, TakesLoad(q, req)),
        counts := p1.counts.(accepted := p.counts.accepted + if TakesLoad(q, req) then 1 else 0))
  }

  ghost function QueueStep(y: System, a: Availability): System
    requires QueueReady(y) && Shaped(y.queue) && |a.loadReqs| == |y.ports|
  {
    var o := OffersOf(y, a);
    var fx := CycleEffects(y.queue, o);
    y.(queue := Cycle(y.queue, o),
       flight := FlightNext(y.flight, fx.issued),
       consumed := y.consumed + (if fx.tookVal then 1 else 0),
       storeVals := Rest(y.storeVals, fx.tookVal), storeReqs := Rest(y.storeReqs, fx.tookStore),
       ports := seq(|y.ports|, p requires 0 <= p < |y.ports| => PortStep(y.ports[p], y.queue.loads[p], o.loadReqs[p])))
  }

  ghost predicate Next(k: Kernel, y: System, z: System)
  {
    || (AguReady(k, y) && z == AguStep(k, y))
    || (CuReady(k, y) && z == CuStep(k, y))
    || (y.flight != [] && z == Land(y))
    || (exists p: nat :: FetchReady(y, p) && z == FetchStep(y, p))
    || (exists p: nat :: MuxStepReady(y, p) && z == MuxStep(y, p))
    || (QueueReady(y) && Shaped(y.queue) && exists a: Availability :: |a.loadReqs| == |y.ports| && z == QueueStep(y, a))
  }

  /** All registers start empty. */
  ghost predicate Initial(k: Kernel, ports: nat, y: System)
  {
    && Shaped(y.queue) && |y.queue.loads| == |y.ports| == ports
    && (forall i :: 0 <= i < |y.queue.stores| ==> y.queue.stores[i] == StoreSlot(INVALID_ADDR, false, 0))
    && (forall i :: 0 <= i < |y.queue.commits| ==> y.queue.commits[i].addr == INVALID_ADDR)
    && (forall p, i :: 0 <= p < ports && 0 <= i < |y.queue.loads[p]| ==>
          !y.queue.loads[p][i].searching && !y.queue.loads[p][i].safe)
    && y.queue.lastStoreTag == 0 && y.memory == k.memory && y.flight == [] && y.consumed == 0
    && (forall p :: 0 <= p < ports ==> y.ports[p] == Port([], Counts(0, 0, 0, 0), [], [], [], [], []))
    && y.agu == 0 && y.aguTag == 0 && y.storeReqs == []
    && y.cu == 0 && y.received == [] && y.storeVals == []
  }

  // ----------------------------------------------------------------- loads of one port

  /** All loads of the kernel, each on its port. */
  ghost function Jobs(t: Trace): seq<Laned<Job>>
    requires |t.loads| == |t.results|
  {
    seq(|t.loads|, i requires 0 <= i < |t.loads| =>
      Laned(t.loads[i].port, Job(t.loads[i].addr, t.loads[i].tag, t.results[i])))
  }

  ghost function PortJobs(t: Trace, p: nat): seq<Job>
    requires |t.loads| == |t.results|
  {
    Lane(Jobs(t), p)
  }

  /** How many of the first `m` loads use port `p`. */
  ghost function PortCount(t: Trace, m: nat, p: nat): nat
    requires |t.loads| == |t.results| && m <= |t.loads|
  {
    |Lane(Jobs(t)[..m], p)|
  }

  lemma PortSplit(t: Trace, m: nat, p: nat)
    requires |t.loads| == |t.results| && m <= |t.loads|
    ensures PortCount(t, m, p) <= |PortJobs(t, p)|
    ensures PortJobs(t, p)[PortCount(t, m, p)..] == Lane(Jobs(t)[m..], p)
  {
    LaneConcat(Jobs(t)[..m], Jobs(t)[m..], p);
    assert Jobs(t)[..m] + Jobs(t)[m..] == Jobs(t);
  }

  /** Load `m` is the next one of its port, and of no other. */
  lemma PortAdvances(t: Trace, m: nat, p: nat)
    requires |t.loads| == |t.results| && m < |t.loads|
    ensures PortCount(t, m + 1, p) == PortCount(t, m, p) + if t.loads[m].port == p then 1 else 0
    ensures PortCount(t, m + 1, p) <= |PortJobs(t, p)|
    ensures t.loads[m].port == p ==>
      PortJobs(t, p)[PortCount(t, m, p)] == Job(t.loads[m].addr, t.loads[m].tag, t.results[m])
  {
    LaneAppend(Jobs(t)[..m], Jobs(t)[m], p);
    assert Jobs(t)[..m + 1] == Jobs(t)[..m] + [Jobs(t)[m]];
    PortSplit(t, m, p);
    PortSplit(t, m + 1, p);
    if t.loads[m].port == p {
      assert Lane(Jobs(t)[m..], p)[0] == Jobs(t)[m].item;
      assert PortJobs(t, p)[PortCount(t, m, p)..][0] == Jobs(t)[m].item;
    }
  }

  lemma PortJobsRight(t: Trace, p: nat)
    requires Regular(t) && Sequential(t)
    ensures JobsRight(t, PortJobs(t, p))
  {
    forall i | 0 <= i < |PortJobs(t, p)|
      ensures var j := PortJobs(t, p)[i];
        0 <= j.addr < |t.memory| && j.tag <= |t.stores| && j.result == MemoryAfter(t, j.tag)[j.addr]
    {
      var h := LaneMember(Jobs(t), p, i);
    }
  }

  /** Loads of a port not yet reached by the compute unit come after its stores. */
  lemma PortNoneEarly(k: Kernel, cu: nat, p: nat)
    requires InBounds(k) && cu <= |k.ops|
    ensures |TraceOf(k).loads| == |TraceOf(k).results| && |LoadsIn(k.ops, cu)| <= |TraceOf(k).loads|
    ensures NoneEarly(PortJobs(TraceOf(k), p), PortCount(TraceOf(k), |LoadsIn(k.ops, cu)|, p), |StoresIn(k.ops, cu)|)
  {
    var t, m := TraceOf(k), |LoadsIn(k.ops, cu)|;
    TraceIsRegular(k);
    RequestsGrow(k.ops, cu, |k.ops|);
    LaterLoadsLaterTags(k.ops, cu, |k.ops|);
    PortSplit(t, m, p);
    LaneIsLate(Jobs(t)[m..], p, |StoresIn(k.ops, cu)|);
    RestIsLate(PortJobs(t, p), PortCount(t, m, p), |StoresIn(k.ops, cu)|);
  }

  lemma LaneIsLate(jobs: seq<Laned<Job>>, p: nat, n: nat)
    requires forall h :: 0 <= h < |jobs| ==> n <= jobs[h].item.tag
    ensures NoneEarly(Lane(jobs, p), 0, n)
  {
    forall i | 0 <= i < |Lane(jobs, p)|
      ensures n <= Lane(jobs, p)[i].tag
    {
      var h := LaneMember(jobs, p, i);
    }
  }

  lemma RestIsLate(jobs: seq<Job>, c: nat, n: nat)
    requires c <= |jobs| && NoneEarly(jobs[c..], 0, n)
    ensures NoneEarly(jobs, c, n)
  {
    forall i | c <= i < |jobs|
      ensures n <= jobs[i].tag
    {
      assert jobs[c..][i - c] == jobs[i];
    }
  }

  // ---------------------------------------------------------------------- the invariant

  ghost predicate AguInvariant(k: Kernel, t: Trace, y: System)
  {
    && y.agu <= |k.ops|
    && y.aguTag == |StoresIn(k.ops, y.agu)|
    && y.queue.lastStoreTag <= |StoresIn(k.ops, y.agu)| <= |t.stores|
    && y.storeReqs == t.stores[y.queue.lastStoreTag..|StoresIn(k.ops, y.agu)|]
    && |LoadsIn(k.ops, y.agu)| <= |t.loads|
  }

  ghost predicate CuInvariant(k: Kernel, t: Trace, y: System)
  {
    && y.cu <= |k.ops|
    && y.consumed <= |StoresIn(k.ops, y.cu)| <= |t.values|
    && y.storeVals == t.values[y.consumed..|StoresIn(k.ops, y.cu)|]
    && |LoadsIn(k.ops, y.cu)| <= |t.loads| == |t.results|
    && y.received == t.results[..|LoadsIn(k.ops, y.cu)|]
  }

  /** The requests on their way to the queue. */
  ghost predicate SentRequests(jobs: seq<Job>, port: nat, accepted: nat, requested: nat, reqs: seq<LoadReq>)
  {
    && accepted <= requested <= |jobs|
    && |reqs| == requested - accepted
    && forall i :: 0 <= i < |reqs| ==> reqs[i] == LoadReq(jobs[accepted + i].addr, jobs[accepted + i].tag, port)
  }

  ghost predicate LaneInvariant(t: Trace, n: nat, commits: seq<CommitSlot>, flight: seq<InFlight>, jobs: seq<Job>,
                                index: nat, p: Port, q: seq<LoadSlot>, received: nat, requested: nat)
  {
    && p.counts.received == received
    && SentRequests(jobs, index, p.counts.accepted, requested, p.reqs)
    && PortInvariant(t, n, commits, q, jobs, p.counts.sent, p.counts.accepted)
    && ReturnInvariant(t, n, flight, jobs, p)
  }

  ghost predicate PortOk(k: Kernel, t: Trace, y: System, p: nat)
    requires |t.loads| == |t.results| && |LoadsIn(k.ops, if y.cu <= |k.ops| then y.cu else 0)| <= |t.loads|
    requires y.cu <= |k.ops| && y.agu <= |k.ops| && |LoadsIn(k.ops, y.agu)| <= |t.loads|
    requires p < |y.ports| == |y.queue.loads|
  {
    LaneInvariant(t, y.consumed, y.queue.commits, y.flight, PortJobs(t, p), p, y.ports[p], y.queue.loads[p],
      PortCount(t, |LoadsIn(k.ops, y.cu)|, p), PortCount(t, |LoadsIn(k.ops, y.agu)|, p))
  }

  ghost predicate CoreInvariant(k: Kernel, t: Trace, y: System)
  {
    && Regular(t) && Sequential(t) && Shaped(y.queue)
    && (y.queue.speculation || forall i :: 0 <= i < |t.values| ==> t.values[i].valid)
    && StoresInvariant(t, y.queue, y.consumed)
    && MemoryInvariant(t, y.queue, y.memory, y.flight, y.consumed)
    && AguInvariant(k, t, y)
    && CuInvariant(k, t, y)
    && |y.ports| == |y.queue.loads|
  }

  ghost predicate SystemInvariant(k: Kernel, ports: nat, y: System)
  {
    && Sound(k, ports, y.queue.speculation)
    && CoreInvariant(k, TraceOf(k), y)
    && |y.ports| == ports
    && forall p :: 0 <= p < ports ==> PortOk(k, TraceOf(k), y, p)
  }

  // --------------------------------------------------------------- what each action keeps

  lemma InitialHolds(k: Kernel, ports: nat, y: System)
    requires Sound(k, ports, y.queue.speculation) && Initial(k, ports, y)
    ensures SystemInvariant(k, ports, y)
  {
    var t := TraceOf(k);
    TraceIsSequential(k);
    if !y.queue.speculation {
      ValuesAreValid(k, |k.ops|);
    }
    NothingRequested(y.queue.stores);
    NothingCommitted(y.queue.commits);
    forall p | 0 <= p < ports
      ensures PortOk(k, t, y, p)
    {
      NothingPending(y.queue.loads[p]);
      assert Jobs(t)[..0] == [];
    }
  }

  lemma {:induction false} NothingPending(q: seq<LoadSlot>)
    requires forall i :: 0 <= i < |q| ==> !q[i].searching
    ensures Pending(q) == []
  {
    if q != [] {
      NothingPending(q[1..]);
    }
  }

  lemma {:induction false} NothingCommitted(commits: seq<CommitSlot>)
    requires forall i :: 0 <= i < |commits| ==> commits[i].addr == INVALID_ADDR
    ensures forall addr :: addr >= 0 ==> LatestCommit(commits, addr) == None
  {
    if commits != [] {
      NothingCommitted(commits[..|commits| - 1]);
    }
  }

  lemma AguCore(k: Kernel, t: Trace, y: System)
    requires AguInvariant(k, t, y) && AguReady(k, y) && OpFacts(k, t, y.agu)
    ensures AguInvariant(k, t, AguStep(k, y))
  {
    if k.ops[y.agu].Store? {
      SliceMoves(t.stores, y.queue.lastStoreTag, |StoresIn(k.ops, y.agu)|, false, true);
    }
  }

  lemma LaneRequested(t: Trace, n: nat, commits: seq<CommitSlot>, flight: seq<InFlight>, jobs: seq<Job>,
                      index: nat, p: Port, q: seq<LoadSlot>, received: nat, requested: nat)
    requires LaneInvariant(t, n, commits, flight, jobs, index, p, q, received, requested) && requested < |jobs|
    ensures LaneInvariant(t, n, commits, flight, jobs, index,
      p.(reqs := p.reqs + [LoadReq(jobs[requested].addr, jobs[requested].tag, index)]), q, received, requested + 1)
  {
  }

  lemma AguPort(k: Kernel, t: Trace, y: System, p: nat)
    requires AguInvariant(k, t, y) && AguReady(k, y) && OpFacts(k, t, y.agu)
    requires |t.loads| == |t.results| && y.cu <= |k.ops| && |LoadsIn(k.ops, y.cu)| <= |t.loads|
    requires p < |y.ports| == |y.queue.loads| && PortOk(k, t, y, p)
    requires AguInvariant(k, t, AguStep(k, y))
    ensures PortOk(k, t, AguStep(k, y), p)
  {
    var jobs, received, h := PortJobs(t, p), PortCount(t, |LoadsIn(k.ops, y.cu)|, p), |LoadsIn(k.ops, y.agu)|;
    if k.ops[y.agu].Load? {
      PortAdvances(t, h, p);
      AguLoad(k, t, y, jobs, p, received, PortCount(t, h, p));
    }
  }

  lemma AguLoad(k: Kernel, t: Trace, y: System, jobs: seq<Job>, p: nat, received: nat, requested: nat)
    requires y.agu < |k.ops| && k.ops[y.agu].Load? && k.ops[y.agu].port < |y.ports| == |y.queue.loads| && p < |y.ports|
    requires LaneInvariant(t, y.consumed, y.queue.commits, y.flight, jobs, p, y.ports[p], y.queue.loads[p], received, requested)
    requires k.ops[y.agu].port == p ==> requested < |jobs| && jobs[requested].addr == k.ops[y.agu].addr && jobs[requested].tag == y.aguTag
    ensures LaneInvariant(t, y.consumed, y.queue.commits, y.flight, jobs, p, AguStep(k, y).ports[p], y.queue.loads[p], received,
      requested + if k.ops[y.agu].port == p then 1 else 0)
  {
    if k.ops[y.agu].port == p {
      LaneRequested(t, y.consumed, y.queue.commits, y.flight, jobs, p, y.ports[p], y.queue.loads[p], received, requested);
    }
  }

  lemma AguKeeps(k: Kernel, ports: nat, y: System)
    requires SystemInvariant(k, ports, y) && AguReady(k, y)
    ensures SystemInvariant(k, ports, AguStep(k, y))
  {
    OpAt(k, y.agu);
    AguCore(k, TraceOf(k), y);
    forall p | 0 <= p < ports
      ensures PortOk(k, TraceOf(k), AguStep(k, y), p)
    {
      assert PortOk(k, TraceOf(k), y, p);
      AguPort(k, TraceOf(k), y, p);
    }
  }

  /** The value at the front of the port is the one the compute unit waits for. */
  lemma CuFront(k: Kernel, t: Trace, y: System)
    requires CuInvariant(k, t, y) && CuReady(k, y) && k.ops[y.cu].Load? && LoadFacts(k, t, y.cu)
    requires y.agu <= |k.ops| && |LoadsIn(k.ops, y.agu)| <= |t.loads| && |y.ports| == |y.queue.loads|
    requires PortOk(k, t, y, k.ops[y.cu].port)
    ensures y.ports[k.ops[y.cu].port].answers[0] == t.results[|LoadsIn(k.ops, y.cu)|]
  {
    var m, port := |LoadsIn(k.ops, y.cu)|, k.ops[y.cu].port;
    PortAdvances(t, m, port);
    ReceiveKeeps(t, y.consumed, y.flight, PortJobs(t, port), y.ports[port]);
  }

  lemma CuCore(k: Kernel, t: Trace, y: System)
    requires CuInvariant(k, t, y) && CuReady(k, y) && OpFacts(k, t, y.cu)
    requires k.ops[y.cu].Load? ==> y.ports[k.ops[y.cu].port].answers[0] == t.results[|LoadsIn(k.ops, y.cu)|]
    ensures CuInvariant(k, t, CuStep(k, y))
  {
    if k.ops[y.cu].Load? {
      SliceMoves(t.results, 0, |LoadsIn(k.ops, y.cu)|, false, true);
    } else {
      SliceMoves(t.values, y.consumed, |StoresIn(k.ops, y.cu)|, false, true);
    }
  }

  lemma CuPort(k: Kernel, t: Trace, y: System, p: nat)
    requires CuInvariant(k, t, y) && CuReady(k, y) && OpFacts(k, t, y.cu)
    requires y.agu <= |k.ops| && |LoadsIn(k.ops, y.agu)| <= |t.loads|
    requires p < |y.ports| == |y.queue.loads| && PortOk(k, t, y, p)
    requires CuInvariant(k, t, CuStep(k, y))
    ensures PortOk(k, t, CuStep(k, y), p)
  {
    if k.ops[y.cu].Load? {
      var m := |LoadsIn(k.ops, y.cu)|;
      PortAdvances(t, m, p);
      if p == k.ops[y.cu].port {
        ReceiveKeeps(t, y.consumed, y.flight, PortJobs(t, p), y.ports[p]);
      }
    }
  }

  lemma CuKeeps(k: Kernel, ports: nat, y: System)
    requires SystemInvariant(k, ports, y) && CuReady(k, y)
    ensures SystemInvariant(k, ports, CuStep(k, y))
  {
    var t := TraceOf(k);
    OpAt(k, y.cu);
    if k.ops[y.cu].Load? {
      assert PortOk(k, t, y, k.ops[y.cu].port);
      CuFront(k, t, y);
    }
    CuCore(k, t, y);
    forall p | 0 <= p < ports
      ensures PortOk(k, t, CuStep(k, y), p)
    {
      assert PortOk(k, t, y, p);
      CuPort(k, t, y, p);
    }
  }

  lemma LandKeeps(k: Kernel, ports: nat, y: System)
    requires SystemInvariant(k, ports, y) && y.flight != []
    ensures SystemInvariant(k, ports, Land(y))
  {
    var t := TraceOf(k);
    forall p | 0 <= p < ports
      ensures PortOk(k, t, Land(y), p)
    {
      assert PortOk(k, t, y, p);
      SendKeeps(t, y.consumed, y.consumed, y.flight, y.flight[1..], PortJobs(t, p), y.ports[p], None);
    }
  }

  /** What the loads of a port need to know about the run so far. */
  lemma PortFacts(k: Kernel, ports: nat, y: System, p: nat)
    requires SystemInvariant(k, ports, y) && p < ports
    ensures JobsRight(TraceOf(k), PortJobs(TraceOf(k), p))
    ensures NoneEarly(PortJobs(TraceOf(k), p), y.ports[p].counts.received, |StoresIn(k.ops, y.cu)|)
  {
    assert PortOk(k, TraceOf(k), y, p);
    PortJobsRight(TraceOf(k), p);
    PortNoneEarly(k, y.cu, p);
  }

  lemma FetchStepKeeps(k: Kernel, ports: nat, y: System, p: nat)
    requires SystemInvariant(k, ports, y) && FetchReady(y, p)
    ensures SystemInvariant(k, ports, FetchStep(y, p))
  {
    var t := TraceOf(k);
    PortFacts(k, ports, y, p);
    forall h | 0 <= h < ports
      ensures PortOk(k, t, FetchStep(y, p), h)
    {
      assert PortOk(k, t, y, h);
      if h == p {
        FetchKeeps(t, y.consumed, y.memory, y.flight, PortJobs(t, p), y.ports[p]);
      }
    }
  }

  lemma MuxStepKeeps(k: Kernel, ports: nat, y: System, p: nat)
    requires SystemInvariant(k, ports, y) && MuxStepReady(y, p)
    ensures SystemInvariant(k, ports, MuxStep(y, p))
  {
    var t := TraceOf(k);
    forall h | 0 <= h < ports
      ensures PortOk(k, t, MuxStep(y, p), h)
    {
      assert PortOk(k, t, y, h);
      if h == p {
        MuxKeeps(t, y.consumed, y.flight, PortJobs(t, p), y.ports[p]);
      }
    }
  }

  // -------------------------------------------------------------------- the queue's cycle

  lemma OffersInOrder(k: Kernel, t: Trace, y: System, a: Availability)
    requires CoreInvariant(k, t, y) && |a.loadReqs| == |y.ports|
    ensures StoreOffersInOrder(t, y.queue, y.consumed, OffersOf(y, a))
    ensures OffersOf(y, a).storeVal.Some? ==> y.consumed < |StoresIn(k.ops, y.cu)|
    ensures OffersOf(y, a).storeReq.Some? ==> y.queue.lastStoreTag < |StoresIn(k.ops, y.agu)|
  {
  }

  /** How a cycle moves along the streams of stores. */
  lemma QueueMoves(y: System, a: Availability)
    requires QueueReady(y) && Shaped(y.queue) && |a.loadReqs| == |y.ports|
    ensures var o, z := OffersOf(y, a), QueueStep(y, a);
      && z.consumed == y.consumed + (if Arrives(y.queue, o) then 1 else 0)
      && z.queue.lastStoreTag == TagNext(y.queue, o) && z.queue.stores == StoresNext(y.queue, o)
      && z.queue.commits == CommitsNext(y.queue.commits, Issued(y.queue, o), o.junkVal)
      && z.flight == FlightNext(y.flight, Issued(y.queue, o)) && z.memory == y.memory
      && z.storeVals == Rest(y.storeVals, Arrives(y.queue, o))
      && z.storeReqs == Rest(y.storeReqs, Shifts(y.queue, o) && o.storeReq.Some?)
      && z.agu == y.agu && z.aguTag == y.aguTag && z.cu == y.cu && z.received == y.received
      && |z.ports| == |z.queue.loads| == |y.ports| && z.queue.speculation == y.queue.speculation
  {
  }

  lemma QueueClients(k: Kernel, t: Trace, y: System, a: Availability)
    requires CoreInvariant(k, t, y) && QueueReady(y) && |a.loadReqs| == |y.ports|
    ensures AguInvariant(k, t, QueueStep(y, a)) && CuInvariant(k, t, QueueStep(y, a))
  {
    var o := OffersOf(y, a);
    QueueMoves(y, a);
  }

  lemma QueueMemory(k: Kernel, t: Trace, y: System, a: Availability)
    requires CoreInvariant(k, t, y) && QueueReady(y) && |a.loadReqs| == |y.ports|
    ensures var z := QueueStep(y, a);
      StoresInvariant(t, z.queue, z.consumed) && MemoryInvariant(t, z.queue, z.memory, z.flight, z.consumed)
  {
    var o := OffersOf(y, a);
    OffersInOrder(k, t, y, a);
    QueueMoves(y, a);
    RequestsKept(t, y.queue, y.consumed, o);
    FlightKept(t, y.queue, y.memory, y.flight, y.consumed, o);
    CommitsKept(t, y.queue, y.consumed, o);
    CoverageKept(y.queue.commits, y.flight, Issued(y.queue, o), o.junkVal);
  }

  /** What a cycle does to the load queue of one port and to its request pipe. */
  lemma LaneQueue(t: Trace, n: nat, n': nat, stores: seq<StoreSlot>, last: nat, commits: seq<CommitSlot>, commits': seq<CommitSlot>,
                  jobs: seq<Job>, index: nat, p: Port, q: seq<LoadSlot>, requested: nat, req: Option<LoadReq>)
    requires n <= n' && Allocation(t, stores, n', last)
    requires PortInvariant(t, n, commits, q, jobs, p.counts.sent, p.counts.accepted)
    requires SentRequests(jobs, index, p.counts.accepted, requested, p.reqs)
    requires req.Some? ==> p.reqs != [] && req.value == p.reqs[0]
    ensures var p' := PortStep(p, q, req);
      && PortInvariant(t, n', commits', PortNext(stores, last, commits', q, req), jobs, p'.counts.sent, p'.counts.accepted)
      && SentRequests(jobs, index, p'.counts.accepted, requested, p'.reqs)
  {
    HeadRequest(jobs, index, p.counts.accepted, requested, p.reqs, req);
    PortKept(t, n, n', stores, last, commits, commits', q, jobs, p.counts.sent, p.counts.accepted, req);
    RequestTaken(jobs, index, p.counts.accepted, requested, p.reqs, TakesLoad(q, req));
    StepMoves(p, q, req);
  }

  lemma StepMoves(p: Port, q: seq<LoadSlot>, req: Option<LoadReq>)
    requires |q| >= 2
    ensures var p' := PortStep(p, q, req);
      && p'.counts.sent == p.counts.sent + (if SentBy(q).Some? then 1 else 0)
      && p'.counts.accepted == p.counts.accepted + (if TakesLoad(q, req) then 1 else 0)
      && p'.reqs == Rest(p.reqs, TakesLoad(q, req))
  {
  }

  lemma HeadRequest(jobs: seq<Job>, index: nat, accepted: nat, requested: nat, reqs: seq<LoadReq>, req: Option<LoadReq>)
    requires SentRequests(jobs, index, accepted, requested, reqs) && (req.Some? ==> reqs != [] && req.value == reqs[0])
    ensures req.Some? ==> accepted < |jobs| && req.value.addr == jobs[accepted].addr && req.value.tag == jobs[accepted].tag
  {
  }

  lemma RequestTaken(jobs: seq<Job>, index: nat, accepted: nat, requested: nat, reqs: seq<LoadReq>, took: bool)
    requires SentRequests(jobs, index, accepted, requested, reqs) && (took ==> reqs != [])
    ensures SentRequests(jobs, index, accepted + (if took then 1 else 0), requested, Rest(reqs, took))
  {
  }

  /** The store issued in a cycle comes later than every load that is settled. */
  ghost predicate IssueAvoids(t: Trace, n: nat, n': nat, flight: seq<InFlight>, flight': seq<InFlight>)
  {
    forall addr, tag :: Settled(flight, addr) && Clear(t, n, addr, tag) && n' <= tag ==> Settled(flight', addr)
  }

  /** What a cycle does to the way back of one port. */
  lemma LaneReturns(t: Trace, s: State, flight: seq<InFlight>, flight': seq<InFlight>, n: nat, n': nat, jobs: seq<Job>,
                    p: Port, q: seq<LoadSlot>, req: Option<LoadReq>)
    requires Regular(t) && n <= n' && n <= |t.stores|
    requires CommitsRight(MemoryAfter(t, n), s.commits) && AllCovered(s.commits, flight)
    requires forall i :: 0 <= i < |flight| ==> flight[i].age < |s.commits|
    requires IssueAvoids(t, n, n', flight, flight')
    requires JobsRight(t, jobs) && NoneEarly(jobs, p.counts.received, n')
    requires PortInvariant(t, n, s.commits, q, jobs, p.counts.sent, p.counts.accepted)
    requires ReturnInvariant(t, n, flight, jobs, p)
    ensures ReturnInvariant(t, n', flight', jobs, SendOn(p, SentBy(q)))
    ensures SentBy(q).Some? ==> p.counts.sent < p.counts.accepted
  {
    var c := p.counts;
    forall j | j in jobs[c.muxed..c.sent] && Undisturbed(t, n, flight, j)
      ensures Undisturbed(t, n', flight', j)
    {
      var i :| 0 <= i < c.sent - c.muxed && jobs[c.muxed..c.sent][i] == j;
      assert jobs[c.muxed + i] == j;
    }
    if SentBy(q).Some? {
      if SentBy(q).value.Forwarded? {
        ForwardedIsSequential(t, s, q, jobs, n, c.sent, c.accepted);
      } else {
        FetchIsSettled(t, s, flight, q, jobs, n, c.sent, c.accepted);
      }
    }
    SendKeeps(t, n, n', flight, flight', jobs, p, SentBy(q));
  }

  /** Accepting a request does not touch the way back. */
  lemma AcceptReturns(t: Trace, n: nat, flight: seq<InFlight>, jobs: seq<Job>, p: Port, q: seq<LoadSlot>, req: Option<LoadReq>)
    requires |q| >= 2 && ReturnInvariant(t, n, flight, jobs, SendOn(p, SentBy(q)))
    requires p.counts.accepted + (if TakesLoad(q, req) then 1 else 0) <= |jobs|
    ensures ReturnInvariant(t, n, flight, jobs, PortStep(p, q, req))
    ensures PortStep(p, q, req).counts.received == p.counts.received
  {
  }

  /** How a cycle moves one port. */
  lemma PortMoves(y: System, a: Availability, p: nat)
    requires QueueReady(y) && Shaped(y.queue) && |a.loadReqs| == |y.ports| && p < |y.ports|
    ensures var o, z := OffersOf(y, a), QueueStep(y, a);
      && |z.ports| == |y.ports| == |z.queue.loads|
      && (o.loadReqs[p].Some? ==> y.ports[p].reqs != [] && o.loadReqs[p].value == y.ports[p].reqs[0])
      && z.ports[p] == PortStep(y.ports[p], y.queue.loads[p], o.loadReqs[p])
      && z.queue.loads[p] == PortNext(z.queue.stores, z.queue.lastStoreTag, z.queue.commits, y.queue.loads[p], o.loadReqs[p])
  {
  }

  /** The two sides of a port put together. */
  lemma LaneMoves(t: Trace, y: System, z: System, p: nat, req: Option<LoadReq>, jobs: seq<Job>, received: nat, requested: nat)
    requires p < |y.ports| == |z.ports| && |y.queue.loads| == |z.queue.loads| == |y.ports|
    requires Regular(t) && y.consumed <= z.consumed && y.consumed <= |t.stores|
    requires Allocation(t, z.queue.stores, z.consumed, z.queue.lastStoreTag)
    requires CommitsRight(MemoryAfter(t, y.consumed), y.queue.commits) && AllCovered(y.queue.commits, y.flight)
    requires forall i :: 0 <= i < |y.flight| ==> y.flight[i].age < |y.queue.commits|
    requires IssueAvoids(t, y.consumed, z.consumed, y.flight, z.flight)
    requires JobsRight(t, jobs) && NoneEarly(jobs, received, z.consumed)
    requires LaneInvariant(t, y.consumed, y.queue.commits, y.flight, jobs, p, y.ports[p], y.queue.loads[p], received, requested)
    requires req.Some? ==> y.ports[p].reqs != [] && req.value == y.ports[p].reqs[0]
    requires z.ports[p] == PortStep(y.ports[p], y.queue.loads[p], req)
    requires z.queue.loads[p] == PortNext(z.queue.stores, z.queue.lastStoreTag, z.queue.commits, y.queue.loads[p], req)
    ensures LaneInvariant(t, z.consumed, z.queue.commits, z.flight, jobs, p, z.ports[p], z.queue.loads[p], received, requested)
  {
    LaneQueue(t, y.consumed, z.consumed, z.queue.stores, z.queue.lastStoreTag, y.queue.commits, z.queue.commits,
      jobs, p, y.ports[p], y.queue.loads[p], requested, req);
    LaneReturns(t, y.queue, y.flight, z.flight, y.consumed, z.consumed, jobs, y.ports[p], y.queue.loads[p], req);
    AcceptReturns(t, z.consumed, z.flight, jobs, y.ports[p], y.queue.loads[p], req);
  }

  /** What the store side of a cycle hands to the load side. */
  lemma StoreSide(k: Kernel, t: Trace, y: System, a: Availability)
    requires CoreInvariant(k, t, y) && QueueReady(y) && |a.loadReqs| == |y.ports|
    ensures var z := QueueStep(y, a);
      && y.consumed <= z.consumed && Allocation(t, z.queue.stores, z.consumed, z.queue.lastStoreTag)
      && IssueAvoids(t, y.consumed, z.consumed, y.flight, z.flight)
  {
    var o := OffersOf(y, a);
    OffersInOrder(k, t, y, a);
    QueueMoves(y, a);
    RequestsKept(t, y.queue, y.consumed, o);
    IssuedIsNext(t, y.queue, y.consumed, o);
  }

  lemma QueuePort(k: Kernel, t: Trace, y: System, a: Availability, p: nat)
    requires CoreInvariant(k, t, y) && QueueReady(y) && |a.loadReqs| == |y.ports| && p < |y.ports|
    requires JobsRight(t, PortJobs(t, p))
    requires NoneEarly(PortJobs(t, p), y.ports[p].counts.received, |StoresIn(k.ops, y.cu)|)
    requires PortOk(k, t, y, p)
    requires CoreInvariant(k, t, QueueStep(y, a))
    ensures PortOk(k, t, QueueStep(y, a), p)
  {
    StoreSide(k, t, y, a);
    QueueMoves(y, a);
    PortMoves(y, a, p);
    LaneMoves(t, y, QueueStep(y, a), p, OffersOf(y, a).loadReqs[p], PortJobs(t, p),
      PortCount(t, |LoadsIn(k.ops, y.cu)|, p), PortCount(t, |LoadsIn(k.ops, y.agu)|, p));
  }

  lemma QueueCore(k: Kernel, ports: nat, y: System, a: Availability)
    requires SystemInvariant(k, ports, y) && QueueReady(y) && |a.loadReqs| == |y.ports|
    ensures CoreInvariant(k, TraceOf(k), QueueStep(y, a))
  {
    QueueMoves(y, a);
    QueueClients(k, TraceOf(k), y, a);
    QueueMemory(k, TraceOf(k), y, a);
  }

  lemma QueueKeeps(k: Kernel, ports: nat, y: System, a: Availability)
    requires SystemInvariant(k, ports, y) && QueueReady(y) && |a.loadReqs| == |y.ports|
    ensures SystemInvariant(k, ports, QueueStep(y, a))
  {
    QueueCore(k, ports, y, a);
    QueueMoves(y, a);
    forall p | 0 <= p < ports
      ensures PortOk(k, TraceOf(k), QueueStep(y, a), p)
    {
      PortFacts(k, ports, y, p);
      assert PortOk(k, TraceOf(k), y, p);
      QueuePort(k, TraceOf(k), y, a, p);
    }
  }

  lemma NextKeeps(k: Kernel, ports: nat, y: System, z: System)
    requires SystemInvariant(k, ports, y) && Next(k, y, z)
    ensures SystemInvariant(k, ports, z)
  {
    if AguReady(k, y) && z == AguStep(k, y) {
      AguKeeps(k, ports, y);
    } else if CuReady(k, y) && z == CuStep(k, y) {
      CuKeeps(k, ports, y);
    } else if y.flight != [] && z == Land(y) {
      LandKeeps(k, ports, y);
    } else if p: nat :| FetchReady(y, p) && z == FetchStep(y, p) {
      FetchStepKeeps(k, ports, y, p);
    } else if p: nat :| MuxStepReady(y, p) && z == MuxStep(y, p) {
      MuxStepKeeps(k, ports, y, p);
    } else {
      var a: Availability :| |a.loadReqs| == |y.ports| && z == QueueStep(y, a);
      QueueKeeps(k, ports, y, a);
    }
  }

  // ------------------------------------------------------------------------- all runs

  ghost predicate Run(k: Kernel, ports: nat, run: seq<System>)
  {
    && run != [] && Initial(k, ports, run[0])
    && forall i :: 0 <= i < |run| - 1 ==> Next(k, run[i], run[i + 1])
  }

  lemma {:induction false} RunKeeps(k: Kernel, ports: nat, run: seq<System>, i: nat)
    requires Run(k, ports, run) && Sound(k, ports, run[0].queue.speculation) && i < |run|
    ensures SystemInvariant(k, ports, run[i])
  {
    if i == 0 {
      InitialHolds(k, ports, run[0]);
    } else {
      RunKeeps(k, ports, run, i - 1);
      NextKeeps(k, ports, run[i - 1], run[i]);
    }
  }

  /** In every run, at every step: the values received by the compute unit are those of
      sequential execution, and once the stores in flight have landed the memory is the
      sequential memory after the store values consumed so far. */
  lemma RunsAreSequential(k: Kernel, ports: nat, run: seq<System>, i: nat)
    requires Run(k, ports, run) && Sound(k, ports, run[0].queue.speculation) && i < |run|
    ensures run[i].cu <= |k.ops| && run[i].received == Exec(k, run[i].cu).loaded
    ensures Regular(TraceOf(k)) && run[i].consumed <= |TraceOf(k).stores|
    ensures Landed(run[i].memory, run[i].flight) == MemoryAfter(TraceOf(k), run[i].consumed)
  {
    RunKeeps(k, ports, run, i);
    ExecGrows(k, run[i].cu, |k.ops|);
    ExecCounts(k, run[i].cu);
  }
}
