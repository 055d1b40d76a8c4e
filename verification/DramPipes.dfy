module DramPipes {
  // The off-chip system with the pipes of its source: every pipe has a depth, and whoever writes
  // to a full pipe waits.  The queue writes a load's selector, and its value or address, in the
  // middle of a cycle, so a cycle can pass only if all these writes have room; LoadMux takes a
  // value and holds it until the value pipe of its port has room.
  //
  // Every step is one of the system with unbounded pipes or leaves that system as it is, so what
  // is sequential there is sequential here.

  import opened Wrappers
  import opened Traces
  import opened StoreAllocation
  import opened Kernels
  import opened DramQueue
  import opened DramInvariant
  import opened DramPorts
  import opened DramSystem

  /** Depths of the pipes behind the queue (selectors, forwarded values, addresses and fetched
      values of a port), and of those between queue and clients. */
  datatype Depths = Depths(port: nat, answers: nat, loadReqs: nat, storeReqs: nat, storeVals: nat)

  const COMPILED := Depths(8, 16, 16, 16, 16)

  /** `held[p]` says that LoadMux of port `p` has taken the last of the answers, but not yet
      written it. */
  datatype Piped = Piped(core: System, held: seq<bool>)

  predicate Open(d: Depths)
  {
    d.port >= 1 && d.answers >= 1 && d.loadReqs >= 1 && d.storeReqs >= 1 && d.storeVals >= 1
  }

  /** How many answers are in the value pipe of a port. */
  function Waiting(p: Port, held: bool): int
  {
    |p.answers| - if held then 1 else 0
  }

  predicate Holds(y: Piped, p: nat)
  {
    p < |y.held| == |y.core.ports| && y.held[p]
  }

  // ------------------------------------------------------------------------- the actions

  predicate AguCan(k: Kernel, d: Depths, y: Piped)
  {
    && AguReady(k, y.core)
    && match k.ops[y.core.agu]
       case Load(_, port) => |y.core.ports[port].reqs| < d.loadReqs
       case Store(_) => |y.core.storeReqs| < d.storeReqs
  }

  predicate CuCan(k: Kernel, d: Depths, y: Piped)
  {
    && CuReady(k, y.core)
    && match k.ops[y.core.cu]
       case Load(_, port) => Waiting(y.core.ports[port], Holds(y, port)) > 0
       case Store(_) => |y.core.storeVals| < d.storeVals
  }

  predicate FetchCan(d: Depths, y: Piped, p: nat)
  {
    FetchReady(y.core, p) && |y.core.ports[p].fetched| < d.port
  }

  predicate TakeCan(y: Piped, p: nat)
  {
    MuxStepReady(y.core, p) && |y.held| == |y.core.ports| && !y.held[p]
  }

  function Take(y: Piped, p: nat): Piped
    requires TakeCan(y, p)
  {
    Piped(MuxStep(y.core, p), y.held[p := true])
  }

  predicate EmitCan(d: Depths, y: Piped, p: nat)
  {
    Holds(y, p) && Waiting(y.core.ports[p], true) < d.answers
  }

  function Emit(y: Piped, p: nat): Piped
    requires p < |y.held|
  {
    y.(held := y.held[p := false])
  }

  /** The writes of a cycle for a port. */
  predicate RoomAt(d: Depths, p: Port, q: seq<LoadSlot>)
    requires |q| >= 2
  {
    match SentBy(q)
    case None => true
    case Some(Forwarded(_)) => |p.select| < d.port && |p.bypassed| < d.port
    case Some(FromMemory(_)) => |p.select| < d.port && |p.addrs| < d.port
  }

  ghost predicate HasRoom(d: Depths, y: Piped)
    requires Shaped(y.core.queue) && |y.core.queue.loads| == |y.core.ports|
  {
    forall p: nat {:trigger RoomAt(d, y.core.ports[p], y.core.queue.loads[p])} :: p < |y.core.ports| ==>
      RoomAt(d, y.core.ports[p], y.core.queue.loads[p])
  }

  ghost predicate QueueCan(d: Depths, y: Piped)
  {
    QueueReady(y.core) && Shaped(y.core.queue) && HasRoom(d, y)
  }

  ghost predicate PipedNext(k: Kernel, d: Depths, y: Piped, z: Piped)
  {
    || (AguCan(k, d, y) && z == y.(core := AguStep(k, y.core)))
    || (CuCan(k, d, y) && z == y.(core := CuStep(k, y.core)))
    || (y.core.flight != [] && z == y.(core := Land(y.core)))
    || (exists p: nat :: FetchCan(d, y, p) && z == y.(core := FetchStep(y.core, p)))
    || (exists p: nat :: TakeCan(y, p) && z == Take(y, p))
    || (exists p: nat :: EmitCan(d, y, p) && z == Emit(y, p))
    || (QueueCan(d, y) && exists a: Availability :: |a.loadReqs| == |y.core.ports| && z == y.(core := QueueStep(y.core, a)))
    || z == y
  }

  ghost predicate PipedInitial(k: Kernel, ports: nat, y: Piped)
  {
    Initial(k, ports, y.core) && |y.held| == ports && forall p :: 0 <= p < ports ==> !y.held[p]
  }

  // ---------------------------------------------------------------------- the invariant

  /** What has been sent was safe: all stores before it have been accepted, and none of those
      still to be consumed goes to its address. */
  ghost predicate SentSafely(t: Trace, n: nat, last: nat, jobs: seq<Job>, sent: nat)
  {
    forall i :: 0 <= i < sent && i < |jobs| ==> jobs[i].tag <= last && Clear(t, n, jobs[i].addr, jobs[i].tag)
  }

  ghost predicate SafeAccepted(q: seq<LoadSlot>, last: nat)
  {
    forall i :: 0 <= i < |q| && q[i].searching && q[i].safe ==> q[i].tag <= last
  }

  ghost predicate PortPiped(d: Depths, t: Trace, n: nat, last: nat, jobs: seq<Job>, p: Port, q: seq<LoadSlot>, held: bool)
  {
    && |p.select| <= d.port && 0 <= Waiting(p, held) <= d.answers
    && SentSafely(t, n, last, jobs, p.counts.sent) && SafeAccepted(q, last)
  }

  ghost predicate PipedAt(k: Kernel, d: Depths, y: Piped, p: nat)
    requires InBounds(k) && p < |y.core.ports| == |y.held| && |y.core.queue.loads| == |y.core.ports|
    requires |TraceOf(k).loads| == |TraceOf(k).results|
  {
    PortPiped(d, TraceOf(k), y.core.consumed, y.core.queue.lastStoreTag, PortJobs(TraceOf(k), p),
      y.core.ports[p], y.core.queue.loads[p], y.held[p])
  }

  ghost predicate PipeInvariant(k: Kernel, d: Depths, ports: nat, y: Piped)
  {
    && SystemInvariant(k, ports, y.core) && |y.held| == ports
    && forall p: nat {:trigger PipedAt(k, d, y, p)} :: p < ports ==> PipedAt(k, d, y, p)
  }

  lemma PipedInitialHolds(k: Kernel, d: Depths, ports: nat, y: Piped)
    requires Sound(k, ports, y.core.queue.speculation) && PipedInitial(k, ports, y)
    ensures PipeInvariant(k, d, ports, y)
  {
    InitialHolds(k, ports, y.core);
    forall p: nat | p < ports
      ensures PipedAt(k, d, y, p)
    {
    }
  }

  // --------------------------------------------------------------- what each action keeps

  lemma AguPiped(k: Kernel, d: Depths, ports: nat, y: Piped)
    requires PipeInvariant(k, d, ports, y) && AguCan(k, d, y)
    ensures PipeInvariant(k, d, ports, y.(core := AguStep(k, y.core)))
  {
    AguKeeps(k, ports, y.core);
    var z := y.(core := AguStep(k, y.core));
    forall p: nat | p < ports
      ensures PipedAt(k, d, z, p)
    {
      assert PipedAt(k, d, y, p);
    }
  }

  lemma CuPiped(k: Kernel, d: Depths, ports: nat, y: Piped)
    requires PipeInvariant(k, d, ports, y) && CuCan(k, d, y)
    ensures PipeInvariant(k, d, ports, y.(core := CuStep(k, y.core)))
  {
    CuKeeps(k, ports, y.core);
    var z := y.(core := CuStep(k, y.core));
    forall p: nat | p < ports
      ensures PipedAt(k, d, z, p)
    {
      assert PipedAt(k, d, y, p);
    }
  }

  lemma LandPiped(k: Kernel, d: Depths, ports: nat, y: Piped)
    requires PipeInvariant(k, d, ports, y) && y.core.flight != []
    ensures PipeInvariant(k, d, ports, y.(core := Land(y.core)))
  {
    LandKeeps(k, ports, y.core);
    var z := y.(core := Land(y.core));
    forall p: nat | p < ports
      ensures PipedAt(k, d, z, p)
    {
      assert PipedAt(k, d, y, p);
    }
  }

  lemma FetchPiped(k: Kernel, d: Depths, ports: nat, y: Piped, p: nat)
    requires PipeInvariant(k, d, ports, y) && FetchCan(d, y, p)
    ensures PipeInvariant(k, d, ports, y.(core := FetchStep(y.core, p)))
  {
    FetchStepKeeps(k, ports, y.core, p);
    var z := y.(core := FetchStep(y.core, p));
    forall h: nat | h < ports
      ensures PipedAt(k, d, z, h)
    {
      assert PipedAt(k, d, y, h);
    }
  }

  lemma TakePiped(k: Kernel, d: Depths, ports: nat, y: Piped, p: nat)
    requires PipeInvariant(k, d, ports, y) && TakeCan(y, p)
    ensures PipeInvariant(k, d, ports, Take(y, p))
  {
    MuxStepKeeps(k, ports, y.core, p);
    forall h: nat | h < ports
      ensures PipedAt(k, d, Take(y, p), h)
    {
      assert PipedAt(k, d, y, h);
    }
  }

  lemma EmitPiped(k: Kernel, d: Depths, ports: nat, y: Piped, p: nat)
    requires PipeInvariant(k, d, ports, y) && EmitCan(d, y, p)
    ensures PipeInvariant(k, d, ports, Emit(y, p))
  {
    forall h: nat | h < ports
      ensures PipedAt(k, d, Emit(y, p), h)
    {
      assert PipedAt(k, d, y, h);
    }
  }

  /** The load queue marks no load safe before all stores in front of it are accepted. */
  lemma {:induction false} SafeAcceptedKept(stores: seq<StoreSlot>, last: nat, last': nat, commits: seq<CommitSlot>, q: seq<LoadSlot>,
      req: Option<LoadReq>)
    requires |q| >= 2 && SafeAccepted(q, last) && last <= last'
    ensures SafeAccepted(PortNext(stores, last', commits, q, req), last')
  {
    assert SafeAccepted(AfterAccept(AfterSend(q), req), last');
    assert SafeAccepted(AfterCheck(stores, last', commits, AfterAccept(AfterSend(q), req)), last');
  }

  lemma {:induction false} SentSafelyKept(t: Trace, n: nat, n': nat, last: nat, last': nat, commits: seq<CommitSlot>,
      jobs: seq<Job>, q: seq<LoadSlot>, sent: nat, accepted: nat)
    requires n <= n' && last <= last' && SentSafely(t, n, last, jobs, sent) && SafeAccepted(q, last)
    requires PortInvariant(t, n, commits, q, jobs, sent, accepted)
    ensures SentSafely(t, n', last', jobs, sent + if SentBy(q).Some? then 1 else 0)
  {
    if SentBy(q).Some? {
      HeadJob(q, jobs, sent, accepted);
      assert SlotReady(t, n, commits, q[0]);
    }
  }

  lemma {:induction false} PortPipedKept(d: Depths, t: Trace, n: nat, n': nat, stores: seq<StoreSlot>, last: nat, last': nat,
      commits: seq<CommitSlot>, commits': seq<CommitSlot>, jobs: seq<Job>, p: Port, q: seq<LoadSlot>, held: bool, req: Option<LoadReq>)
    requires n <= n' && last <= last' && PortPiped(d, t, n, last, jobs, p, q, held)
    requires PortInvariant(t, n, commits, q, jobs, p.counts.sent, p.counts.accepted) && RoomAt(d, p, q)
    ensures PortPiped(d, t, n', last', jobs, PortStep(p, q, req), PortNext(stores, last', commits', q, req), held)
  {
    SafeAcceptedKept(stores, last, last', commits', q, req);
    SentSafelyKept(t, n, n', last, last', commits, jobs, q, p.counts.sent, p.counts.accepted);
    StepMoves(p, q, req);
  }

  lemma QueuePiped(k: Kernel, d: Depths, ports: nat, y: Piped, a: Availability)
    requires PipeInvariant(k, d, ports, y) && QueueCan(d, y) && |a.loadReqs| == |y.core.ports|
    ensures PipeInvariant(k, d, ports, y.(core := QueueStep(y.core, a)))
  {
    QueueKeeps(k, ports, y.core, a);
    QueueMoves(y.core, a);
    var z := y.(core := QueueStep(y.core, a));
    forall p: nat | p < ports
      ensures PipedAt(k, d, z, p)
    {
      assert PipedAt(k, d, y, p) && PortOk(k, TraceOf(k), y.core, p);
      PortMoves(y.core, a, p);
      PortPipedKept(d, TraceOf(k), y.core.consumed, z.core.consumed, z.core.queue.stores,
        y.core.queue.lastStoreTag, z.core.queue.lastStoreTag, y.core.queue.commits, z.core.queue.commits,
        PortJobs(TraceOf(k), p), y.core.ports[p], y.core.queue.loads[p], y.held[p], OffersOf(y.core, a).loadReqs[p]);
    }
  }

  lemma PipedNextKeeps(k: Kernel, d: Depths, ports: nat, y: Piped, z: Piped)
    requires PipeInvariant(k, d, ports, y) && PipedNext(k, d, y, z)
    ensures PipeInvariant(k, d, ports, z) && (z.core == y.core || Next(k, y.core, z.core))
  {
    if AguCan(k, d, y) && z == y.(core := AguStep(k, y.core)) {
      AguPiped(k, d, ports, y);
    } else if CuCan(k, d, y) && z == y.(core := CuStep(k, y.core)) {
      CuPiped(k, d, ports, y);
    } else if y.core.flight != [] && z == y.(core := Land(y.core)) {
      LandPiped(k, d, ports, y);
    } else if p: nat :| FetchCan(d, y, p) && z == y.(core := FetchStep(y.core, p)) {
      FetchPiped(k, d, ports, y, p);
    } else if p: nat :| TakeCan(y, p) && z == Take(y, p) {
      TakePiped(k, d, ports, y, p);
    } else if p: nat :| EmitCan(d, y, p) && z == Emit(y, p) {
      EmitPiped(k, d, ports, y, p);
    } else if z != y {
      var a: Availability :| |a.loadReqs| == |y.core.ports| && z == y.(core := QueueStep(y.core, a));
      QueuePiped(k, d, ports, y, a);
    }
  }

  // ----------------------------------------------------------------- what fits the pipes

  /** Forwarded values, addresses and fetched values are never more than the selectors: only the
      selector pipe can be full. */
  lemma {:induction false} OnlySelectorsFill(t: Trace, n: nat, flight: seq<InFlight>, jobs: seq<Job>, p: Port)
    requires ReturnInvariant(t, n, flight, jobs, p)
    ensures |p.bypassed| + |p.addrs| + |p.fetched| == |p.select|
  {
    RoutedCounts(jobs[p.counts.muxed..p.counts.sent], p.select);
  }

  lemma {:induction false} RoutedCounts(jobs: seq<Job>, select: seq<bool>)
    requires |jobs| == |select|
    ensures |Routed(jobs, select, true)| + |Routed(jobs, select, false)| == |jobs|
  {
    if jobs != [] {
      RoutedCounts(jobs[1..], select[1..]);
    }
  }

  // ------------------------------------------------------------------------- all runs

  ghost predicate PipedRun(k: Kernel, d: Depths, ports: nat, run: seq<Piped>)
  {
    && run != [] && PipedInitial(k, ports, run[0])
    && forall i :: 0 <= i < |run| - 1 ==> PipedNext(k, d, run[i], run[i + 1])
  }

  lemma {:induction false} PipedRunKeeps(k: Kernel, d: Depths, ports: nat, run: seq<Piped>, i: nat)
    requires PipedRun(k, d, ports, run) && Sound(k, ports, run[0].core.queue.speculation) && i < |run|
    ensures PipeInvariant(k, d, ports, run[i])
  {
    if i == 0 {
      PipedInitialHolds(k, d, ports, run[0]);
    } else {
      PipedRunKeeps(k, d, ports, run, i - 1);
      assert PipedNext(k, d, run[i - 1], run[i - 1 + 1]);
      PipedNextKeeps(k, d, ports, run[i - 1], run[i]);
    }
  }

  /** The values received so far are those of sequential execution, and memory and stores in
      flight are the sequential memory, with any depths of the pipes. */
  lemma PipedRunsAreSequential(k: Kernel, d: Depths, ports: nat, run: seq<Piped>, i: nat)
    requires PipedRun(k, d, ports, run) && Sound(k, ports, run[0].core.queue.speculation) && i < |run|
    ensures run[i].core.cu <= |k.ops| && run[i].core.received == Exec(k, run[i].core.cu).loaded
    ensures Regular(TraceOf(k)) && run[i].core.consumed <= |TraceOf(k).stores|
    ensures Landed(run[i].core.memory, run[i].core.flight) == MemoryAfter(TraceOf(k), run[i].core.consumed)
  {
    PipedRunKeeps(k, d, ports, run, i);
    ExecGrows(k, run[i].core.cu, |k.ops|);
    ExecCounts(k, run[i].core.cu);
  }
}
