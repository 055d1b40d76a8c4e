module DramDeadlock {
  // Deadlocks of the off-chip queue: that a jam of the kernel leads to one.
  //
  // A kernel is run with its clients stopped at given operations until nothing moves any more.
  // What is stuck then either is done or has no room for the queue.

  import opened Lanes
  import opened Traces
  import opened StoreAllocation
  import opened Kernels
  import opened DramQueue
  import opened DramInvariant
  import opened DramSystem
  import opened DramPipes
  import opened DramWork
  import opened DramProgress

  // --------------------------------------------------------------------------- deadlocks

  /** Nobody can move, and the queue waits in the middle of a cycle. */
  ghost predicate Deadlocked(k: Kernel, d: Depths, y: Piped)
  {
    && ClientsStuck(k, d, y, |k.ops|)
    && Shaped(y.core.queue) && |y.core.queue.loads| == |y.core.ports| && !HasRoom(d, y)
  }

  /** A deadlock is for ever: only stores in flight can still land. */
  lemma DeadlockStays(k: Kernel, d: Depths, y: Piped, z: Piped)
    requires Deadlocked(k, d, y) && PipedNext(k, d, y, z)
    ensures Deadlocked(k, d, z) && (z == y || (y.core.flight != [] && z == y.(core := Land(y.core))))
  {
    if y.core.flight != [] && z == y.(core := Land(y.core)) {
      LandBlocks(k, d, y);
    } else if p: nat :| FetchCan(d, y, p) && z == y.(core := FetchStep(y.core, p)) {
      assert PortBlocked(d, y, p);
    } else if p: nat :| TakeCan(y, p) && z == Take(y, p) {
      assert PortBlocked(d, y, p);
    } else if p: nat :| EmitCan(d, y, p) && z == Emit(y, p) {
      assert PortBlocked(d, y, p);
    }
  }

  lemma LandBlocks(k: Kernel, d: Depths, y: Piped)
    requires Deadlocked(k, d, y) && y.core.flight != []
    ensures Deadlocked(k, d, y.(core := Land(y.core)))
  {
    var z := y.(core := Land(y.core));
    forall p: nat | p < |z.core.ports|
      ensures PortBlocked(d, z, p)
    {
      assert PortBlocked(d, y, p);
    }
    var q: nat :| q < |y.core.ports| && !RoomAt(d, y.core.ports[q], y.core.queue.loads[q]);
    assert !RoomAt(d, z.core.ports[q], z.core.queue.loads[q]);
  }

  /** Work is left in a deadlock, and the kernel jams. */
  lemma DeadlockIsJam(k: Kernel, d: Depths, ports: nat, y: Piped)
    requires PipeInvariant(k, d, ports, y) && Open(d) && Deadlocked(k, d, y)
    ensures !Complete(k, y) && Jams(k, d, |y.core.queue.stores|)
  {
    var q: nat :| q < ports && !RoomAt(d, y.core.ports[q], y.core.queue.loads[q]);
    StuckIsJam(k, d, ports, y, |k.ops|, q);
  }

  // ------------------------------------------------------------------- running until nothing moves

  /** Where address generator and compute unit stop, whether store values respond, and how many
      loads each port accepts. */
  datatype Mode = Mode(aguStop: nat, cuStop: nat, value: bool, quotas: seq<nat>)

  function Responding(mode: Mode, y: Piped): Availability
    requires |mode.quotas| == |y.core.ports|
  {
    Availability(mode.value, true,
      seq(|y.core.ports|, p requires 0 <= p < |y.core.ports| => y.core.ports[p].counts.accepted < mode.quotas[p]), 0, 0)
  }

  /** The queue's step in the given mode. */
  ghost predicate CycleStep(d: Depths, mode: Mode, y: Piped, z: Piped)
  {
    QueueCan(d, y) && |mode.quotas| == |y.core.ports| && z == y.(core := QueueStep(y.core, Responding(mode, y)))
  }

  /** A step that the mode allows. */
  ghost predicate ModeStep(k: Kernel, d: Depths, mode: Mode, y: Piped, z: Piped)
  {
    || (y.core.agu < mode.aguStop && AguCan(k, d, y) && z == y.(core := AguStep(k, y.core)))
    || (y.core.cu < mode.cuStop && CuCan(k, d, y) && z == y.(core := CuStep(k, y.core)))
    || (y.core.flight != [] && z == y.(core := Land(y.core)))
    || (exists p: nat :: FetchCan(d, y, p) && z == y.(core := FetchStep(y.core, p)))
    || (exists p: nat :: TakeCan(y, p) && z == Take(y, p))
    || (exists p: nat :: EmitCan(d, y, p) && z == Emit(y, p))
    || CycleStep(d, mode, y, z)
  }

  /** Nothing that the mode allows moves. */
  ghost predicate Calm(k: Kernel, d: Depths, mode: Mode, y: Piped)
    requires InBounds(k) && Shaped(y.core.queue) && |y.core.queue.loads| == |y.core.ports| == |mode.quotas|
  {
    && (y.core.agu < mode.aguStop ==> !AguCan(k, d, y)) && (y.core.cu < mode.cuStop ==> !CuCan(k, d, y))
    && (forall p: nat {:trigger PortBlocked(d, y, p)} :: p < |y.core.ports| ==> PortBlocked(d, y, p))
    && (HasRoom(d, y) ==> Stuck(k, y.core, Responding(mode, y)))
  }

  /** `z` can be reached from `y`. */
  ghost predicate Leads(k: Kernel, d: Depths, y: Piped, z: Piped)
  {
    exists run: seq<Piped> :: Path(k, d, run, y, z)
  }

  ghost predicate Path(k: Kernel, d: Depths, run: seq<Piped>, y: Piped, z: Piped)
  {
    && run != [] && run[0] == y && run[|run| - 1] == z
    && forall i: nat {:trigger StepAt(k, d, run, i)} :: i + 1 < |run| ==> StepAt(k, d, run, i)
  }

  ghost predicate StepAt(k: Kernel, d: Depths, run: seq<Piped>, i: nat)
    requires i + 1 < |run|
  {
    PipedNext(k, d, run[i], run[i + 1])
  }

  lemma LeadsItself(k: Kernel, d: Depths, y: Piped)
    ensures Leads(k, d, y, y)
  {
    assert Path(k, d, [y], y, y);
  }

  lemma LeadsFrom(k: Kernel, d: Depths, y: Piped, x: Piped, z: Piped)
    requires PipedNext(k, d, y, x) && Leads(k, d, x, z)
    ensures Leads(k, d, y, z)
  {
    var run :| Path(k, d, run, x, z);
    var more := [y] + run;
    forall i: nat | i + 1 < |more|
      ensures StepAt(k, d, more, i)
    {
      if i > 0 {
        assert StepAt(k, d, run, i - 1);
      }
    }
    assert Path(k, d, more, y, z);
  }

  lemma LeadsOn(k: Kernel, d: Depths, y: Piped, x: Piped, z: Piped)
    requires Leads(k, d, y, x) && Leads(k, d, x, z)
    ensures Leads(k, d, y, z)
  {
    var run :| Path(k, d, run, y, x);
    PathLeads(k, d, run, y, x, z);
  }

  lemma {:induction false} PathLeads(k: Kernel, d: Depths, run: seq<Piped>, y: Piped, x: Piped, z: Piped)
    requires Path(k, d, run, y, x) && Leads(k, d, x, z)
    ensures Leads(k, d, y, z)
    decreases |run|
  {
    if |run| > 1 {
      PathTail(k, d, run, y, x);
      PathLeads(k, d, run[1..], run[1], x, z);
      LeadsFrom(k, d, y, run[1], z);
    }
  }

  lemma PathTail(k: Kernel, d: Depths, run: seq<Piped>, y: Piped, x: Piped)
    requires Path(k, d, run, y, x) && |run| > 1
    ensures PipedNext(k, d, y, run[1]) && Path(k, d, run[1..], run[1], x)
  {
    var rest := run[1..];
    assert StepAt(k, d, run, 0);
    forall i: nat | i + 1 < |rest|
      ensures StepAt(k, d, rest, i)
    {
      assert StepAt(k, d, run, i + 1);
    }
  }

  lemma {:induction false} PathKeeps(k: Kernel, d: Depths, ports: nat, run: seq<Piped>, y: Piped, z: Piped)
    requires Path(k, d, run, y, z) && PipeInvariant(k, d, ports, y)
    ensures PipeInvariant(k, d, ports, z) && |z.core.queue.stores| == |y.core.queue.stores|
    decreases |run|
  {
    if |run| > 1 {
      var x, less := run[|run| - 2], run[..|run| - 1];
      forall i: nat | i + 1 < |less|
        ensures StepAt(k, d, less, i)
      {
        assert StepAt(k, d, run, i);
      }
      assert StepAt(k, d, run, |run| - 2);
      PathKeeps(k, d, ports, less, y, x);
      PipedNextKeeps(k, d, ports, x, z);
      StepAdvances(k, d, ports, x, z);
    }
  }

  /** `inv` survives every step that the mode allows. */
  ghost predicate Survives(k: Kernel, d: Depths, ports: nat, mode: Mode, inv: Piped -> bool)
  {
    forall y, z {:trigger ModeStep(k, d, mode, y, z)} ::
      PipeInvariant(k, d, ports, y) && inv(y) && ModeStep(k, d, mode, y, z) ==> inv(z)
  }

  /** All other steps leave the queue and what it has accepted as they are. */
  lemma {:induction false} ClientLeavesQueue(k: Kernel, d: Depths, mode: Mode, y: Piped, z: Piped)
    requires ModeStep(k, d, mode, y, z) && !CycleStep(d, mode, y, z)
    ensures z.core.queue == y.core.queue && z.core.consumed == y.core.consumed && |z.core.ports| == |y.core.ports|
    ensures forall p: nat :: p < |y.core.ports| ==> z.core.ports[p].counts.accepted == y.core.ports[p].counts.accepted
    ensures z.core.agu == y.core.agu || (y.core.agu < mode.aguStop && z.core.agu == y.core.agu + 1)
    ensures z.core.cu == y.core.cu || (y.core.cu < mode.cuStop && z.core.cu == y.core.cu + 1)
  {
  }

  lemma {:induction false} CycleLeavesClients(d: Depths, mode: Mode, y: Piped, z: Piped)
    requires CycleStep(d, mode, y, z)
    ensures z.core.agu == y.core.agu && z.core.cu == y.core.cu
  {
    QueueMoves(y.core, Responding(mode, y));
  }

  /** Is there a client that can move, and where does that lead? */
  lemma ClientOrNone(k: Kernel, d: Depths, ports: nat, mode: Mode, y: Piped) returns (z: Piped)
    requires PipeInvariant(k, d, ports, y)
    ensures (z != y && ModeStep(k, d, mode, y, z) && PipedNext(k, d, y, z) && PipedWork(z) > PipedWork(y))
      || (z == y && (y.core.agu < mode.aguStop ==> !AguCan(k, d, y)) && (y.core.cu < mode.cuStop ==> !CuCan(k, d, y))
          && forall p: nat {:trigger PortBlocked(d, y, p)} :: p < ports ==> PortBlocked(d, y, p))
  {
    if y.core.agu < mode.aguStop && AguCan(k, d, y) {
      z := y.(core := AguStep(k, y.core));
      AguPipedWorks(k, d, y);
    } else if y.core.cu < mode.cuStop && CuCan(k, d, y) {
      z := y.(core := CuStep(k, y.core));
      CuPipedWorks(k, d, y);
    } else if p: nat :| p < ports && !PortBlocked(d, y, p) {
      z := PortGoes(k, d, ports, y, p);
    } else {
      z := y;
    }
  }

  lemma PortGoes(k: Kernel, d: Depths, ports: nat, y: Piped, p: nat) returns (z: Piped)
    requires PipeInvariant(k, d, ports, y) && p < ports && !PortBlocked(d, y, p)
    ensures PipedNext(k, d, y, z) && PipedWork(z) > PipedWork(y) && forall mode :: ModeStep(k, d, mode, y, z)
  {
    if FetchCan(d, y, p) {
      z := y.(core := FetchStep(y.core, p));
      FetchPipedWorks(k, d, ports, y, p);
    } else if TakeCan(y, p) {
      z := Take(y, p);
      TakeWorks(y, p);
    } else {
      z := Emit(y, p);
      EmitWorks(k, d, ports, y, p);
    }
  }

  /** Some stores may have to land before the queue can go on. */
  lemma {:induction false} QueueOrNone(k: Kernel, d: Depths, ports: nat, mode: Mode, y: Piped) returns (z: Piped)
    requires PipeInvariant(k, d, ports, y) && |mode.quotas| == ports
    ensures (ModeStep(k, d, mode, y, z) && PipedNext(k, d, y, z)
        && (PipedWork(z) > PipedWork(y)
          || (PipedWork(z) == PipedWork(y) && Wait(z.core.queue) < Wait(y.core.queue))
          || (PipedWork(z) == PipedWork(y) && Wait(z.core.queue) == Wait(y.core.queue) && |z.core.flight| < |y.core.flight|)))
      || (z == y && (HasRoom(d, y) ==> Stuck(k, y.core, Responding(mode, y))))
  {
    z := y;
    if HasRoom(d, y) {
      if !QueueReady(y.core) {
        z := y.(core := Land(y.core));
        LandAdvances(y);
        SameEmitted(y, z);
      } else if !Stuck(k, y.core, Responding(mode, y)) {
        z := CycleGoes(k, d, ports, mode, y);
      }
    }
  }

  lemma {:induction false} CycleGoes(k: Kernel, d: Depths, ports: nat, mode: Mode, y: Piped) returns (z: Piped)
    requires PipeInvariant(k, d, ports, y) && |mode.quotas| == ports && QueueCan(d, y) && !Stuck(k, y.core, Responding(mode, y))
    ensures ModeStep(k, d, mode, y, z) && PipedNext(k, d, y, z)
    ensures PipedWork(z) > PipedWork(y) || (PipedWork(z) == PipedWork(y) && Wait(z.core.queue) < Wait(y.core.queue))
  {
    var a := Responding(mode, y);
    z := y.(core := QueueStep(y.core, a));
    CyclePipedWorks(k, d, ports, y, a);
    CycleTurn(k, ports, y.core, a);
  }

  /** A run in the given mode until nothing moves. */
  lemma {:induction false} RunOn(k: Kernel, d: Depths, ports: nat, mode: Mode, inv: Piped -> bool, y: Piped) returns (z: Piped)
    requires PipeInvariant(k, d, ports, y) && |mode.quotas| == ports && inv(y) && Survives(k, d, ports, mode, inv)
    ensures Leads(k, d, y, z) && PipeInvariant(k, d, ports, z) && inv(z) && Calm(k, d, mode, z)
    decreases PipedLimit(k, ports) - PipedWork(y), Wait(y.core.queue), |y.core.flight|
  {
    PipedWorkIsBounded(k, d, ports, y);
    var x := ClientOrNone(k, d, ports, mode, y);
    if x == y {
      x := QueueOrNone(k, d, ports, mode, y);
    }
    if ModeStep(k, d, mode, y, x) && Falls(y, x) {
      PipedNextKeeps(k, d, ports, y, x);
      z := RunOn(k, d, ports, mode, inv, x);
      LeadsFrom(k, d, y, x, z);
    } else {
      z := y;
      LeadsItself(k, d, y);
    }
  }

  ghost predicate Falls(y: Piped, z: Piped)
  {
    || PipedWork(z) > PipedWork(y)
    || (PipedWork(z) == PipedWork(y) && Wait(z.core.queue) < Wait(y.core.queue))
    || (PipedWork(z) == PipedWork(y) && Wait(z.core.queue) == Wait(y.core.queue) && |z.core.flight| < |y.core.flight|)
  }

  // ------------------------------------------------------------------- one kernel that jams

  /** A store, a load of the same address on port 0, and `loads` loads of other addresses on
      port 1. */
  function Spread(loads: nat): Kernel
  {
    Kernel(seq(loads + 1, _ => 0), [Store(0), Load(0, 0)] + seq(loads, i => Load(i + 1, 1)), (_, _) => StoreVal(1, true))
  }

  lemma {:induction false} SpreadRequests(loads: nat, n: nat)
    requires n <= loads + 2
    ensures |Spread(loads).ops| == loads + 2
    ensures StoresIn(Spread(loads).ops, n) == if n == 0 then [] else [StoreReq(0, 1)]
    ensures |LoadsIn(Spread(loads).ops, n)| == if n == 0 then 0 else n - 1
    ensures forall i :: 0 <= i < |LoadsIn(Spread(loads).ops, n)| ==>
      LoadsIn(Spread(loads).ops, n)[i] == LoadReq(i, 1, if i == 0 then 0 else 1)
  {
    if n > 0 {
      SpreadRequests(loads, n - 1);
      var op := Spread(loads).ops[n - 1];
      assert op == if n == 1 then Store(0) else if n == 2 then Load(0, 0) else Load(n - 2, 1);
    }
  }

  lemma {:induction false} SpreadIsSound(loads: nat, speculation: bool)
    ensures Sound(Spread(loads), 2, speculation)
  {
  }

  /** How many of the loads of the first `n` operations use each port. */
  lemma {:induction false} SpreadCounts(loads: nat, n: nat, q: nat)
    requires n <= loads + 2
    ensures n <= |Spread(loads).ops|
    ensures Before(Spread(loads), n, q) == if q == 0 then (if n < 2 then 0 else 1) else if q == 1 && n > 2 then n - 2 else 0
  {
    SpreadRequests(loads, n);
    TraceIsRegular(Spread(loads));
    if n < 2 {
      assert Jobs(TraceOf(Spread(loads)))[..0] == [];
    } else {
      SpreadCounts(loads, n - 1, q);
      SpreadStep(loads, n, q);
    }
  }

  lemma {:induction false} SpreadStep(loads: nat, n: nat, q: nat)
    requires 2 <= n <= loads + 2
    ensures n <= |Spread(loads).ops|
    ensures Before(Spread(loads), n, q) == Before(Spread(loads), n - 1, q) + if q == (if n == 2 then 0 else 1) then 1 else 0
  {
    SpreadLengths(loads, n);
    SpreadLengths(loads, n - 1);
    SpreadLoad(loads, n - 2);
    PortAdvances(TraceOf(Spread(loads)), n - 2, q);
  }

  lemma {:induction false} SpreadLengths(loads: nat, n: nat)
    requires n <= loads + 2
    ensures |Spread(loads).ops| == loads + 2 && |LoadsIn(Spread(loads).ops, n)| == if n == 0 then 0 else n - 1
  {
    SpreadRequests(loads, n);
  }

  lemma {:induction false} SpreadLoad(loads: nat, i: nat)
    requires i <= loads
    ensures var t := TraceOf(Spread(loads)); |t.loads| == |t.results| == loads + 1 && t.loads[i].port == if i == 0 then 0 else 1
  {
    SpreadIsSound(loads, true);
    SpreadRequests(loads, loads + 2);
    ExecCounts(Spread(loads), loads + 2);
    assert LoadsIn(Spread(loads).ops, loads + 2)[i] == LoadReq(i, 1, if i == 0 then 0 else 1);
  }

  /** All loads follow the store; those of port 1 go elsewhere. */
  lemma {:induction false} SpreadJobs(loads: nat, q: nat, i: nat)
    requires |TraceOf(Spread(loads)).loads| == |TraceOf(Spread(loads)).results| && i < |PortJobs(TraceOf(Spread(loads)), q)|
    ensures var j := PortJobs(TraceOf(Spread(loads)), q)[i]; j.tag == 1 && (q == 0 ==> j.addr == 0) && (q == 1 ==> j.addr >= 1)
  {
    var t := TraceOf(Spread(loads));
    SpreadRequests(loads, loads + 2);
    var h := LaneMember(Jobs(t), q, i);
  }

  /** Without as many loads on port 1 as fill it up, the kernel does not jam. */
  lemma FewLoadsNeverJam(loads: nat, d: Depths, slots: nat)
    requires loads < Filling(d) && Open(d)
    ensures !Jams(Spread(loads), d, slots)
  {
    forall x: nat, q: nat
      ensures !JamsAt(Spread(loads), d, slots, x, q, |Spread(loads).ops|)
    {
      SpreadCounts(loads, loads + 2, q);
      SpreadRequests(loads, 0);
    }
  }

  /** Everything but the compute unit runs, with all pipes responding. */
  function WithoutValue(loads: nat): Mode
  {
    Mode(loads + 2, 0, true, [loads + 3, loads + 3])
  }

  /** The compute unit has not moved. */
  ghost predicate Untouched(y: Piped)
  {
    y.core.cu == 0 && y.core.agu >= 0
  }

  lemma UntouchedSurvives(loads: nat, d: Depths)
    ensures Survives(Spread(loads), d, 2, WithoutValue(loads), y => Untouched(y))
  {
    forall y, z {:trigger ModeStep(Spread(loads), d, WithoutValue(loads), y, z)} |
      PipeInvariant(Spread(loads), d, 2, y) && Untouched(y) && ModeStep(Spread(loads), d, WithoutValue(loads), y, z)
      ensures Untouched(z)
    {
      if CycleStep(d, WithoutValue(loads), y, z) {
        CycleLeavesClients(d, WithoutValue(loads), y, z);
      } else {
        ClientLeavesQueue(Spread(loads), d, WithoutValue(loads), y, z);
      }
    }
  }

  /** What is known while the compute unit has not moved. */
  lemma {:induction false} UntouchedFacts(loads: nat, d: Depths, y: Piped, p: nat)
    requires PipeInvariant(Spread(loads), d, 2, y) && y.core.cu == 0 && p < 2
    ensures var k, c := Spread(loads), y.core.ports[p].counts;
      && y.core.consumed == 0 && y.core.storeVals == [] && c.received == 0
      && c.accepted + |y.core.ports[p].reqs| == Before(k, y.core.agu, p) && c.sent <= c.accepted
      && (p == 0 ==> c.sent == 0 && y.core.ports[p].answers == [] && SentBy(y.core.queue.loads[p]).None?)
  {
    var k, t := Spread(loads), TraceOf(Spread(loads));
    SpreadRequests(loads, 0);
    SpreadRequests(loads, loads + 2);
    SpreadCounts(loads, 0, p);
    assert PortOk(k, t, y.core, p) && PipedAt(k, d, y, p);
    if p == 0 {
      ConflictIsNotSent(loads, y.core.queue.lastStoreTag, y.core.queue.commits, y.core.queue.loads[0],
        y.core.ports[0].counts.sent, y.core.ports[0].counts.accepted);
    }
  }

  lemma {:induction false} StoreIsInTheWay(loads: nat)
    ensures !Clear(TraceOf(Spread(loads)), 0, 0, 1)
  {
    SpreadRequests(loads, loads + 2);
    assert TraceOf(Spread(loads)).stores[0].addr == 0;
  }

  /** The load on port 0 cannot be sent before the value of the store is consumed. */
  lemma {:induction false} ConflictIsNotSent(loads: nat, last: nat, commits: seq<CommitSlot>, q: seq<LoadSlot>, sent: nat, accepted: nat)
    requires |TraceOf(Spread(loads)).loads| == |TraceOf(Spread(loads)).results|
    requires var t, jobs := TraceOf(Spread(loads)), PortJobs(TraceOf(Spread(loads)), 0);
      PortInvariant(t, 0, commits, q, jobs, sent, accepted) && SafeAccepted(q, last) && SentSafely(t, 0, last, jobs, sent)
    ensures sent == 0 && SentBy(q).None?
  {
    var t, jobs := TraceOf(Spread(loads)), PortJobs(TraceOf(Spread(loads)), 0);
    StoreIsInTheWay(loads);
    if SentBy(q).Some? {
      FrontGoes(t, 0, last, commits, q, jobs, sent, accepted);
    }
    if sent > 0 || SentBy(q).Some? {
      SpreadJobs(loads, 0, 0);
      assert false;
    }
  }

  /** The request of the store has been accepted once nothing moves. */
  lemma {:induction false} StoreIsAccepted(loads: nat, d: Depths, y: Piped)
    requires PipeInvariant(Spread(loads), d, 2, y) && Open(d) && y.core.cu == 0 && StoresStuck(y.core, true)
    requires y.core.agu == 0 ==> !AguCan(Spread(loads), d, y)
    ensures y.core.agu >= 1 && y.core.queue.lastStoreTag == 1
  {
    var k := Spread(loads);
    SpreadRequests(loads, y.core.agu);
    SpreadRequests(loads, 0);
    HeadStore(TraceOf(k), y.core.queue, y.core.consumed);
  }

  /** And so have been sent all loads requested on port 1. */
  lemma {:induction false} AllAreSent(loads: nat, d: Depths, y: Piped, a: Availability)
    requires PipeInvariant(Spread(loads), d, 2, y) && Open(d) && y.core.cu == 0 && |a.loadReqs| == 2 && a.loadReqs[1]
    requires StuckAt(Spread(loads), y.core, a, 1) && y.core.queue.lastStoreTag == 1
    ensures y.core.ports[1].counts.sent == y.core.ports[1].counts.accepted == Before(Spread(loads), y.core.agu, 1)
  {
    var k, t, c := Spread(loads), TraceOf(Spread(loads)), y.core.ports[1].counts;
    UntouchedFacts(loads, d, y, 1);
    assert PortOk(k, t, y.core, 1);
    if c.sent < Before(k, y.core.agu, 1) {
      NextJobWaits(t, 0, y.core.queue.commits, y.core.flight, PortJobs(t, 1), 1, y.core.ports[1], y.core.queue.loads[1],
        PortCount(t, |LoadsIn(k.ops, 0)|, 1), PortCount(t, |LoadsIn(k.ops, y.core.agu)|, 1), 1, true);
      SpreadJobs(loads, 1, c.sent);
      SpreadRequests(loads, loads + 2);
      assert false;
    }
  }

  lemma {:induction false} SpreadHasNoRoom(loads: nat, d: Depths, y: Piped)
    requires PipeInvariant(Spread(loads), d, 2, y) && Open(d) && y.core.cu == 0 && loads >= Filling(d)
    requires Calm(Spread(loads), d, WithoutValue(loads), y)
    ensures !HasRoom(d, y)
  {
    var k := Spread(loads);
    if HasRoom(d, y) {
      var a := Responding(WithoutValue(loads), y);
      UntouchedFacts(loads, d, y, 0);
      UntouchedFacts(loads, d, y, 1);
      SpreadCounts(loads, y.core.agu, 0);
      SpreadCounts(loads, y.core.agu, 1);
      assert a.loadReqs[1];
      StoreIsAccepted(loads, d, y);
      assert StuckAt(k, y.core, a, 1);
      AllAreSent(loads, d, y, a);
      AguIsThrough(loads, d, y);
      SentFits(k, d, 2, y, 1);
      assert false;
    }
  }

  /** The address generator is not held up: port 0 is asked once, and port 1 takes what it is
      sent. */
  lemma {:induction false} AguIsThrough(loads: nat, d: Depths, y: Piped)
    requires PipeInvariant(Spread(loads), d, 2, y) && Open(d) && y.core.cu == 0
    requires 1 <= y.core.agu && (y.core.agu < loads + 2 ==> !AguCan(Spread(loads), d, y)) && y.core.ports[1].reqs == []
    ensures y.core.agu == loads + 2
  {
    UntouchedFacts(loads, d, y, 0);
    SpreadCounts(loads, y.core.agu, 0);
    if y.core.agu < loads + 2 {
      SpreadLoads(loads, y.core.agu);
    }
  }

  lemma SpreadLoads(loads: nat, n: nat)
    requires 1 <= n < loads + 2
    ensures |Spread(loads).ops| == loads + 2
    ensures Spread(loads).ops[n] == if n == 1 then Load(0, 0) else Load(n - 1, 1)
  {
  }

  /** No more loads are sent and not received than fit the pipes of a port and LoadMux. */
  lemma {:induction false} SentFits(k: Kernel, d: Depths, ports: nat, y: Piped, p: nat)
    requires PipeInvariant(k, d, ports, y) && p < ports
    ensures y.core.ports[p].counts.sent < y.core.ports[p].counts.received + Filling(d)
  {
    assert PortOk(k, TraceOf(k), y.core, p) && PipedAt(k, d, y, p);
  }

  /** The compute unit then sends the value, and waits for port 0. */
  lemma {:induction false} ValueComesLate(loads: nat, d: Depths, y: Piped) returns (z: Piped)
    requires PipeInvariant(Spread(loads), d, 2, y) && Open(d) && y.core.cu == 0
    requires Calm(Spread(loads), d, WithoutValue(loads), y) && !HasRoom(d, y)
    ensures PipedNext(Spread(loads), d, y, z) && Deadlocked(Spread(loads), d, z)
  {
    var k := Spread(loads);
    UntouchedFacts(loads, d, y, 0);
    assert k.ops[0] == Store(0) && k.ops[1] == Load(0, 0) && |k.ops| == loads + 2;
    assert y.core.agu <= |k.ops|;
    z := y.(core := CuStep(k, y.core));
    forall p: nat | p < |z.core.ports|
      ensures PortBlocked(d, z, p)
    {
      assert PortBlocked(d, y, p);
    }
    var q: nat :| q < |y.core.ports| && !RoomAt(d, y.core.ports[q], y.core.queue.loads[q]);
    assert !RoomAt(d, z.core.ports[q], z.core.queue.loads[q]);
  }

  /** With all input pipes responding in every cycle: if only the value of the store comes late
      enough, the kernel ends in a deadlock. */
  lemma {:induction false} SpreadDeadlocks(loads: nat, d: Depths, y: Piped) returns (z: Piped)
    requires PipedInitial(Spread(loads), 2, y) && Open(d) && loads >= Filling(d)
    ensures Leads(Spread(loads), d, y, z) && Deadlocked(Spread(loads), d, z)
  {
    var k := Spread(loads);
    SpreadIsSound(loads, y.core.queue.speculation);
    PipedInitialHolds(k, d, 2, y);
    UntouchedSurvives(loads, d);
    var x := RunOn(k, d, 2, WithoutValue(loads), (y: Piped) => Untouched(y), y);
    SpreadHasNoRoom(loads, d, x);
    z := ValueComesLate(loads, d, x);
    LeadsItself(k, d, z);
    LeadsFrom(k, d, x, z, z);
    LeadsOn(k, d, y, x, z);
  }

  /** The kernel can end in a deadlock if and only if port 1 has as many loads as fill it up;
      with the depths of the source, from 26 loads on. */
  lemma {:induction false} SpreadDeadlocksIffFilled(loads: nat, d: Depths, y: Piped)
    requires PipedInitial(Spread(loads), 2, y) && Open(d)
    ensures (exists z :: Leads(Spread(loads), d, y, z) && Deadlocked(Spread(loads), d, z)) <==> loads >= Filling(d)
    ensures Filling(COMPILED) == 26
  {
    if loads >= Filling(d) {
      var z := SpreadDeadlocks(loads, d, y);
    }
    if z :| Leads(Spread(loads), d, y, z) && Deadlocked(Spread(loads), d, z) {
      SpreadIsSound(loads, y.core.queue.speculation);
      PipedInitialHolds(Spread(loads), d, 2, y);
      var run :| Path(Spread(loads), d, run, y, z);
      PathKeeps(Spread(loads), d, 2, run, y, z);
      DeadlockIsJam(Spread(loads), d, 2, z);
      if loads < Filling(d) {
        FewLoadsNeverJam(loads, d, |z.core.queue.stores|);
      }
    }
  }

  // ------------------------------------------------------------- operation by operation

  /** The first `i` operations are complete, and no others have been begun. */
  ghost predicate DoneUpTo(k: Kernel, y: Piped, i: nat)
    requires i <= |k.ops|
  {
    y.core.agu == i && y.core.cu == i && y.core.consumed == |StoresIn(k.ops, i)|
  }

  function UpTo(k: Kernel, ports: nat, i: nat): Mode
  {
    Mode(i, i, true, seq(ports, _ => |k.ops| + 1))
  }

  ghost predicate BetweenOps(y: Piped, i: nat)
  {
    y.core.agu <= i + 1 && i <= y.core.cu <= i + 1
  }

  lemma BetweenSurvives(k: Kernel, d: Depths, ports: nat, i: nat)
    ensures Survives(k, d, ports, UpTo(k, ports, i + 1), y => BetweenOps(y, i))
  {
    var mode := UpTo(k, ports, i + 1);
    forall y, z {:trigger ModeStep(k, d, mode, y, z)} | PipeInvariant(k, d, ports, y) && BetweenOps(y, i) && ModeStep(k, d, mode, y, z)
      ensures BetweenOps(z, i)
    {
      StepBetween(k, d, mode, y, z, i);
    }
  }

  lemma {:induction false} StepBetween(k: Kernel, d: Depths, mode: Mode, y: Piped, z: Piped, i: nat)
    requires ModeStep(k, d, mode, y, z) && mode.aguStop == mode.cuStop == i + 1 && BetweenOps(y, i)
    ensures BetweenOps(z, i)
  {
    if CycleStep(d, mode, y, z) {
      CycleLeavesClients(d, mode, y, z);
    } else {
      ClientLeavesQueue(k, d, mode, y, z);
    }
  }

  lemma AllRespond(k: Kernel, d: Depths, ports: nat, y: Piped, i: nat)
    requires PipeInvariant(k, d, ports, y)
    ensures var a := Responding(UpTo(k, ports, i), y);
      |a.loadReqs| == ports && a.storeVal && a.storeReq && forall p :: 0 <= p < ports ==> a.loadReqs[p]
  {
    forall p: nat | p < ports
      ensures y.core.ports[p].counts.accepted <= |k.ops|
    {
      assert PortOk(k, TraceOf(k), y.core, p);
      JobsAreFew(k, p);
    }
  }

  /** One operation does not fill up a port. */
  lemma {:induction false} OneIsNoJam(k: Kernel, d: Depths, ports: nat, y: Piped, i: nat)
    requires PipeInvariant(k, d, ports, y) && Open(d) && i < |k.ops| && ClientsStuck(k, d, y, i + 1) && i <= y.core.cu
    ensures HasRoom(d, y)
  {
    forall q: nat | q < ports
      ensures RoomAt(d, y.core.ports[q], y.core.queue.loads[q])
    {
      if !RoomAt(d, y.core.ports[q], y.core.queue.loads[q]) {
        StuckIsJam(k, d, ports, y, i + 1, q);
        OneMore(k, i, y.core.cu, q);
        assert false;
      }
    }
  }

  lemma {:induction false} OneMore(k: Kernel, i: nat, x: nat, q: nat)
    requires InBounds(k) && i <= x < i + 1 <= |k.ops|
    ensures Before(k, i + 1, q) <= Before(k, x, q) + 1
  {
    TraceIsRegular(k);
    RequestsGrow(k.ops, i + 1, |k.ops|);
    if k.ops[i].Load? {
      PortAdvances(TraceOf(k), |LoadsIn(k.ops, i)|, q);
    }
  }

  lemma {:induction false} OneOperation(k: Kernel, d: Depths, ports: nat, y: Piped, i: nat) returns (z: Piped)
    requires PipeInvariant(k, d, ports, y) && Open(d) && i < |k.ops| && DoneUpTo(k, y, i)
    ensures Leads(k, d, y, z) && PipeInvariant(k, d, ports, z) && DoneUpTo(k, z, i + 1)
  {
    BetweenSurvives(k, d, ports, i);
    z := RunOn(k, d, ports, UpTo(k, ports, i + 1), (y: Piped) => BetweenOps(y, i), y);
    assert BetweenOps(z, i) && ClientsStuck(k, d, z, i + 1);
    OneIsNoJam(k, d, ports, z, i);
    AllRespond(k, d, ports, z, i + 1);
    StuckIsDone(k, d, ports, z, Responding(UpTo(k, ports, i + 1), z), i + 1);
  }

  /** Every prefix of the operations can be run by itself, with pipes of any depths. */
  lemma {:induction false} PrefixRuns(k: Kernel, d: Depths, ports: nat, y: Piped, i: nat) returns (z: Piped)
    requires Sound(k, ports, y.core.queue.speculation) && PipedInitial(k, ports, y) && Open(d) && i <= |k.ops|
    ensures Leads(k, d, y, z) && PipeInvariant(k, d, ports, z) && DoneUpTo(k, z, i)
  {
    if i == 0 {
      PipedInitialHolds(k, d, ports, y);
      LeadsItself(k, d, y);
      z := y;
    } else {
      var x := PrefixRuns(k, d, ports, y, i - 1);
      z := OneOperation(k, d, ports, x, i - 1);
      LeadsOn(k, d, y, x, z);
    }
  }

  // --------------------------------------------------------------- all requests are sent

  /** Deep request pipes: the address generator never waits. */
  predicate DeepRequests(k: Kernel, d: Depths)
  {
    |k.ops| <= d.loadReqs && |k.ops| <= d.storeReqs
  }

  lemma {:induction false} AguGoes(k: Kernel, d: Depths, ports: nat, y: Piped)
    requires PipeInvariant(k, d, ports, y) && DeepRequests(k, d) && y.core.agu < |k.ops|
    ensures AguCan(k, d, y)
  {
    if k.ops[y.core.agu].Load? {
      var p := k.ops[y.core.agu].port;
      assert PortOk(k, TraceOf(k), y.core, p);
      assert |Lane(Jobs(TraceOf(k))[..|LoadsIn(k.ops, y.core.agu)|], p)| <= y.core.agu;
    }
  }

  /** Before the requests are sent, and after: nothing else has moved. */
  ghost predicate OnlyRequested(y: Piped, z: Piped)
  {
    && z.core.queue == y.core.queue && z.core.consumed == y.core.consumed && z.core.cu == y.core.cu
    && |z.core.ports| == |y.core.ports|
    && forall p :: 0 <= p < |y.core.ports| ==> z.core.ports[p].counts == y.core.ports[p].counts
  }

  lemma {:induction false} AllRequests(k: Kernel, d: Depths, ports: nat, y: Piped) returns (z: Piped)
    requires PipeInvariant(k, d, ports, y) && DeepRequests(k, d)
    ensures Leads(k, d, y, z) && PipeInvariant(k, d, ports, z) && z.core.agu == |k.ops| && OnlyRequested(y, z)
    decreases |k.ops| - y.core.agu
  {
    if y.core.agu == |k.ops| {
      LeadsItself(k, d, y);
      z := y;
    } else {
      AguGoes(k, d, ports, y);
      var x := y.(core := AguStep(k, y.core));
      AguPiped(k, d, ports, y);
      z := AllRequests(k, d, ports, x);
      LeadsFrom(k, d, y, x, z);
    }
  }

  // ------------------------------------------------------------------ no value is consumed

  /** All slots behind a valid one are valid. */
  ghost predicate NoHoles(stores: seq<StoreSlot>)
  {
    forall i, j :: 0 <= i < j < |stores| && stores[i].valid ==> stores[j].valid
  }

  /** Values do not respond, the compute unit stops at operation `x`, and ports but `q` accept no
      loads that come later. */
  ghost function Late(k: Kernel, ports: nat, x: nat, q: nat): Mode
    requires InBounds(k) && x <= |k.ops|
  {
    Mode(|k.ops|, x, false, seq(ports, p requires 0 <= p < ports => if p == q then |k.ops| + 1 else Before(k, x, p)))
  }

  ghost predicate Starved(k: Kernel, y: Piped, x: nat, q: nat, n: nat, slots: nat)
    requires InBounds(k) && x <= |k.ops|
  {
    && y.core.agu == |k.ops| && y.core.cu <= x && y.core.consumed == n && |y.core.queue.stores| == slots
    && (y.core.queue.lastStoreTag < |TraceOf(k).stores| ==> NoHoles(y.core.queue.stores))
    && forall p: nat :: p < |y.core.ports| && p != q ==> y.core.ports[p].counts.accepted <= Before(k, x, p)
  }

  lemma {:induction false} FilledWithoutHoles(s: State, o: Offers)
    requires |s.stores| >= 2 && NoHoles(s.stores) && o.storeReq.Some? && o.storeVal.None?
    ensures NoHoles(StoresNext(s, o))
  {
    var r := StoresNext(s, o);
    if Shifts(s, o) {
      forall i, j | 0 <= i < j < |r| && r[i].valid
        ensures r[j].valid
      {
        assert j < |r| - 1 ==> s.stores[i + 1].valid && s.stores[j + 1].valid;
      }
    }
  }

  /** A cycle of the queue keeps it. */
  lemma {:induction false} CycleStarves(k: Kernel, d: Depths, ports: nat, y: Piped, x: nat, q: nat, n: nat, slots: nat)
    requires PipeInvariant(k, d, ports, y) && x <= |k.ops| && Starved(k, y, x, q, n, slots) && QueueCan(d, y)
    ensures Starved(k, y.(core := QueueStep(y.core, Responding(Late(k, ports, x, q), y))), x, q, n, slots)
  {
    var a := Responding(Late(k, ports, x, q), y);
    var o, z := OffersOf(y.core, a), QueueStep(y.core, a);
    QueueMoves(y.core, a);
    if z.queue.lastStoreTag < |TraceOf(k).stores| {
      assert y.core.storeReqs != [];
      FilledWithoutHoles(y.core.queue, o);
    }
    forall p: nat | p < ports && p != q
      ensures z.ports[p].counts.accepted <= Before(k, x, p)
    {
      PortMoves(y.core, a, p);
      StepMoves(y.core.ports[p], y.core.queue.loads[p], o.loadReqs[p]);
    }
  }

  lemma {:induction false} StepStarves(k: Kernel, d: Depths, ports: nat, y: Piped, z: Piped, x: nat, q: nat, n: nat, slots: nat)
    requires PipeInvariant(k, d, ports, y) && x <= |k.ops| && Starved(k, y, x, q, n, slots)
    requires ModeStep(k, d, Late(k, ports, x, q), y, z)
    ensures Starved(k, z, x, q, n, slots)
  {
    var mode := Late(k, ports, x, q);
    if CycleStep(d, mode, y, z) {
      CycleStarves(k, d, ports, y, x, q, n, slots);
    } else {
      ClientLeavesQueue(k, d, mode, y, z);
    }
  }

  lemma {:induction false} StarvedSurvives(k: Kernel, d: Depths, ports: nat, x: nat, q: nat, n: nat, slots: nat)
    requires InBounds(k) && x <= |k.ops|
    ensures Survives(k, d, ports, Late(k, ports, x, q), y => Starved(k, y, x, q, n, slots))
  {
    var mode := Late(k, ports, x, q);
    forall y, z {:trigger ModeStep(k, d, mode, y, z)} |
      PipeInvariant(k, d, ports, y) && Starved(k, y, x, q, n, slots) && ModeStep(k, d, mode, y, z)
      ensures Starved(k, z, x, q, n, slots)
    {
      StepStarves(k, d, ports, y, z, x, q, n, slots);
    }
  }

  // ---------------------------------------------------------------- a jam leads to a deadlock

  lemma {:induction false} AllValid(stores: seq<StoreSlot>)
    requires forall i :: 0 <= i < |stores| ==> stores[i].valid
    ensures |Requests(stores)| == |stores|
  {
    if stores != [] {
      AllValid(stores[1..]);
    }
  }

  /** With no value consumed, as many stores are accepted as the allocation queue holds. */
  lemma {:induction false} AcceptedReaches(k: Kernel, ports: nat, y: System, tag: nat)
    requires SystemInvariant(k, ports, y) && StoresStuck(y, false) && y.agu == |k.ops|
    requires y.queue.lastStoreTag < |TraceOf(k).stores| ==> NoHoles(y.queue.stores)
    requires tag <= y.consumed + |y.queue.stores| && tag <= |TraceOf(k).stores|
    ensures tag <= y.queue.lastStoreTag
  {
    if y.queue.lastStoreTag < |TraceOf(k).stores| {
      assert y.storeReqs != [];
      assert y.queue.stores[0].valid;
      AllValid(y.queue.stores);
    }
  }

  /** A load that can go is not what a stuck port waits for. */
  lemma {:induction false} StuckCannotGo(k: Kernel, ports: nat, y: System, a: Availability, p: nat)
    requires SystemInvariant(k, ports, y) && StoresStuck(y, false) && y.agu == |k.ops|
    requires y.queue.lastStoreTag < |TraceOf(k).stores| ==> NoHoles(y.queue.stores)
    requires |a.loadReqs| == ports && p < ports && StuckAt(k, y, a, p)
    requires a.loadReqs[p] || y.ports[p].counts.sent < y.ports[p].counts.accepted
    requires y.ports[p].counts.sent < |PortJobs(TraceOf(k), p)|
    ensures !Goes(TraceOf(k), y.consumed, |y.queue.stores|, PortJobs(TraceOf(k), p)[y.ports[p].counts.sent])
  {
    var t, c := TraceOf(k), y.ports[p].counts;
    var j := PortJobs(t, p)[c.sent];
    assert PortOk(k, t, y, p);
    assert Jobs(t)[..|t.loads|] == Jobs(t);
    NextJobWaits(t, y.consumed, y.queue.commits, y.flight, PortJobs(t, p), p, y.ports[p], y.queue.loads[p],
      PortCount(t, |LoadsIn(k.ops, y.cu)|, p), PortCount(t, |LoadsIn(k.ops, y.agu)|, p), y.queue.lastStoreTag, a.loadReqs[p]);
    PortFacts(k, ports, y, p);
    if j.tag <= y.consumed + |y.queue.stores| {
      AcceptedReaches(k, ports, y, j.tag);
    }
  }

  /** The stores before operation `x` are accepted while the loads of the jam can go. */
  lemma {:induction false} JamTags(k: Kernel, d: Depths, slots: nat, x: nat, q: nat)
    requires InBounds(k) && Open(d) && JamsAt(k, d, slots, x, q, |k.ops|)
    ensures |StoresIn(k.ops, x)| <= |StoresIn(k.ops, x)| - Unconsumed(k, d, x) + slots
  {
    var t, r := TraceOf(k), Before(k, x, q);
    PortNoneEarly(k, x, q);
    assert Goes(t, |StoresIn(k.ops, x)| - Unconsumed(k, d, x), slots, PortJobs(t, q)[r]);
  }

  /** The load at operation `i` before the jam can go. */
  lemma {:induction false} EarlierGoes(k: Kernel, d: Depths, slots: nat, x: nat, q: nat, i: nat)
    requires InBounds(k) && Open(d) && JamsAt(k, d, slots, x, q, |k.ops|) && i < x && k.ops[i].Load?
    ensures Before(k, i, k.ops[i].port) < Before(k, x, k.ops[i].port)
    ensures Goes(TraceOf(k), |StoresIn(k.ops, x)| - Unconsumed(k, d, x), slots,
      PortJobs(TraceOf(k), k.ops[i].port)[Before(k, i, k.ops[i].port)])
  {
    var t, h, p := TraceOf(k), |LoadsIn(k.ops, i)|, k.ops[i].port;
    JamTags(k, d, slots, x, q);
    AwaitedIsNext(k, i, x);
    LoadAt(k, i);
    PortAdvances(t, h, p);
    RequestsGrow(k.ops, i + 1, x);
    RequestsGrow(k.ops, i, x);
    RequestsGrow(k.ops, x, |k.ops|);
    assert LoadsIn(k.ops, x)[h] == t.loads[h];
  }

  /** While the compute unit has not come to operation `x`, it has room for a value. */
  lemma {:induction false} RoomForValues(k: Kernel, d: Depths, ports: nat, y: Piped, x: nat)
    requires PipeInvariant(k, d, ports, y) && Open(d) && y.core.cu < x < |k.ops| && k.ops[y.core.cu].Store?
    requires y.core.consumed + Unconsumed(k, d, x) == |StoresIn(k.ops, x)|
    ensures CuCan(k, d, y)
  {
    OpAt(k, y.core.cu);
    RequestsGrow(k.ops, y.core.cu + 1, x);
  }

  /** With values not responding, nothing moves before the queue is without room. */
  lemma {:induction false} JamHasNoRoom(k: Kernel, d: Depths, ports: nat, y: Piped, x: nat, q: nat, slots: nat)
    requires PipeInvariant(k, d, ports, y) && Open(d) && q < ports && JamsAt(k, d, slots, x, q, |k.ops|)
    requires Starved(k, y, x, q, |StoresIn(k.ops, x)| - Unconsumed(k, d, x), slots) && Calm(k, d, Late(k, ports, x, q), y)
    ensures !HasRoom(d, y)
  {
    var a := Responding(Late(k, ports, x, q), y);
    if HasRoom(d, y) {
      if y.core.cu < x {
        if k.ops[y.core.cu].Store? {
          RoomForValues(k, d, ports, y, x);
        } else {
          EarlierIsSent(k, d, ports, y, a, x, q, slots);
        }
      } else {
        LaterIsSent(k, d, ports, y, a, x, q, slots);
      }
      assert false;
    }
  }

  lemma {:induction false} EarlierIsSent(k: Kernel, d: Depths, ports: nat, y: Piped, a: Availability, x: nat, q: nat, slots: nat)
    requires PipeInvariant(k, d, ports, y) && Open(d) && JamsAt(k, d, slots, x, q, |k.ops|)
    requires Starved(k, y, x, q, |StoresIn(k.ops, x)| - Unconsumed(k, d, x), slots) && y.core.cu < x && k.ops[y.core.cu].Load?
    requires a == Responding(Late(k, ports, x, q), y) && Stuck(k, y.core, a)
    requires forall p: nat {:trigger PortBlocked(d, y, p)} :: p < ports ==> PortBlocked(d, y, p)
    ensures CuCan(k, d, y)
  {
    var i, p := y.core.cu, k.ops[y.core.cu].port;
    var c := y.core.ports[p].counts;
    EarlierGoes(k, d, slots, x, q, i);
    assert PortBlocked(d, y, p) && StuckAt(k, y.core, a, p);
    DrainedHasNone(k, d, ports, y, p);
    assert PortOk(k, TraceOf(k), y.core, p);
    if c.sent == Before(k, i, p) {
      StuckCannotGo(k, ports, y.core, a, p);
      assert false;
    }
  }

  lemma {:induction false} LaterIsSent(k: Kernel, d: Depths, ports: nat, y: Piped, a: Availability, x: nat, q: nat, slots: nat)
    requires PipeInvariant(k, d, ports, y) && Open(d) && JamsAt(k, d, slots, x, q, |k.ops|) && q < ports
    requires Starved(k, y, x, q, |StoresIn(k.ops, x)| - Unconsumed(k, d, x), slots) && y.core.cu == x
    requires a == Responding(Late(k, ports, x, q), y)
    ensures !Stuck(k, y.core, a)
  {
    var c := y.core.ports[q].counts;
    assert PortOk(k, TraceOf(k), y.core, q);
    SentFits(k, d, ports, y, q);
    JobsAreFew(k, q);
    assert a.loadReqs[q];
    assert Goes(TraceOf(k), y.core.consumed, slots, PortJobs(TraceOf(k), q)[c.sent]);
    if Stuck(k, y.core, a) {
      assert StuckAt(k, y.core, a, q);
      StuckCannotGo(k, ports, y.core, a, q);
      assert false;
    }
  }

  /** The compute unit waits at operation `x`, or before. */
  lemma {:induction false} CuWaits(k: Kernel, d: Depths, ports: nat, y: Piped, x: nat, q: nat, slots: nat)
    requires PipeInvariant(k, d, ports, y) && Open(d) && JamsAt(k, d, slots, x, q, |k.ops|)
    requires Starved(k, y, x, q, |StoresIn(k.ops, x)| - Unconsumed(k, d, x), slots) && y.core.cu == x
    ensures !CuCan(k, d, y)
  {
    if k.ops[x].Load? {
      var p := k.ops[x].port;
      assert PortOk(k, TraceOf(k), y.core, p) && PipedAt(k, d, y, p);
    }
  }

  /** Where to begin: all values that must be consumed before operation `x` are. */
  lemma {:induction false} WhereToBegin(k: Kernel, x: nat, n: nat) returns (w: nat)
    requires x <= |k.ops| && n <= |StoresIn(k.ops, x)|
    ensures w <= x && |StoresIn(k.ops, w)| == n
  {
    w := x;
    while |StoresIn(k.ops, w)| != n
      invariant w <= x && n <= |StoresIn(k.ops, w)|
      decreases w
    {
      w := w - 1;
    }
  }

  /** With the operations up to `w` complete, and all requests sent, nothing is accepted yet of
      what follows. */
  lemma {:induction false} BeginsStarved(k: Kernel, d: Depths, ports: nat, y: Piped, z: Piped, w: nat, x: nat, q: nat)
    requires PipeInvariant(k, d, ports, y) && w <= x <= |k.ops| && DoneUpTo(k, y, w)
    requires PipeInvariant(k, d, ports, z) && OnlyRequested(y, z) && z.core.agu == |k.ops|
    ensures Starved(k, z, x, q, |StoresIn(k.ops, w)|, |y.core.queue.stores|)
  {
    var t := TraceOf(k);
    forall p: nat | p < ports && p != q
      ensures z.core.ports[p].counts.accepted <= Before(k, x, p)
    {
      assert PortOk(k, t, y.core, p);
      BeforeGrows(k, w, x, p);
    }
    assert Requests(y.core.queue.stores) == [];
    forall i | 0 <= i < |y.core.queue.stores|
      ensures !y.core.queue.stores[i].valid
    {
      if y.core.queue.stores[i].valid {
        SlotIsRequested(y.core.queue.stores, i);
        assert false;
      }
    }
  }

  lemma {:induction false} JamDeadlocks(k: Kernel, d: Depths, ports: nat, y: Piped, x: nat, q: nat) returns (z: Piped)
    requires Sound(k, ports, y.core.queue.speculation) && PipedInitial(k, ports, y) && Open(d) && DeepRequests(k, d)
    requires JamsAt(k, d, |y.core.queue.stores|, x, q, |k.ops|) && q < ports
    ensures Leads(k, d, y, z) && Deadlocked(k, d, z)
  {
    var slots, n := |y.core.queue.stores|, |StoresIn(k.ops, x)| - Unconsumed(k, d, x);
    var w := WhereToBegin(k, x, n);
    var y1 := PrefixRuns(k, d, ports, y, w);
    SlotsAlong(k, d, ports, y, y1);
    var y2 := AllRequests(k, d, ports, y1);
    BeginsStarved(k, d, ports, y1, y2, w, x, q);
    StarvedSurvives(k, d, ports, x, q, n, slots);
    z := RunOn(k, d, ports, Late(k, ports, x, q), (y: Piped) => Starved(k, y, x, q, n, slots), y2);
    assert Starved(k, z, x, q, n, slots);
    JamHasNoRoom(k, d, ports, z, x, q, slots);
    if z.core.cu == x {
      CuWaits(k, d, ports, z, x, q, slots);
    }
    LeadsOn(k, d, y, y1, y2);
    LeadsOn(k, d, y, y2, z);
  }

  lemma {:induction false} SlotsAlong(k: Kernel, d: Depths, ports: nat, y: Piped, z: Piped)
    requires Leads(k, d, y, z) && Sound(k, ports, y.core.queue.speculation) && PipedInitial(k, ports, y)
    ensures PipeInvariant(k, d, ports, z) && |z.core.queue.stores| == |y.core.queue.stores|
  {
    PipedInitialHolds(k, d, ports, y);
    var run :| Path(k, d, run, y, z);
    PathKeeps(k, d, ports, run, y, z);
  }

  lemma {:induction false} NoJobsBeyond(k: Kernel, ports: nat, speculation: bool, q: nat)
    requires Sound(k, ports, speculation) && q >= ports
    ensures Before(k, |k.ops|, q) == 0
  {
    var t := TraceOf(k);
    TraceIsRegular(k);
    assert Jobs(t)[..|t.loads|] == Jobs(t);
    if |PortJobs(t, q)| > 0 {
      var h := LaneMember(Jobs(t), q, 0);
      LoadsKeepPorts(k, |k.ops|, h);
      assert false;
    }
  }

  /** With request pipes that hold all requests, and any other depths: a kernel jams if and only
      if some run ends in a deadlock. */
  lemma {:induction false} JamsIffDeadlock(k: Kernel, d: Depths, ports: nat, y: Piped)
    requires Sound(k, ports, y.core.queue.speculation) && PipedInitial(k, ports, y) && Open(d) && DeepRequests(k, d)
    ensures Jams(k, d, |y.core.queue.stores|) <==> exists z :: Leads(k, d, y, z) && Deadlocked(k, d, z)
  {
    if z :| Leads(k, d, y, z) && Deadlocked(k, d, z) {
      SlotsAlong(k, d, ports, y, z);
      DeadlockIsJam(k, d, ports, z);
    }
    if x: nat, q: nat :| JamsAt(k, d, |y.core.queue.stores|, x, q, |k.ops|) {
      if q >= ports {
        NoJobsBeyond(k, ports, y.core.queue.speculation, q);
      }
      var z := JamDeadlocks(k, d, ports, y, x, q);
    }
  }
}
