module DramProgress {
  // When the off-chip queue gets stuck, and what fair runs end with if it does not.
  //
  // The queue waits in a cycle for room behind a load port, LoadMux for room in the value pipe of
  // the port, and the compute unit, which takes values in program order, for a load of another
  // port or for room for a store value: a circle, once enough loads of the one port can be sent.
  // `Jams` says for a kernel when there are that many.  Without a jam every fair run completes.
  //
  // The clients are the address generator, the compute unit and, for every load port, LoadPort
  // and LoadMux (taking and writing); the server is the queue, with cycles in which every input
  // pipe responds.  Landing stores are never somebody's turn.

  import opened FairRuns
  import opened Lanes
  import opened Sums
  import opened Traces
  import opened Kernels
  import opened DramQueue
  import opened DramInvariant
  import opened DramPorts
  import opened DramSystem
  import opened DramPipes
  import opened DramWork

  // ------------------------------------------------------------------------------- jams

  /** How many loads of one port fill it up: the value pipe, the value LoadMux holds, the selector
      pipe, and the load the queue cannot send. */
  function Filling(d: Depths): nat
  {
    d.answers + 1 + d.port + 1
  }

  /** With values of the first `n` stores consumed, the load can go: at most `slots` stores after
      them come before it, and none of these goes to its address. */
  ghost predicate Goes(t: Trace, n: nat, slots: nat, j: Job)
  {
    j.tag <= n + slots && Clear(t, n, j.addr, j.tag)
  }

  /** How many values are not consumed while the compute unit waits at operation `x`: none that
      must be, at a load, and a pipe full of them, at a store. */
  function Unconsumed(k: Kernel, d: Depths, x: nat): nat
    requires x < |k.ops|
  {
    if k.ops[x].Store? then d.storeVals else 0
  }

  ghost function Before(k: Kernel, x: nat, q: nat): (n: nat)
    requires InBounds(k) && x <= |k.ops|
    ensures |TraceOf(k).loads| == |TraceOf(k).results| && n <= |PortJobs(TraceOf(k), q)|
  {
    TraceIsRegular(k);
    RequestsGrow(k.ops, x, |k.ops|);
    PortSplit(TraceOf(k), |LoadsIn(k.ops, x)|, q);
    PortCount(TraceOf(k), |LoadsIn(k.ops, x)|, q)
  }

  /** While the compute unit waits at operation `x`, enough loads of port `q` can go to fill it
      up, among those of the first `m` operations. */
  ghost predicate JamsAt(k: Kernel, d: Depths, slots: nat, x: nat, q: nat, m: nat)
    requires InBounds(k) && m <= |k.ops|
  {
    && x < m && Unconsumed(k, d, x) <= |StoresIn(k.ops, x)| && (k.ops[x].Load? ==> k.ops[x].port != q)
    && Before(k, x, q) + Filling(d) <= Before(k, m, q)
    && var t, n := TraceOf(k), |StoresIn(k.ops, x)| - Unconsumed(k, d, x);
      && (forall i :: Before(k, x, q) <= i < Before(k, x, q) + Filling(d) ==> Goes(t, n, slots, PortJobs(t, q)[i]))
      && (forall i :: 0 <= i < |LoadsIn(k.ops, x)| ==> Clear(t, n, LoadsIn(k.ops, x)[i].addr, LoadsIn(k.ops, x)[i].tag))
  }

  ghost predicate Jams(k: Kernel, d: Depths, slots: nat)
    requires InBounds(k)
  {
    exists x: nat, q: nat :: JamsAt(k, d, slots, x, q, |k.ops|)
  }

  // ------------------------------------------------------------------------ blocked ports

  predicate PortBlocked(d: Depths, y: Piped, p: nat)
  {
    !FetchCan(d, y, p) && !TakeCan(y, p) && !EmitCan(d, y, p)
  }

  lemma {:induction false} FrontIsThere(t: Trace, n: nat, flight: seq<InFlight>, jobs: seq<Job>, p: Port)
    requires ReturnInvariant(t, n, flight, jobs, p) && !MuxReady(p) && (p.addrs == [] || p.fetched != [])
    ensures p.counts.muxed == p.counts.sent
  {
  }

  /** A blocked port has put back in order all it was sent, or holds a value for a full pipe. */
  lemma BlockedIsFullOrDrained(k: Kernel, d: Depths, ports: nat, y: Piped, p: nat)
    requires PipeInvariant(k, d, ports, y) && Open(d) && p < ports && PortBlocked(d, y, p)
    ensures if y.held[p] then Waiting(y.core.ports[p], true) == d.answers
            else y.core.ports[p].counts.muxed == y.core.ports[p].counts.sent
  {
    var t := TraceOf(k);
    assert PortOk(k, t, y.core, p) && PipedAt(k, d, y, p);
    if !y.held[p] {
      if y.core.ports[p].addrs != [] {
        PortFacts(k, ports, y.core, p);
        FetchKeeps(t, y.core.consumed, y.core.memory, y.core.flight, PortJobs(t, p), y.core.ports[p]);
      }
      FrontIsThere(t, y.core.consumed, y.core.flight, PortJobs(t, p), y.core.ports[p]);
    }
  }

  /** A blocked port without room for the queue is filled up. */
  lemma NoRoomIsFull(k: Kernel, d: Depths, ports: nat, y: Piped, q: nat)
    requires PipeInvariant(k, d, ports, y) && Open(d) && q < ports && PortBlocked(d, y, q)
    requires |y.core.queue.loads[q]| >= 2 && !RoomAt(d, y.core.ports[q], y.core.queue.loads[q])
    ensures var c := y.core.ports[q].counts; c.sent + 1 == c.received + Filling(d) && c.sent < c.accepted
    ensures y.held[q] && Waiting(y.core.ports[q], true) == d.answers && SentBy(y.core.queue.loads[q]).Some?
  {
    var t := TraceOf(k);
    assert PortOk(k, t, y.core, q) && PipedAt(k, d, y, q);
    OnlySelectorsFill(t, y.core.consumed, y.core.flight, PortJobs(t, q), y.core.ports[q]);
    BlockedIsFullOrDrained(k, d, ports, y, q);
    HeadJob(y.core.queue.loads[q], PortJobs(t, q), y.core.ports[q].counts.sent, y.core.ports[q].counts.accepted);
  }

  // ----------------------------------------------------- no room, and all clients blocked

  lemma {:induction false} FrontGoes(t: Trace, n: nat, last: nat, commits: seq<CommitSlot>, q: seq<LoadSlot>, jobs: seq<Job>, sent: nat, accepted: nat)
    requires PortInvariant(t, n, commits, q, jobs, sent, accepted) && SafeAccepted(q, last) && SentSafely(t, n, last, jobs, sent)
    requires SentBy(q).Some?
    ensures sent < |jobs| && SentSafely(t, n, last, jobs, sent + 1)
  {
    HeadJob(q, jobs, sent, accepted);
    assert SlotReady(t, n, commits, q[0]);
  }

  /** What was sent with `n` values consumed can go with more of them consumed. */
  lemma {:induction false} SentGoes(t: Trace, n: nat, n': nat, last: nat, slots: nat, jobs: seq<Job>, sent: nat, i: nat)
    requires SentSafely(t, n, last, jobs, sent) && n <= n' && last <= n + slots && i < sent && i < |jobs|
    ensures Goes(t, n', slots, jobs[i])
  {
  }

  lemma {:induction false} CountsAlong(t: Trace, i: nat, m: nat, p: nat)
    requires |t.loads| == |t.results| && i < m <= |t.loads| && t.loads[i].port == p
    ensures PortCount(t, i, p) < PortCount(t, m, p) <= |PortJobs(t, p)|
    ensures PortJobs(t, p)[PortCount(t, i, p)] == Job(t.loads[i].addr, t.loads[i].tag, t.results[i])
    decreases m
  {
    PortAdvances(t, i, p);
    PortAdvances(t, m - 1, p);
    if i < m - 1 {
      CountsAlong(t, i, m - 1, p);
    }
  }

  lemma {:induction false} CountsGrow(t: Trace, i: nat, m: nat, p: nat)
    requires |t.loads| == |t.results| && i <= m <= |t.loads|
    ensures PortCount(t, i, p) <= PortCount(t, m, p) <= |PortJobs(t, p)|
    decreases m
  {
    if i < m {
      CountsGrow(t, i, m - 1, p);
      PortAdvances(t, m - 1, p);
    } else {
      PortSplit(t, m, p);
    }
  }

  /** Loads that the compute unit has received were sent with no more values consumed. */
  lemma ReceivedAreClear(k: Kernel, d: Depths, ports: nat, y: Piped, i: nat)
    requires PipeInvariant(k, d, ports, y) && i < |LoadsIn(k.ops, y.core.cu)|
    ensures Clear(TraceOf(k), y.core.consumed, LoadsIn(k.ops, y.core.cu)[i].addr, LoadsIn(k.ops, y.core.cu)[i].tag)
  {
    var t := TraceOf(k);
    RequestsGrow(k.ops, y.core.cu, |k.ops|);
    LoadsKeepPorts(k, y.core.cu, i);
    var p := t.loads[i].port;
    assert p < ports && PortOk(k, t, y.core, p) && PipedAt(k, d, y, p);
    CountsAlong(t, i, |LoadsIn(k.ops, y.core.cu)|, p);
  }

  lemma {:induction false} LoadsKeepPorts(k: Kernel, n: nat, i: nat)
    requires n <= |k.ops| && i < |LoadsIn(k.ops, n)|
    ensures exists h :: 0 <= h < n && k.ops[h].Load? && k.ops[h].port == LoadsIn(k.ops, n)[i].port
  {
    if i < |LoadsIn(k.ops, n - 1)| {
      LoadsKeepPorts(k, n - 1, i);
    }
  }

  /** The stores that have been accepted but not consumed are in the allocation queue. */
  lemma AcceptedFit(k: Kernel, ports: nat, y: System)
    requires SystemInvariant(k, ports, y)
    ensures y.queue.lastStoreTag <= y.consumed + |y.queue.stores|
  {
  }

  ghost predicate ClientsStuck(k: Kernel, d: Depths, y: Piped, m: nat)
  {
    && y.core.agu <= m && y.core.cu <= m
    && (y.core.agu < m ==> !AguCan(k, d, y)) && (y.core.cu < m ==> !CuCan(k, d, y))
    && forall p: nat {:trigger PortBlocked(d, y, p)} :: p < |y.core.ports| ==> PortBlocked(d, y, p)
  }

  /** The loads that fill up a port have all been requested. */
  lemma FullIsRequested(k: Kernel, d: Depths, ports: nat, y: Piped, q: nat)
    requires PipeInvariant(k, d, ports, y) && Open(d) && q < ports && PortBlocked(d, y, q)
    requires |y.core.queue.loads[q]| >= 2 && !RoomAt(d, y.core.ports[q], y.core.queue.loads[q])
    ensures y.core.ports[q].counts.received == Before(k, y.core.cu, q)
    ensures Before(k, y.core.cu, q) + Filling(d) <= Before(k, y.core.agu, q)
    ensures Waiting(y.core.ports[q], Holds(y, q)) > 0
  {
    assert PortOk(k, TraceOf(k), y.core, q);
    NoRoomIsFull(k, d, ports, y, q);
  }

  lemma {:induction false} BeforeGrows(k: Kernel, m: nat, n: nat, q: nat)
    requires InBounds(k) && m <= n <= |k.ops|
    ensures Before(k, m, q) <= Before(k, n, q)
  {
    TraceIsRegular(k);
    RequestsGrow(k.ops, m, n);
    RequestsGrow(k.ops, n, |k.ops|);
    CountsGrow(TraceOf(k), |LoadsIn(k.ops, m)|, |LoadsIn(k.ops, n)|, q);
  }

  /** The compute unit waits, and not for the full port. */
  lemma CuWaitsElsewhere(k: Kernel, d: Depths, ports: nat, y: Piped, m: nat, q: nat)
    requires PipeInvariant(k, d, ports, y) && Open(d) && m <= |k.ops| && ClientsStuck(k, d, y, m)
    requires q < ports && |y.core.queue.loads[q]| >= 2 && !RoomAt(d, y.core.ports[q], y.core.queue.loads[q])
    ensures var x := y.core.cu; x < m && (k.ops[x].Load? ==> k.ops[x].port != q)
    ensures y.core.consumed + Unconsumed(k, d, y.core.cu) <= |StoresIn(k.ops, y.core.cu)|
    ensures y.core.ports[q].counts.received == Before(k, y.core.cu, q)
    ensures y.core.ports[q].counts.received + Filling(d) <= Before(k, m, q)
  {
    assert PortBlocked(d, y, q);
    FullIsRequested(k, d, ports, y, q);
    BeforeGrows(k, y.core.agu, m, q);
    if y.core.cu == m {
      assert false;
    }
  }

  /** Without room for the queue and with all clients blocked, the kernel jams. */
  lemma StuckIsJam(k: Kernel, d: Depths, ports: nat, y: Piped, m: nat, q: nat)
    requires PipeInvariant(k, d, ports, y) && Open(d) && m <= |k.ops| && ClientsStuck(k, d, y, m)
    requires q < ports && |y.core.queue.loads[q]| >= 2 && !RoomAt(d, y.core.ports[q], y.core.queue.loads[q])
    ensures JamsAt(k, d, |y.core.queue.stores|, y.core.cu, q, m)
  {
    var t, x, n' := TraceOf(k), y.core.cu, |StoresIn(k.ops, y.core.cu)|;
    CuWaitsElsewhere(k, d, ports, y, m, q);
    var n := n' - Unconsumed(k, d, x);
    JammedGoes(k, d, ports, y, q, n);
    forall i | 0 <= i < |LoadsIn(k.ops, x)|
      ensures Clear(t, n, LoadsIn(k.ops, x)[i].addr, LoadsIn(k.ops, x)[i].tag)
    {
      ReceivedAreClear(k, d, ports, y, i);
    }
  }

  lemma JammedGoes(k: Kernel, d: Depths, ports: nat, y: Piped, q: nat, n: nat)
    requires PipeInvariant(k, d, ports, y) && Open(d) && q < ports && PortBlocked(d, y, q) && y.core.consumed <= n
    requires |y.core.queue.loads[q]| >= 2 && !RoomAt(d, y.core.ports[q], y.core.queue.loads[q])
    ensures var jobs, c := PortJobs(TraceOf(k), q), y.core.ports[q].counts;
      && c.received + Filling(d) <= |jobs|
      && forall i :: c.received <= i < c.received + Filling(d) ==> Goes(TraceOf(k), n, |y.core.queue.stores|, jobs[i])
  {
    var t, c := TraceOf(k), y.core.ports[q].counts;
    var jobs, last := PortJobs(t, q), y.core.queue.lastStoreTag;
    assert PortOk(k, t, y.core, q) && PipedAt(k, d, y, q);
    NoRoomIsFull(k, d, ports, y, q);
    AcceptedFit(k, ports, y.core);
    FrontGoes(t, y.core.consumed, last, y.core.queue.commits, y.core.queue.loads[q], jobs, c.sent, c.accepted);
    forall i | c.received <= i < c.received + Filling(d)
      ensures Goes(t, n, |y.core.queue.stores|, jobs[i])
    {
      SentGoes(t, y.core.consumed, n, last, |y.core.queue.stores|, jobs, c.sent + 1, i);
    }
  }

  // ------------------------------------------------ room, all clients blocked, and no cycle moves

  /** With a value left to consume, nothing is left of the requests. */
  lemma ValueLeft(k: Kernel, ports: nat, y: System)
    requires SystemInvariant(k, ports, y) && StoresStuck(y, true) && y.consumed < |StoresIn(k.ops, y.cu)|
    ensures y.consumed == y.queue.lastStoreTag == |StoresIn(k.ops, y.agu)|
  {
    var t := TraceOf(k);
    assert y.storeVals == t.values[y.consumed..|StoresIn(k.ops, y.cu)|];
    assert !y.queue.stores[0].valid;
  }

  /** With a request left to accept, nothing is left of the values. */
  lemma RequestLeft(k: Kernel, ports: nat, y: System)
    requires SystemInvariant(k, ports, y) && StoresStuck(y, true) && y.queue.lastStoreTag < |StoresIn(k.ops, y.agu)|
    ensures y.consumed == |StoresIn(k.ops, y.cu)| && y.consumed < y.queue.lastStoreTag
  {
    var t := TraceOf(k);
    HeadStore(t, y.queue, y.consumed);
  }

  lemma NotClear(t: Trace, n: nat, addr: int, tag: nat)
    requires !Clear(t, n, addr, tag)
    ensures n < tag
  {
  }

  /** No load that has been requested, and none that follows as many stores as the compute unit
      is behind, is held up. */
  lemma NothingWaits(k: Kernel, ports: nat, y: System, addr: int, tag: nat)
    requires SystemInvariant(k, ports, y) && StoresStuck(y, true)
    requires tag <= |StoresIn(k.ops, y.agu)| && tag <= |StoresIn(k.ops, y.cu)|
    ensures tag <= y.queue.lastStoreTag && Clear(TraceOf(k), y.consumed, addr, tag)
  {
    if tag > y.queue.lastStoreTag {
      RequestLeft(k, ports, y);
      assert false;
    }
    if !Clear(TraceOf(k), y.consumed, addr, tag) {
      NotClear(TraceOf(k), y.consumed, addr, tag);
      ValueLeft(k, ports, y);
      assert false;
    }
  }

  /** Loads requested by the first `m` operations follow no more stores than these have. */
  lemma {:induction false} TagsAlong(k: Kernel, m: nat, p: nat, i: nat)
    requires InBounds(k) && m <= |k.ops| && i < Before(k, m, p)
    ensures PortJobs(TraceOf(k), p)[i].tag <= |StoresIn(k.ops, m)|
  {
    var t := TraceOf(k);
    RequestsGrow(k.ops, m, |k.ops|);
    var h := |LoadsIn(k.ops, m)|;
    var g := LaneMember(Jobs(t)[..h], p, i);
    LoadTags(k.ops, m);
    LaneConcat(Jobs(t)[..h], Jobs(t)[h..], p);
    assert Jobs(t)[..h] + Jobs(t)[h..] == Jobs(t);
  }

  lemma {:induction false} LoadTags(ops: seq<Op>, m: nat)
    requires m <= |ops|
    ensures forall i :: 0 <= i < |LoadsIn(ops, m)| ==> LoadsIn(ops, m)[i].tag <= |StoresIn(ops, m)|
  {
    if m > 0 {
      LoadTags(ops, m - 1);
    }
  }

  /** A stuck port has sent everything that has been requested and follows no store that the
      compute unit has still to come to. */
  lemma NextIsAhead(k: Kernel, ports: nat, y: System, a: Availability, p: nat)
    requires SystemInvariant(k, ports, y) && StoresStuck(y, true) && |a.loadReqs| == ports
    requires p < ports && StuckAt(k, y, a, p) && a.loadReqs[p]
    ensures PortOk(k, TraceOf(k), y, p)
    ensures var c, jobs := y.ports[p].counts, PortJobs(TraceOf(k), p);
      c.sent < Before(k, y.agu, p) ==> jobs[c.sent].tag > |StoresIn(k.ops, y.cu)|
  {
    var t, c := TraceOf(k), y.ports[p].counts;
    assert PortOk(k, t, y, p);
    if c.sent < Before(k, y.agu, p) {
      var j := PortJobs(t, p)[c.sent];
      NextJobWaits(t, y.consumed, y.queue.commits, y.flight, PortJobs(t, p), p, y.ports[p], y.queue.loads[p],
        PortCount(t, |LoadsIn(k.ops, y.cu)|, p), PortCount(t, |LoadsIn(k.ops, y.agu)|, p), y.queue.lastStoreTag, true);
      TagsAlong(k, y.agu, p, c.sent);
      if j.tag <= |StoresIn(k.ops, y.cu)| {
        NothingWaits(k, ports, y, j.addr, j.tag);
        assert false;
      }
    }
  }

  /** The address generator is not blocked while it is not ahead of the compute unit. */
  lemma AguMoves(k: Kernel, d: Depths, ports: nat, y: Piped, a: Availability)
    requires PipeInvariant(k, d, ports, y) && Open(d) && |a.loadReqs| == ports && Stuck(k, y.core, a)
    requires a.storeVal && (forall p :: 0 <= p < ports ==> a.loadReqs[p]) && y.core.agu <= y.core.cu && y.core.agu < |k.ops|
    ensures AguCan(k, d, y)
  {
    RequestsGrow(k.ops, y.core.agu, y.core.cu);
    match k.ops[y.core.agu] {
      case Load(_, p) =>
        assert StuckAt(k, y.core, a, p);
        NextIsAhead(k, ports, y.core, a, p);
        if y.core.ports[p].counts.sent < Before(k, y.core.agu, p) {
          TagsAlong(k, y.core.agu, p, y.core.ports[p].counts.sent);
        }
      case Store(_) =>
        if y.core.storeReqs != [] {
          RequestLeft(k, ports, y.core);
        }
    }
  }

  /** The compute unit is not blocked while it is behind the address generator. */
  lemma CuMoves(k: Kernel, d: Depths, ports: nat, y: Piped, a: Availability)
    requires PipeInvariant(k, d, ports, y) && Open(d) && |a.loadReqs| == ports && Stuck(k, y.core, a)
    requires a.storeVal && (forall p :: 0 <= p < ports ==> a.loadReqs[p]) && y.core.cu < y.core.agu
    requires forall p: nat {:trigger PortBlocked(d, y, p)} :: p < ports ==> PortBlocked(d, y, p)
    ensures CuCan(k, d, y)
  {
    RequestsGrow(k.ops, y.core.cu + 1, y.core.agu);
    OpAt(k, y.core.cu);
    match k.ops[y.core.cu] {
      case Load(_, p) => CuLoadMoves(k, d, ports, y, a, p);
      case Store(_) =>
        if y.core.storeVals != [] {
          ValueLeft(k, ports, y.core);
          assert false;
        }
    }
  }

  /** The load that the compute unit waits for is the next of its port, and follows the stores
      that the compute unit has come past. */
  lemma {:induction false} AwaitedIsNext(k: Kernel, cu: nat, agu: nat)
    requires InBounds(k) && cu < agu <= |k.ops| && k.ops[cu].Load?
    ensures Before(k, cu, k.ops[cu].port) < Before(k, agu, k.ops[cu].port)
    ensures PortJobs(TraceOf(k), k.ops[cu].port)[Before(k, cu, k.ops[cu].port)].tag == |StoresIn(k.ops, cu)|
  {
    var p := k.ops[cu].port;
    LoadAt(k, cu);
    PortAdvances(TraceOf(k), |LoadsIn(k.ops, cu)|, p);
    BeforeGrows(k, cu + 1, agu, p);
  }

  lemma {:induction false} CuLoadMoves(k: Kernel, d: Depths, ports: nat, y: Piped, a: Availability, p: nat)
    requires PipeInvariant(k, d, ports, y) && Open(d) && |a.loadReqs| == ports && StoresStuck(y.core, true)
    requires p < ports && StuckAt(k, y.core, a, p) && a.loadReqs[p]
    requires y.core.cu < y.core.agu && k.ops[y.core.cu].Load? && k.ops[y.core.cu].port == p && PortBlocked(d, y, p)
    ensures CuCan(k, d, y)
  {
    NextIsAhead(k, ports, y.core, a, p);
    AwaitedIsNext(k, y.core.cu, y.core.agu);
    DrainedHasNone(k, d, ports, y, p);
  }

  /** A blocked port with an empty value pipe has been received from all that was sent. */
  lemma DrainedHasNone(k: Kernel, d: Depths, ports: nat, y: Piped, p: nat)
    requires PipeInvariant(k, d, ports, y) && Open(d) && p < ports && PortBlocked(d, y, p)
    ensures Waiting(y.core.ports[p], Holds(y, p)) >= 0 && y.core.ports[p].counts.received == Before(k, y.core.cu, p)
    ensures Waiting(y.core.ports[p], Holds(y, p)) == 0 ==> y.core.ports[p].answers == [] && y.core.ports[p].counts.sent == y.core.ports[p].counts.received
  {
    assert PortOk(k, TraceOf(k), y.core, p) && PipedAt(k, d, y, p);
    BlockedIsFullOrDrained(k, d, ports, y, p);
  }

  /** With room for the queue, and neither a client nor a cycle moving, all is done. */
  lemma StuckIsDone(k: Kernel, d: Depths, ports: nat, y: Piped, a: Availability, m: nat)
    requires PipeInvariant(k, d, ports, y) && Open(d) && m <= |k.ops| && ClientsStuck(k, d, y, m)
    requires |a.loadReqs| == ports && a.storeVal && (forall p :: 0 <= p < ports ==> a.loadReqs[p]) && Stuck(k, y.core, a)
    ensures y.core.agu == y.core.cu == m && y.core.consumed == |StoresIn(k.ops, m)|
  {
    if y.core.cu < y.core.agu {
      CuMoves(k, d, ports, y, a);
    } else if y.core.agu < m {
      AguMoves(k, d, ports, y, a);
    }
    if y.core.consumed < |StoresIn(k.ops, m)| {
      ValueLeft(k, ports, y.core);
      assert false;
    }
  }

  // ---------------------------------------------------------------------------- work

  ghost predicate Complete(k: Kernel, y: Piped)
    requires InBounds(k)
  {
    y.core.agu == |k.ops| && y.core.cu == |k.ops| && y.core.consumed == |TraceOf(k).stores|
  }

  /** How many answers LoadMux has written to the value pipe of each port. */
  function Emitted(y: Piped): (r: seq<nat>)
    ensures |r| == |y.core.ports|
  {
    seq(|y.core.ports|, p requires 0 <= p < |y.core.ports| =>
      if Holds(y, p) && y.core.ports[p].counts.muxed > 0 then y.core.ports[p].counts.muxed - 1 else y.core.ports[p].counts.muxed)
  }

  function PipedWork(y: Piped): nat
  {
    Work(y.core) + Total(Emitted(y))
  }

  /** A step without work changes nothing that a client or the goal looks at. */
  ghost predicate PipedQuiet(y: Piped, z: Piped)
  {
    z.held == y.held && Quiet(y.core, z.core)
  }

  lemma {:induction false} SameEmitted(y: Piped, z: Piped)
    requires |y.core.ports| == |z.core.ports| && z.held == y.held
    requires forall p: nat :: p < |y.core.ports| ==> z.core.ports[p].counts.muxed == y.core.ports[p].counts.muxed
    ensures Emitted(z) == Emitted(y)
  {
  }

  lemma {:induction false} AguPipedWorks(k: Kernel, d: Depths, y: Piped)
    requires AguCan(k, d, y)
    ensures PipedWork(y.(core := AguStep(k, y.core))) > PipedWork(y)
  {
    AguWorks(k, y.core);
    SameEmitted(y, y.(core := AguStep(k, y.core)));
  }

  lemma {:induction false} CuPipedWorks(k: Kernel, d: Depths, y: Piped)
    requires CuCan(k, d, y)
    ensures PipedWork(y.(core := CuStep(k, y.core))) > PipedWork(y)
  {
    CuWorks(k, y.core);
    SameEmitted(y, y.(core := CuStep(k, y.core)));
  }

  lemma {:induction false} FetchPipedWorks(k: Kernel, d: Depths, ports: nat, y: Piped, p: nat)
    requires PipeInvariant(k, d, ports, y) && FetchCan(d, y, p)
    ensures PipedWork(y.(core := FetchStep(y.core, p))) > PipedWork(y)
  {
    FetchWorks(k, ports, y.core, p);
    SameEmitted(y, y.(core := FetchStep(y.core, p)));
  }

  lemma {:induction false} TakeWorks(y: Piped, p: nat)
    requires TakeCan(y, p)
    ensures PipedWork(Take(y, p)) > PipedWork(y)
  {
    MuxWorks(y.core, p);
    TotalGrows(Emitted(y), Emitted(Take(y, p)));
  }

  lemma HeldIsCounted(k: Kernel, d: Depths, ports: nat, y: Piped, p: nat)
    requires PipeInvariant(k, d, ports, y) && EmitCan(d, y, p)
    ensures y.core.ports[p].counts.muxed > 0
  {
    assert PipedAt(k, d, y, p) && PortOk(k, TraceOf(k), y.core, p);
  }

  lemma {:induction false} EmitWorks(k: Kernel, d: Depths, ports: nat, y: Piped, p: nat)
    requires PipeInvariant(k, d, ports, y) && EmitCan(d, y, p)
    ensures PipedWork(Emit(y, p)) > PipedWork(y)
  {
    HeldIsCounted(k, d, ports, y, p);
    TotalGrows(Emitted(y), Emitted(Emit(y, p)));
    assert Emitted(Emit(y, p))[p] > Emitted(y)[p];
  }

  lemma {:induction false} CyclePipedWorks(k: Kernel, d: Depths, ports: nat, y: Piped, a: Availability)
    requires PipeInvariant(k, d, ports, y) && QueueCan(d, y) && |a.loadReqs| == |y.core.ports|
    ensures var z := y.(core := QueueStep(y.core, a));
      PipedWork(z) >= PipedWork(y) && (PipedWork(z) == PipedWork(y) ==> PipedQuiet(y, z)) && Slots(z.core.queue) == Slots(y.core.queue)
    ensures PipedWork(y.(core := QueueStep(y.core, a))) - PipedWork(y) == Work(QueueStep(y.core, a)) - Work(y.core)
  {
    QueueStepWorks(k, ports, y.core, a);
    SlotsStay(y.core, a);
    CycleEmitsNothing(y, a);
  }

  lemma {:induction false} CycleEmitsNothing(y: Piped, a: Availability)
    requires QueueReady(y.core) && Shaped(y.core.queue) && |a.loadReqs| == |y.core.ports|
    ensures Emitted(y.(core := QueueStep(y.core, a))) == Emitted(y)
  {
    var z := y.(core := QueueStep(y.core, a));
    forall p: nat | p < |y.core.ports|
      ensures z.core.ports[p].counts.muxed == y.core.ports[p].counts.muxed
    {
      PortMoves(y.core, a, p);
    }
    QueueMoves(y.core, a);
    SameEmitted(y, z);
  }

  /** Work is never undone, and a step without work is quiet. */
  ghost predicate Advances(y: Piped, z: Piped)
  {
    && |z.core.queue.stores| == |y.core.queue.stores| && Slots(z.core.queue) == Slots(y.core.queue)
    && PipedWork(z) >= PipedWork(y) && (PipedWork(z) == PipedWork(y) ==> PipedQuiet(y, z))
  }

  lemma {:induction false} LandAdvances(y: Piped)
    requires y.core.flight != []
    ensures Advances(y, y.(core := Land(y.core)))
  {
    SameEmitted(y, y.(core := Land(y.core)));
  }

  lemma {:induction false} CycleAdvances(k: Kernel, d: Depths, ports: nat, y: Piped, a: Availability)
    requires PipeInvariant(k, d, ports, y) && QueueCan(d, y) && |a.loadReqs| == |y.core.ports|
    ensures Advances(y, y.(core := QueueStep(y.core, a)))
  {
    QueueMoves(y.core, a);
    CyclePipedWorks(k, d, ports, y, a);
  }

  lemma {:induction false} StepAdvances(k: Kernel, d: Depths, ports: nat, y: Piped, z: Piped)
    requires PipeInvariant(k, d, ports, y) && PipedNext(k, d, y, z)
    ensures Advances(y, z)
  {
    if AguCan(k, d, y) && z == y.(core := AguStep(k, y.core)) {
      AguPipedWorks(k, d, y);
    } else if CuCan(k, d, y) && z == y.(core := CuStep(k, y.core)) {
      CuPipedWorks(k, d, y);
    } else if y.core.flight != [] && z == y.(core := Land(y.core)) {
      LandAdvances(y);
    } else if p: nat :| FetchCan(d, y, p) && z == y.(core := FetchStep(y.core, p)) {
      FetchPipedWorks(k, d, ports, y, p);
    } else if p: nat :| TakeCan(y, p) && z == Take(y, p) {
      TakeWorks(y, p);
    } else if p: nat :| EmitCan(d, y, p) && z == Emit(y, p) {
      EmitWorks(k, d, ports, y, p);
    } else if z != y {
      var a: Availability :| |a.loadReqs| == |y.core.ports| && z == y.(core := QueueStep(y.core, a));
      CycleAdvances(k, d, ports, y, a);
    }
  }

  // -------------------------------------------------------------------------------- turns

  /** A cycle of the queue in which every input pipe responds; a queue without room waits. */
  ghost predicate QueueTurn(d: Depths, y: Piped, z: Piped)
  {
    && Shaped(y.core.queue) && |y.core.queue.loads| == |y.core.ports|
    && if HasRoom(d, y) then
         QueueReady(y.core)
         && exists junkTag, junkVal :: z == y.(core := QueueStep(y.core, AllOpen(|y.core.ports|, junkTag, junkVal)))
       else z == y
  }

  /** Of port `p`, LoadPort is client 2 + 3 * p; taking and writing by LoadMux are 3 + 3 * p and
      4 + 3 * p. */
  ghost predicate Ready(k: Kernel, d: Depths, c: nat, y: Piped)
  {
    if c == 0 then AguCan(k, d, y)
    else if c == 1 then CuCan(k, d, y)
    else if c % 3 == 2 then FetchCan(d, y, c / 3)
    else if c % 3 == 0 then TakeCan(y, c / 3 - 1)
    else EmitCan(d, y, c / 3 - 1)
  }

  ghost predicate Turn(k: Kernel, d: Depths, c: nat, y: Piped, z: Piped)
  {
    Ready(k, d, c, y) ==>
      if c == 0 then z == y.(core := AguStep(k, y.core))
      else if c == 1 then z == y.(core := CuStep(k, y.core))
      else if c % 3 == 2 then z == y.(core := FetchStep(y.core, c / 3))
      else if c % 3 == 0 then z == Take(y, c / 3 - 1)
      else z == Emit(y, c / 3 - 1)
  }

  ghost function Turns(k: Kernel, d: Depths, ports: nat, slots: nat, bound: nat): Machine<Piped>
  {
    Machine(
      2 + 3 * ports, (y, z) => PipedNext(k, d, y, z),
      y => PipeInvariant(k, d, ports, y) && |y.core.queue.stores| == slots && Slots(y.core.queue) == bound,
      y => InBounds(k) && Complete(k, y),
      PipedWork, (y: Piped) => Wait(y.core.queue),
      (c, y) => Ready(k, d, c, y), (c, y, z) => Turn(k, d, c, y, z), (y, z) => QueueTurn(d, y, z))
  }

  lemma TurnIsWork(k: Kernel, d: Depths, ports: nat, c: nat, y: Piped, z: Piped)
    requires PipeInvariant(k, d, ports, y) && Turn(k, d, c, y, z) && Ready(k, d, c, y)
    ensures PipedWork(z) > PipedWork(y)
  {
    if c == 0 {
      AguPipedWorks(k, d, y);
    } else if c == 1 {
      CuPipedWorks(k, d, y);
    } else if c % 3 == 2 {
      FetchPipedWorks(k, d, ports, y, c / 3);
    } else if c % 3 == 0 {
      TakeWorks(y, c / 3 - 1);
    } else {
      EmitWorks(k, d, ports, y, c / 3 - 1);
    }
  }

  lemma QuietIsSame(k: Kernel, d: Depths, c: nat, y: Piped, z: Piped)
    requires PipedQuiet(y, z)
    ensures Ready(k, d, c, z) == Ready(k, d, c, y) && (InBounds(k) ==> Complete(k, z) == Complete(k, y))
  {
  }

  lemma QuietIsReady(k: Kernel, d: Depths, ports: nat, slots: nat, bound: nat, y: Piped, z: Piped)
    requires PipedQuiet(y, z)
    ensures SameReady(Turns(k, d, ports, slots, bound), y, z)
  {
    forall c: nat | c < 2 + 3 * ports
      ensures Ready(k, d, c, z) == Ready(k, d, c, y)
    {
      QuietIsSame(k, d, c, y, z);
    }
  }

  lemma TurnsAreMonotone(k: Kernel, d: Depths, ports: nat, slots: nat, bound: nat)
    ensures Monotone(Turns(k, d, ports, slots, bound))
  {
    var m := Turns(k, d, ports, slots, bound);
    forall y, z {:trigger m.next(y, z)} | m.inv(y) && m.next(y, z)
      ensures m.inv(z) && m.work(z) >= m.work(y)
      ensures m.work(z) == m.work(y) ==> m.wait(z) <= m.wait(y) && m.done(z) == m.done(y) && SameReady(m, y, z)
    {
      PipedNextKeeps(k, d, ports, y, z);
      StepAdvances(k, d, ports, y, z);
      if PipedWork(z) == PipedWork(y) {
        QuietIsSame(k, d, 0, y, z);
        QuietIsReady(k, d, ports, slots, bound, y, z);
      }
    }
  }

  lemma TurnsOfClientsWork(k: Kernel, d: Depths, ports: nat, slots: nat, bound: nat)
    ensures ClientsWork(Turns(k, d, ports, slots, bound))
  {
    var m := Turns(k, d, ports, slots, bound);
    forall c: nat, y, z {:trigger m.client(c, y, z)} | c < m.clients && m.inv(y) && m.client(c, y, z) && m.ready(c, y)
      ensures m.work(z) > m.work(y)
    {
      TurnIsWork(k, d, ports, c, y, z);
    }
  }

  lemma BlockedIsStuck(k: Kernel, d: Depths, ports: nat, slots: nat, bound: nat, y: Piped)
    requires Blocked(Turns(k, d, ports, slots, bound), y) && PipeInvariant(k, d, ports, y)
    ensures ClientsStuck(k, d, y, |k.ops|)
  {
    var m := Turns(k, d, ports, slots, bound);
    assert !m.ready(0, y) && !m.ready(1, y);
    forall p: nat | p < ports
      ensures PortBlocked(d, y, p)
    {
      BlockedAtPort(k, d, ports, slots, bound, y, p);
    }
  }

  lemma BlockedAtPort(k: Kernel, d: Depths, ports: nat, slots: nat, bound: nat, y: Piped, p: nat)
    requires Blocked(Turns(k, d, ports, slots, bound), y) && p < ports
    ensures PortBlocked(d, y, p)
  {
    var m := Turns(k, d, ports, slots, bound);
    assert !m.ready(2 + 3 * p, y) && !m.ready(3 + 3 * p, y) && !m.ready(4 + 3 * p, y);
    ReadyAtPort(k, d, p, y);
  }

  lemma ClientNumbers(p: nat)
    ensures (2 + 3 * p) % 3 == 2 && (2 + 3 * p) / 3 == p
    ensures (3 + 3 * p) % 3 == 0 && (3 + 3 * p) / 3 == p + 1
    ensures (4 + 3 * p) % 3 == 1 && (4 + 3 * p) / 3 == p + 1
  {
  }

  lemma ReadyAtPort(k: Kernel, d: Depths, p: nat, y: Piped)
    ensures Ready(k, d, 2 + 3 * p, y) == FetchCan(d, y, p)
    ensures Ready(k, d, 3 + 3 * p, y) == TakeCan(y, p)
    ensures Ready(k, d, 4 + 3 * p, y) == EmitCan(d, y, p)
  {
    ClientNumbers(p);
  }

  lemma NoJamIsRoom(k: Kernel, d: Depths, ports: nat, y: Piped)
    requires PipeInvariant(k, d, ports, y) && Open(d) && ClientsStuck(k, d, y, |k.ops|) && !Jams(k, d, |y.core.queue.stores|)
    ensures HasRoom(d, y)
  {
    forall q: nat | q < ports
      ensures RoomAt(d, y.core.ports[q], y.core.queue.loads[q])
    {
      if !RoomAt(d, y.core.ports[q], y.core.queue.loads[q]) {
        StuckIsJam(k, d, ports, y, |k.ops|, q);
        assert false;
      }
    }
  }

  lemma CycleTurnWorks(k: Kernel, d: Depths, ports: nat, y: Piped, a: Availability)
    requires PipeInvariant(k, d, ports, y) && Open(d) && !Complete(k, y) && ClientsStuck(k, d, y, |k.ops|) && QueueCan(d, y)
    requires |a.loadReqs| == ports && a.storeVal && a.storeReq && forall p :: 0 <= p < ports ==> a.loadReqs[p]
    ensures var z := y.(core := QueueStep(y.core, a)); PipedWork(z) > PipedWork(y) || Wait(z.core.queue) < Wait(y.core.queue)
  {
    CyclePipedWorks(k, d, ports, y, a);
    CycleTurn(k, ports, y.core, a);
    if Stuck(k, y.core, a) {
      StuckIsDone(k, d, ports, y, a, |k.ops|);
      assert false;
    }
  }

  /** Without a jam, a turn of the queue works if all clients are blocked. */
  lemma QueueTurnWorks(k: Kernel, d: Depths, ports: nat, y: Piped, z: Piped)
    requires PipeInvariant(k, d, ports, y) && Open(d) && !Complete(k, y) && ClientsStuck(k, d, y, |k.ops|) && QueueTurn(d, y, z)
    requires !Jams(k, d, |y.core.queue.stores|)
    ensures PipedWork(z) > PipedWork(y) || Wait(z.core.queue) < Wait(y.core.queue)
  {
    NoJamIsRoom(k, d, ports, y);
    var junkTag, junkVal :| z == y.(core := QueueStep(y.core, AllOpen(|y.core.ports|, junkTag, junkVal)));
    CycleTurnWorks(k, d, ports, y, AllOpen(|y.core.ports|, junkTag, junkVal));
  }

  lemma TurnsOfQueueWork(k: Kernel, d: Depths, ports: nat, slots: nat, bound: nat)
    requires Open(d) && InBounds(k) && !Jams(k, d, slots)
    ensures ServerWorks(Turns(k, d, ports, slots, bound))
  {
    var m := Turns(k, d, ports, slots, bound);
    forall y, z | m.inv(y) && m.server(y, z) && !m.done(y) && Blocked(m, y)
      ensures m.work(z) > m.work(y) || m.wait(z) < m.wait(y)
    {
      BlockedIsStuck(k, d, ports, slots, bound, y);
      QueueTurnWorks(k, d, ports, y, z);
    }
  }

  // ------------------------------------------------------------------------------- bounds

  /** More than all the work there is. */
  function PipedLimit(k: Kernel, ports: nat): nat
  {
    Limit(k, ports) + ports * |k.ops|
  }

  lemma {:induction false} PipedWorkIsBounded(k: Kernel, d: Depths, ports: nat, y: Piped)
    requires PipeInvariant(k, d, ports, y)
    ensures PipedWork(y) < PipedLimit(k, ports)
  {
    WorkIsBounded(k, ports, y.core);
    forall p | 0 <= p < ports
      ensures Emitted(y)[p] <= |k.ops|
    {
      assert PortOk(k, TraceOf(k), y.core, p);
      JobsAreFew(k, p);
    }
    TotalIsBounded(Emitted(y), |k.ops|);
  }

  lemma TurnsAreLive(k: Kernel, d: Depths, ports: nat, slots: nat, bound: nat)
    requires Open(d) && InBounds(k) && !Jams(k, d, slots)
    ensures Live(Turns(k, d, ports, slots, bound), bound, PipedLimit(k, ports))
  {
    TurnsAreMonotone(k, d, ports, slots, bound);
    TurnsOfClientsWork(k, d, ports, slots, bound);
    TurnsOfQueueWork(k, d, ports, slots, bound);
    forall y | PipeInvariant(k, d, ports, y) && Slots(y.core.queue) == bound
      ensures Wait(y.core.queue) < bound && PipedWork(y) < PipedLimit(k, ports)
    {
      WaitIsBounded(y.core.queue);
      PipedWorkIsBounded(k, d, ports, y);
    }
  }

  // ---------------------------------------------------------------------------- fair runs

  ghost function TurnsFrom(k: Kernel, d: Depths, ports: nat, y: Piped): Machine<Piped>
  {
    Turns(k, d, ports, |y.core.queue.stores|, Slots(y.core.queue))
  }

  /** No deadlock without a jam: from every reachable state with work left, as many fair
      stretches as the queues have slots get some of it done. */
  lemma FairRunAdvances(k: Kernel, d: Depths, ports: nat, run: seq<Piped>, marks: seq<nat>)
    requires marks != [] && marks[0] < |run| && FairRun(TurnsFrom(k, d, ports, run[marks[0]]), run, marks)
    requires PipeInvariant(k, d, ports, run[marks[0]]) && !Complete(k, run[marks[0]])
    requires Open(d) && !Jams(k, d, |run[marks[0]].core.queue.stores|)
    requires |marks| > Slots(run[marks[0]].core.queue)
    ensures marks[|marks| - 1] < |run| && PipedWork(run[marks[|marks| - 1]]) > PipedWork(run[marks[0]])
  {
    var y := run[marks[0]];
    TurnsAreLive(k, d, ports, |y.core.queue.stores|, Slots(y.core.queue));
    WaitIsBounded(y.core.queue);
    FairRuns.FairRunAdvances(TurnsFrom(k, d, ports, y), run, marks);
  }

  /** Once complete, the kernel stays complete. */
  lemma CompleteStays(k: Kernel, d: Depths, ports: nat, y: Piped, z: Piped)
    requires PipeInvariant(k, d, ports, y) && Complete(k, y) && PipedNext(k, d, y, z)
    ensures Complete(k, z)
  {
    PipedNextKeeps(k, d, ports, y, z);
    if z.core != y.core {
      StepGoesOn(k, ports, y.core, z.core);
    }
  }

  lemma StepGoesOn(k: Kernel, ports: nat, y: System, z: System)
    requires SystemInvariant(k, ports, y) && Next(k, y, z)
    ensures z.agu >= y.agu && z.cu >= y.cu && z.consumed >= y.consumed
  {
    if AguReady(k, y) && z == AguStep(k, y) {
    } else if CuReady(k, y) && z == CuStep(k, y) {
    } else if y.flight != [] && z == Land(y) {
    } else if p: nat :| FetchReady(y, p) && z == FetchStep(y, p) {
    } else if p: nat :| MuxStepReady(y, p) && z == MuxStep(y, p) {
    } else {
      var a: Availability :| |a.loadReqs| == |y.ports| && z == QueueStep(y, a);
      QueueMoves(y, a);
    }
  }

  lemma TurnsAreStable(k: Kernel, d: Depths, ports: nat, slots: nat, bound: nat)
    ensures Stable(Turns(k, d, ports, slots, bound))
  {
    TurnsAreMonotone(k, d, ports, slots, bound);
    var m := Turns(k, d, ports, slots, bound);
    forall y, z {:trigger m.next(y, z)} | m.inv(y) && m.done(y) && m.next(y, z)
      ensures m.inv(z) && m.done(z)
    {
      CompleteStays(k, d, ports, y, z);
    }
  }

  lemma FairRunCompletes(k: Kernel, d: Depths, ports: nat, slots: nat, bound: nat, limit: nat, run: seq<Piped>, marks: seq<nat>)
    requires InBounds(k) && Open(d) && !Jams(k, d, slots) && limit == PipedLimit(k, ports)
    requires marks != [] && marks[0] < |run| && Turns(k, d, ports, slots, bound).inv(run[marks[0]])
    requires FairRun(Turns(k, d, ports, slots, bound), run, marks) && |marks| > bound * (limit + 1)
    ensures Turns(k, d, ports, slots, bound).done(run[|run| - 1])
  {
    TurnsAreLive(k, d, ports, slots, bound);
    TurnsAreStable(k, d, ports, slots, bound);
    FairRunEnds(Turns(k, d, ports, slots, bound), run, marks, bound, limit);
  }

  lemma CompleteIsSequential(k: Kernel, d: Depths, ports: nat, run: seq<Piped>, i: nat)
    requires PipedRun(k, d, ports, run) && Sound(k, ports, run[0].core.queue.speculation) && i < |run| && Complete(k, run[i])
    ensures run[i].core.received == Exec(k, |k.ops|).loaded
    ensures Landed(run[i].core.memory, run[i].core.flight) == Exec(k, |k.ops|).memory
  {
    PipedRunsAreSequential(k, d, ports, run, i);
    MemoryIsSequential(k, |k.ops|);
  }

  /** Unless the kernel jams, every run with enough fair stretches ends with it complete, with
      the loads of sequential execution, and with its memory once the stores in flight have
      landed. */
  lemma FairRunsEndSequentially(k: Kernel, d: Depths, ports: nat, run: seq<Piped>, marks: seq<nat>)
    requires PipedRun(k, d, ports, run) && Sound(k, ports, run[0].core.queue.speculation)
    requires marks != [] && marks[0] == 0 && FairRun(TurnsFrom(k, d, ports, run[0]), run, marks)
    requires |marks| > Slots(run[0].core.queue) * (PipedLimit(k, ports) + 1)
    requires Open(d) && !Jams(k, d, |run[0].core.queue.stores|)
    ensures Complete(k, run[|run| - 1])
    ensures run[|run| - 1].core.received == Exec(k, |k.ops|).loaded
    ensures Landed(run[|run| - 1].core.memory, run[|run| - 1].core.flight) == Exec(k, |k.ops|).memory
  {
    PipedRunKeeps(k, d, ports, run, 0);
    FairRunCompletes(k, d, ports, |run[0].core.queue.stores|, Slots(run[0].core.queue), PipedLimit(k, ports), run, marks);
    CompleteIsSequential(k, d, ports, run, |run| - 1);
  }

  /** With pipes that hold all loads of a port, no kernel jams. */
  lemma DeepPipesNeverJam(k: Kernel, d: Depths, slots: nat)
    requires InBounds(k) && |k.ops| < Filling(d)
    ensures !Jams(k, d, slots)
  {
    forall x: nat, q: nat
      ensures !JamsAt(k, d, slots, x, q, |k.ops|)
    {
      JobsAreFew(k, q);
    }
  }
}
