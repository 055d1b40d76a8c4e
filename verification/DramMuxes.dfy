module DramMuxes {
  // The off-chip queue with several store request and store value ports.
  //
  // A mux kernel merges the store requests by tag into the pipe that the queue reads.  The store
  // values are merged by the queue itself, in cycles in which a store waits at the head of its
  // allocation queue.  Whatever the muxes and pipes do, a step of this system is a step of
  // `DramSystem`, whose streams are what has been sent and not yet consumed, or nothing at all.

  import opened Wrappers
  import opened Slices
  import opened Lanes
  import opened Lines
  import opened Traces
  import opened Kernels
  import opened DramQueue
  import opened DramInvariant
  import opened DramSystem
  import TagMux

  /** The ports of every store request and store value. */
  datatype Wiring = Wiring(loadPorts: nat, storePorts: nat, valuePorts: nat, storePort: nat -> nat, valuePort: nat -> nat)

  /** Store value ports, and the registers of the mux inside the queue. */
  datatype Inlined = Inlined(pipes: seq<seq<TagMux.Item<StoreVal>>>, mux: TagMux.State<StoreVal>)

  /** All else is as with one port, so that `rest` has no store streams of its own. */
  datatype Fed = Fed(rest: System, stores: Line<StoreReq>, values: Inlined, cuStores: nat)

  ghost predicate Wired(k: Kernel, w: Wiring, speculation: bool)
  {
    && Sound(k, w.loadPorts, speculation)
    && forall i :: w.storePort(i) < w.storePorts && w.valuePort(i) < w.valuePorts
  }

  function Same<V>(port: nat, v: V): V
  {
    v
  }

  // ------------------------------------------------------------------------- the actions

  predicate FedAguReady(k: Kernel, w: Wiring, y: Fed)
  {
    AguReady(k, y.rest) && (k.ops[y.rest.agu].Store? ==> w.storePort(y.rest.aguTag) < |y.stores.pipes|)
  }

  function FedAguStep(k: Kernel, w: Wiring, y: Fed): Fed
    requires FedAguReady(k, w, y)
  {
    match k.ops[y.rest.agu]
    case Load(_, _) => y.(rest := AguStep(k, y.rest))
    case Store(addr) =>
      y.(rest := y.rest.(agu := y.rest.agu + 1, aguTag := y.rest.aguTag + 1),
         stores := Send(y.stores, w.storePort(y.rest.aguTag), y.rest.aguTag + 1, StoreReq(addr, y.rest.aguTag + 1)))
  }

  predicate FedCuReady(k: Kernel, w: Wiring, y: Fed)
  {
    CuReady(k, y.rest) && (k.ops[y.rest.cu].Store? ==> w.valuePort(y.cuStores) < |y.values.pipes|)
  }

  function FedCuStep(k: Kernel, w: Wiring, y: Fed): Fed
    requires FedCuReady(k, w, y)
  {
    match k.ops[y.rest.cu]
    case Load(_, _) => y.(rest := CuStep(k, y.rest))
    case Store(_) =>
      var p, item := w.valuePort(y.cuStores), TagMux.Item(y.cuStores + 1, k.compute(y.rest.cu, y.rest.received));
      y.(rest := y.rest.(cu := y.rest.cu + 1), cuStores := y.cuStores + 1,
         values := y.values.(pipes := y.values.pipes[p := y.values.pipes[p] + [item]]))
  }

  /** The value that the mux inside the queue finds in a cycle. */
  function Found(y: Fed): Option<StoreVal>
    requires |y.rest.queue.stores| >= 2
  {
    if y.rest.queue.stores[0].valid then
      match TagMux.Passed(y.values.mux.held, y.values.mux.nextTag)
      case None => None
      case Some(x) => Some(x.item.payload)
    else None
  }

  /** That mux stands still while no store waits. */
  ghost function ValuesNext(y: Fed, ready: seq<bool>): Inlined
    requires |y.rest.queue.stores| >= 2 && |ready| == |y.values.pipes| == |y.values.mux.held|
  {
    if y.rest.queue.stores[0].valid then
      Inlined(TagMux.RestNext(y.values.mux, y.values.pipes, ready), TagMux.Cycle(y.values.mux, TagMux.Offers(y.values.pipes, ready)))
    else y.values
  }

  /** What the queue sees of the two streams. */
  function Seen(y: Fed): System
    requires |y.rest.queue.stores| >= 2
  {
    y.rest.(storeReqs := y.stores.out, storeVals := if Found(y).Some? then [Found(y).value] else [])
  }

  ghost function FedQueueStep(y: Fed, a: Availability, ready: seq<bool>): Fed
    requires QueueReady(y.rest) && Shaped(y.rest.queue) && |a.loadReqs| == |y.rest.ports|
    requires |ready| == |y.values.pipes| == |y.values.mux.held|
  {
    var z := QueueStep(Seen(y), a.(storeVal := true));
    y.(rest := z.(storeReqs := [], storeVals := []), stores := y.stores.(out := z.storeReqs), values := ValuesNext(y, ready))
  }

  ghost predicate StoreMuxMoves(line: Line<StoreReq>, next: Line<StoreReq>)
  {
    exists ready :: |ready| == |line.pipes| == |line.mux.held| && next == Lines.MuxStep(line, Same, ready)
  }

  ghost predicate FedCycles(y: Fed, z: Fed)
  {
    && QueueReady(y.rest) && Shaped(y.rest.queue) && |y.values.pipes| == |y.values.mux.held|
    && exists a: Availability, ready ::
      |a.loadReqs| == |y.rest.ports| && |ready| == |y.values.pipes| && z == FedQueueStep(y, a, ready)
  }

  ghost predicate FedNext(k: Kernel, w: Wiring, y: Fed, z: Fed)
  {
    || (FedAguReady(k, w, y) && z == FedAguStep(k, w, y))
    || (FedCuReady(k, w, y) && z == FedCuStep(k, w, y))
    || (z == y.(stores := z.stores) && StoreMuxMoves(y.stores, z.stores))
    || (y.rest.flight != [] && z == y.(rest := Land(y.rest)))
    || (exists p: nat :: FetchReady(y.rest, p) && z == y.(rest := FetchStep(y.rest, p)))
    || (exists p: nat :: MuxStepReady(y.rest, p) && z == y.(rest := DramSystem.MuxStep(y.rest, p)))
    || FedCycles(y, z)
  }

  ghost predicate FedInitial(k: Kernel, w: Wiring, y: Fed)
  {
    && Initial(k, w.loadPorts, y.rest) && y.cuStores == 0
    && |y.stores.pipes| == |y.stores.mux.held| == w.storePorts && y.stores.mux.nextTag == 1 && y.stores.out == []
    && (forall p :: 0 <= p < w.storePorts ==> y.stores.pipes[p] == [] && y.stores.mux.held[p] == None)
    && |y.values.pipes| == |y.values.mux.held| == w.valuePorts && y.values.mux.nextTag == 1
    && forall p :: 0 <= p < w.valuePorts ==> y.values.pipes[p] == [] && y.values.mux.held[p] == None
  }

  // ------------------------------------------------------------ the system with single streams

  /** Items of a stream, each on its port. */
  ghost function OnPorts<V>(s: seq<V>, port: nat -> nat): (r: seq<Laned<V>>)
    ensures |r| == |s| && forall i :: 0 <= i < |s| ==> r[i] == Laned(port(i), s[i])
  {
    seq(|s|, i requires 0 <= i < |s| => Laned(port(i), s[i]))
  }

  ghost predicate FedCounted(k: Kernel, y: Fed)
  {
    && InBounds(k) && y.rest.agu <= |k.ops| && y.rest.cu <= |k.ops|
    && y.rest.queue.lastStoreTag <= |StoresIn(k.ops, y.rest.agu)| && y.rest.consumed <= |Exec(k, y.rest.cu).stored|
  }

  /** The streams hold what has been sent and not yet consumed, in order. */
  ghost function Single(k: Kernel, y: Fed): System
    requires FedCounted(k, y)
  {
    y.rest.(storeReqs := StoresIn(k.ops, y.rest.agu)[y.rest.queue.lastStoreTag..],
            storeVals := Exec(k, y.rest.cu).stored[y.rest.consumed..])
  }

  ghost predicate StoresFed(k: Kernel, w: Wiring, y: Fed)
    requires FedCounted(k, y)
  {
    && |y.stores.pipes| == |y.stores.mux.held| == w.storePorts
    && LineHolds(OnPorts(StoresIn(k.ops, y.rest.agu), w.storePort), 1, Same, y.stores, y.rest.queue.lastStoreTag)
  }

  ghost predicate ValuesFed(k: Kernel, w: Wiring, y: Fed)
    requires FedCounted(k, y)
  {
    && |y.values.pipes| == |y.values.mux.held| == w.valuePorts && y.cuStores == |Exec(k, y.rest.cu).stored|
    && TagMux.Invariant(Numbered(OnPorts(Exec(k, y.rest.cu).stored, w.valuePort), 1), 1, y.values.mux, y.values.pipes, y.rest.consumed)
  }

  ghost predicate FedInvariant(k: Kernel, w: Wiring, y: Fed)
  {
    && FedCounted(k, y) && StoresFed(k, w, y) && ValuesFed(k, w, y)
    && SystemInvariant(k, w.loadPorts, Single(k, y))
    && y.rest.storeReqs == [] && y.rest.storeVals == []
  }

  lemma FedInitialHolds(k: Kernel, w: Wiring, y: Fed)
    requires Wired(k, w, y.rest.queue.speculation) && FedInitial(k, w, y)
    ensures FedInvariant(k, w, y)
  {
    var none: seq<StoreReq>, values: seq<StoreVal> := [], [];
    assert OnPorts(none, w.storePort) == [] && OnPorts(values, w.valuePort) == [];
    LineStarts(w.storePorts, 1, Same<StoreReq>, y.stores);
    assert Single(k, y) == y.rest;
    InitialHolds(k, w.loadPorts, y.rest);
  }

  // ----------------------------------------------------------------------------- the clients

  lemma OnPortsGrows<V>(s: seq<V>, port: nat -> nat, v: V)
    ensures OnPorts(s + [v], port) == OnPorts(s, port) + [Laned(port(|s|), v)]
  {
  }

  lemma {:induction false} AguIsSingle(k: Kernel, w: Wiring, y: Fed)
    requires FedCounted(k, y) && FedAguReady(k, w, y) && y.rest.aguTag == |StoresIn(k.ops, y.rest.agu)| && y.rest.storeReqs == []
    ensures FedCounted(k, FedAguStep(k, w, y)) && AguReady(k, Single(k, y))
    ensures Single(k, FedAguStep(k, w, y)) == AguStep(k, Single(k, y))
  {
    var i := y.rest.agu;
    var s := StoresIn(k.ops, i);
    if k.ops[i].Store? {
      assert StoresIn(k.ops, i + 1) == s + [StoreReq(k.ops[i].addr, |s| + 1)];
      assert StoresIn(k.ops, i + 1)[y.rest.queue.lastStoreTag..] == s[y.rest.queue.lastStoreTag..] + [StoreReq(k.ops[i].addr, |s| + 1)];
    }
  }

  lemma {:induction false} AguKeepsSingle(k: Kernel, w: Wiring, y: Fed)
    requires FedInvariant(k, w, y) && FedAguReady(k, w, y)
    ensures var z := FedAguStep(k, w, y); FedCounted(k, z) && SystemInvariant(k, w.loadPorts, Single(k, z))
    ensures y.rest.aguTag == |StoresIn(k.ops, y.rest.agu)|
  {
    AguIsSingle(k, w, y);
    AguKeeps(k, w.loadPorts, Single(k, y));
  }

  lemma {:induction false} AguStoresFed(k: Kernel, w: Wiring, y: Fed)
    requires FedCounted(k, y) && StoresFed(k, w, y) && ValuesFed(k, w, y) && FedAguReady(k, w, y)
    requires y.rest.aguTag == |StoresIn(k.ops, y.rest.agu)| && FedCounted(k, FedAguStep(k, w, y))
    ensures StoresFed(k, w, FedAguStep(k, w, y)) && ValuesFed(k, w, FedAguStep(k, w, y))
  {
    var s := StoresIn(k.ops, y.rest.agu);
    if k.ops[y.rest.agu].Store? {
      var req := StoreReq(k.ops[y.rest.agu].addr, |s| + 1);
      OnPortsGrows(s, w.storePort, req);
      SendHolds(OnPorts(s, w.storePort), 1, Same, y.stores, y.rest.queue.lastStoreTag, w.storePort(|s|), req);
    }
  }

  lemma {:induction false} FedAguKeeps(k: Kernel, w: Wiring, y: Fed)
    requires FedInvariant(k, w, y) && FedAguReady(k, w, y)
    ensures FedInvariant(k, w, FedAguStep(k, w, y))
  {
    AguKeepsSingle(k, w, y);
    AguStoresFed(k, w, y);
  }

  /** What the compute unit has received is what sequential execution has loaded. */
  lemma {:induction false} ReceivedIsLoaded(k: Kernel, w: Wiring, y: Fed)
    requires FedInvariant(k, w, y)
    ensures y.rest.received == Exec(k, y.rest.cu).loaded && |Exec(k, y.rest.cu).stored| == |StoresIn(k.ops, y.rest.cu)|
  {
    ExecGrows(k, y.rest.cu, |k.ops|);
    ExecCounts(k, y.rest.cu);
  }

  lemma {:induction false} CuIsSingle(k: Kernel, w: Wiring, y: Fed)
    requires FedCounted(k, y) && FedCuReady(k, w, y) && y.rest.received == Exec(k, y.rest.cu).loaded
    requires y.rest.storeVals == []
    ensures FedCounted(k, FedCuStep(k, w, y)) && CuReady(k, Single(k, y))
    ensures Single(k, FedCuStep(k, w, y)) == CuStep(k, Single(k, y))
  {
    var i := y.rest.cu;
    var e := Exec(k, i);
    if k.ops[i].Store? {
      var v := k.compute(i, e.loaded);
      assert Exec(k, i + 1).stored == e.stored + [v];
      assert Exec(k, i + 1).stored[y.rest.consumed..] == e.stored[y.rest.consumed..] + [v];
    } else {
      assert Exec(k, i + 1).stored == e.stored;
    }
  }

  lemma {:induction false} CuKeepsSingle(k: Kernel, w: Wiring, y: Fed)
    requires FedInvariant(k, w, y) && FedCuReady(k, w, y)
    ensures var z := FedCuStep(k, w, y); FedCounted(k, z) && SystemInvariant(k, w.loadPorts, Single(k, z))
    ensures y.rest.received == Exec(k, y.rest.cu).loaded
  {
    ReceivedIsLoaded(k, w, y);
    CuIsSingle(k, w, y);
    CuKeeps(k, w.loadPorts, Single(k, y));
  }

  lemma {:induction false} CuValuesFed(k: Kernel, w: Wiring, y: Fed)
    requires FedCounted(k, y) && StoresFed(k, w, y) && ValuesFed(k, w, y) && FedCuReady(k, w, y)
    requires y.rest.received == Exec(k, y.rest.cu).loaded && FedCounted(k, FedCuStep(k, w, y))
    ensures StoresFed(k, w, FedCuStep(k, w, y)) && ValuesFed(k, w, FedCuStep(k, w, y))
  {
    var e := Exec(k, y.rest.cu);
    if k.ops[y.rest.cu].Store? {
      ValueFed(e.stored, w.valuePort, y.values, y.rest.consumed, k.compute(y.rest.cu, e.loaded));
    }
  }

  lemma {:induction false} FedCuKeeps(k: Kernel, w: Wiring, y: Fed)
    requires FedInvariant(k, w, y) && FedCuReady(k, w, y)
    ensures FedInvariant(k, w, FedCuStep(k, w, y))
  {
    CuKeepsSingle(k, w, y);
    CuValuesFed(k, w, y);
  }

  lemma {:induction false} ValueFed(s: seq<StoreVal>, port: nat -> nat, values: Inlined, consumed: nat, v: StoreVal)
    requires TagMux.Invariant(Numbered(OnPorts(s, port), 1), 1, values.mux, values.pipes, consumed) && port(|s|) < |values.pipes|
    ensures var p := port(|s|);
      TagMux.Invariant(Numbered(OnPorts(s + [v], port), 1), 1, values.mux,
        values.pipes[p := values.pipes[p] + [TagMux.Item(|s| + 1, v)]], consumed)
  {
    var p, item := port(|s|), TagMux.Item(|s| + 1, v);
    OnPortsGrows(s, port, v);
    assert Numbered(OnPorts(s + [v], port), 1) == Numbered(OnPorts(s, port), 1) + [Laned(p, item)];
    TagMux.SendKeeps(Numbered(OnPorts(s, port), 1), 1, values.mux, values.pipes, consumed, p, item);
  }

  // --------------------------------------------------------------------------- the queue

  /** The mux inside the queue passes on the value of the store that is consumed next. */
  lemma {:induction false} FoundIsNext(k: Kernel, w: Wiring, y: Fed)
    requires FedInvariant(k, w, y) && |y.rest.queue.stores| >= 2 && Found(y).Some?
    ensures y.rest.consumed < |Exec(k, y.rest.cu).stored| && Found(y).value == Exec(k, y.rest.cu).stored[y.rest.consumed]
  {
    var all := Numbered(OnPorts(Exec(k, y.rest.cu).stored, w.valuePort), 1);
    TagMux.CycleKeeps(all, 1, y.values.mux, y.values.pipes, y.rest.consumed, seq(|y.values.pipes|, _ => true));
  }

  /** The same availability for the single streams: what is still in a mux is not available. */
  function Behind(y: Fed, a: Availability): Availability
    requires |y.rest.queue.stores| >= 2
  {
    a.(storeVal := Found(y).Some?, storeReq := a.storeReq && y.stores.out != [])
  }

  lemma {:induction false} SeenIsSingle(k: Kernel, w: Wiring, y: Fed, a: Availability)
    requires FedInvariant(k, w, y) && |a.loadReqs| == |y.rest.ports|
    ensures |y.rest.queue.stores| >= 2
    ensures OffersOf(Seen(y), a.(storeVal := true)) == OffersOf(Single(k, y), Behind(y, a))
    ensures y.stores.out != [] ==> y.rest.queue.lastStoreTag < |StoresIn(k.ops, y.rest.agu)|
  {
    TakeHolds(OnPorts(StoresIn(k.ops, y.rest.agu), w.storePort), 1, Same, y.stores, y.rest.queue.lastStoreTag, false);
    if Found(y).Some? {
      FoundIsNext(k, w, y);
    }
    var o, p := OffersOf(Seen(y), a.(storeVal := true)), OffersOf(Single(k, y), Behind(y, a));
    assert o.loadReqs == p.loadReqs;
  }

  /** Whether the queue takes a store request from behind the mux. */
  ghost predicate TakesStore(y: Fed, a: Availability)
    requires Shaped(y.rest.queue) && |a.loadReqs| == |y.rest.ports|
  {
    var o := OffersOf(Seen(y), a.(storeVal := true));
    Shifts(y.rest.queue, o) && o.storeReq.Some?
  }

  /** How a cycle moves along the streams. */
  lemma {:induction false} CycleMoves(k: Kernel, w: Wiring, y: Fed, a: Availability, ready: seq<bool>)
    requires FedInvariant(k, w, y) && QueueReady(y.rest) && Shaped(y.rest.queue) && |a.loadReqs| == |y.rest.ports|
    requires |ready| == |y.values.pipes|
    ensures var z, took := FedQueueStep(y, a, ready), TakesStore(y, a);
      && z.stores == Taken(y.stores, took) && (took ==> y.stores.out != [])
      && z.rest.queue.lastStoreTag == y.rest.queue.lastStoreTag + (if took then 1 else 0)
      && z.rest.consumed == y.rest.consumed + (if Found(y).Some? then 1 else 0)
      && z.rest.agu == y.rest.agu && z.rest.cu == y.rest.cu && FedCounted(k, z)
  {
    SeenIsSingle(k, w, y, a);
    QueueMoves(Seen(y), a.(storeVal := true));
    if Found(y).Some? {
      FoundIsNext(k, w, y);
    }
  }

  lemma {:induction false} QueueIsSingle(k: Kernel, w: Wiring, y: Fed, a: Availability, ready: seq<bool>)
    requires FedInvariant(k, w, y) && QueueReady(y.rest) && Shaped(y.rest.queue) && |a.loadReqs| == |y.rest.ports|
    requires |ready| == |y.values.pipes|
    ensures var z := FedQueueStep(y, a, ready);
      FedCounted(k, z) && Single(k, z) == QueueStep(Single(k, y), Behind(y, a))
  {
    SeenIsSingle(k, w, y, a);
    CycleMoves(k, w, y, a, ready);
    QueueMoves(Single(k, y), Behind(y, a));
    TailRest(StoresIn(k.ops, y.rest.agu), y.rest.queue.lastStoreTag, TakesStore(y, a));
    if Found(y).Some? {
      FoundIsNext(k, w, y);
    }
    TailRest(Exec(k, y.rest.cu).stored, y.rest.consumed, Found(y).Some?);
    assert QueueStep(Seen(y), a.(storeVal := true)).ports == QueueStep(Single(k, y), Behind(y, a)).ports;
  }

  lemma TailRest<T>(all: seq<T>, n: nat, take: bool)
    requires n <= |all| && (take ==> n < |all|)
    ensures Rest(all[n..], take) == all[n + if take then 1 else 0..]
  {
  }

  lemma {:induction false} FedQueueKeeps(k: Kernel, w: Wiring, y: Fed, a: Availability, ready: seq<bool>)
    requires FedInvariant(k, w, y) && QueueReady(y.rest) && Shaped(y.rest.queue) && |a.loadReqs| == |y.rest.ports|
    requires |ready| == |y.values.pipes|
    ensures FedInvariant(k, w, FedQueueStep(y, a, ready))
  {
    QueueIsSingle(k, w, y, a, ready);
    CycleMoves(k, w, y, a, ready);
    QueueKeeps(k, w.loadPorts, Single(k, y), Behind(y, a));
    StoresTaken(k, w, y, a, ready);
    ValuesTaken(k, w, y, ready);
  }

  lemma {:induction false} StoresTaken(k: Kernel, w: Wiring, y: Fed, a: Availability, ready: seq<bool>)
    requires FedInvariant(k, w, y) && QueueReady(y.rest) && Shaped(y.rest.queue) && |a.loadReqs| == |y.rest.ports|
    requires |ready| == |y.values.pipes| && FedCounted(k, FedQueueStep(y, a, ready))
    ensures StoresFed(k, w, FedQueueStep(y, a, ready))
  {
    CycleMoves(k, w, y, a, ready);
    TakeHolds(OnPorts(StoresIn(k.ops, y.rest.agu), w.storePort), 1, Same, y.stores, y.rest.queue.lastStoreTag, TakesStore(y, a));
  }

  lemma {:induction false} ValuesTaken(k: Kernel, w: Wiring, y: Fed, ready: seq<bool>)
    requires FedInvariant(k, w, y) && |y.rest.queue.stores| >= 2 && |ready| == |y.values.pipes|
    ensures var v := ValuesNext(y, ready);
      TagMux.Invariant(Numbered(OnPorts(Exec(k, y.rest.cu).stored, w.valuePort), 1), 1, v.mux, v.pipes,
        y.rest.consumed + if Found(y).Some? then 1 else 0)
  {
    if y.rest.queue.stores[0].valid {
      TagMux.CycleKeeps(Numbered(OnPorts(Exec(k, y.rest.cu).stored, w.valuePort), 1), 1, y.values.mux, y.values.pipes,
        y.rest.consumed, ready);
    }
  }

  // ----------------------------------------------------------------------------- all runs

  lemma {:induction false} StoreMuxKeeps(k: Kernel, w: Wiring, y: Fed, z: Fed)
    requires FedInvariant(k, w, y) && z == y.(stores := z.stores) && StoreMuxMoves(y.stores, z.stores)
    ensures FedInvariant(k, w, z) && Single(k, z) == Single(k, y)
  {
    var ready :| |ready| == |y.stores.pipes| == |y.stores.mux.held| && z.stores == Lines.MuxStep(y.stores, Same, ready);
    MuxHolds(OnPorts(StoresIn(k.ops, y.rest.agu), w.storePort), 1, Same, y.stores, y.rest.queue.lastStoreTag, ready);
  }

  /** Steps behind the queue do not touch the streams of stores. */
  lemma {:induction false} RestKeeps(k: Kernel, w: Wiring, y: Fed, z: Fed)
    requires FedInvariant(k, w, y) && z == y.(rest := z.rest)
    requires (y.rest.flight != [] && z.rest == Land(y.rest))
      || (exists p: nat :: FetchReady(y.rest, p) && z.rest == FetchStep(y.rest, p))
      || (exists p: nat :: MuxStepReady(y.rest, p) && z.rest == DramSystem.MuxStep(y.rest, p))
    ensures FedInvariant(k, w, z)
  {
    if y.rest.flight != [] && z.rest == Land(y.rest) {
      LandKeeps(k, w.loadPorts, Single(k, y));
      assert Single(k, z) == Land(Single(k, y));
    } else if p: nat :| FetchReady(y.rest, p) && z.rest == FetchStep(y.rest, p) {
      FetchStepKeeps(k, w.loadPorts, Single(k, y), p);
      assert Single(k, z) == FetchStep(Single(k, y), p);
    } else {
      var p: nat :| MuxStepReady(y.rest, p) && z.rest == DramSystem.MuxStep(y.rest, p);
      MuxStepKeeps(k, w.loadPorts, Single(k, y), p);
      assert Single(k, z) == DramSystem.MuxStep(Single(k, y), p);
    }
  }

  lemma {:induction false} FedNextKeeps(k: Kernel, w: Wiring, y: Fed, z: Fed)
    requires FedInvariant(k, w, y) && FedNext(k, w, y, z)
    ensures FedInvariant(k, w, z)
  {
    if FedAguReady(k, w, y) && z == FedAguStep(k, w, y) {
      FedAguKeeps(k, w, y);
    } else if FedCuReady(k, w, y) && z == FedCuStep(k, w, y) {
      FedCuKeeps(k, w, y);
    } else if z == y.(stores := z.stores) && StoreMuxMoves(y.stores, z.stores) {
      StoreMuxKeeps(k, w, y, z);
    } else if FedCycles(y, z) {
      var a: Availability, ready :| |a.loadReqs| == |y.rest.ports| && |ready| == |y.values.pipes| && z == FedQueueStep(y, a, ready);
      FedQueueKeeps(k, w, y, a, ready);
    } else {
      RestKeeps(k, w, y, z);
    }
  }

  ghost predicate FedRun(k: Kernel, w: Wiring, run: seq<Fed>)
  {
    && run != [] && FedInitial(k, w, run[0])
    && forall i :: 0 <= i < |run| - 1 ==> FedNext(k, w, run[i], run[i + 1])
  }

  lemma {:induction false} FedRunKeeps(k: Kernel, w: Wiring, run: seq<Fed>, i: nat)
    requires FedRun(k, w, run) && Wired(k, w, run[0].rest.queue.speculation) && i < |run|
    ensures FedInvariant(k, w, run[i])
  {
    if i == 0 {
      FedInitialHolds(k, w, run[0]);
    } else {
      FedRunKeeps(k, w, run, i - 1);
      assert FedNext(k, w, run[i - 1], run[i - 1 + 1]);
      FedNextKeeps(k, w, run[i - 1], run[i]);
    }
  }

  /** With any number of store request and store value ports, any distribution of the stores over
      them and any timing of pipes and muxes: at every step of every run the compute unit has
      received the values of sequential execution, and the memory, with the stores in flight
      landed, is the sequential memory after the store values consumed so far. */
  lemma {:induction false} FedRunsAreSequential(k: Kernel, w: Wiring, run: seq<Fed>, i: nat)
    requires FedRun(k, w, run) && Wired(k, w, run[0].rest.queue.speculation) && i < |run|
    ensures run[i].rest.cu <= |k.ops| && run[i].rest.received == Exec(k, run[i].rest.cu).loaded
    ensures Regular(TraceOf(k)) && run[i].rest.consumed <= |TraceOf(k).stores|
    ensures Landed(run[i].rest.memory, run[i].rest.flight) == MemoryAfter(TraceOf(k), run[i].rest.consumed)
  {
    FedRunKeeps(k, w, run, i);
    ReceivedIsLoaded(k, w, run[i]);
  }
}
