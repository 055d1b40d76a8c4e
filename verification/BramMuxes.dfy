/**
 The on-chip queue behind its muxes.

 Every load, store request and store value port is a pipe of its own; three mux kernels merge
 them by tag into the pipes the queue reads.  Together with the pipes before and behind it a
 mux is one ordered stream: whatever the muxes and pipes do, a step of this system is a step
 of the system with one stream each, or nothing at all, and the received values and the
 memory are those of sequential execution.
 */
module BramMuxes {
  import opened Wrappers
  import opened Slices
  import opened Lanes
  import opened Lines
  import opened Traces
  import opened BramQueue
  import opened BramInvariant
  import opened Kernels
  import opened BramSystem
  import TagMux

  // --------------------------------------------------------------------- the whole system

  /** Ports, the port of every store request and store value, and pipe capacities. */
  datatype Wiring = Wiring(loadPorts: nat, storePorts: nat, valuePorts: nat, storePort: nat -> nat, valuePort: nat -> nat,
                           before: nat, behind: nat, answers: nat)

  datatype Muxed = Muxed(
    queue: State, progress: Progress,
    agu: nat, aguTag: nat, aguLoads: nat, stores: Line<StoreReq>, loads: Line<LoadReq>,
    cu: nat, cuStores: nat, received: seq<int>, values: Line<StoreVal>, answers: seq<seq<int>>)

  /** Before the mux the last field of a load request holds its tag, behind it the port. */
  function AttachPort(port: nat, req: LoadReq): LoadReq
  {
    req.(port := port)
  }

  function Unchanged<V>(port: nat, v: V): V
  {
    v
  }

  ghost function SentStores(k: Kernel, w: Wiring, n: nat): (r: seq<Laned<StoreReq>>)
    requires n <= |k.ops|
  {
    var s := StoresIn(k.ops, n);
    seq(|s|, i requires 0 <= i < |s| => Laned(w.storePort(i), s[i]))
  }

  ghost function SentLoads(k: Kernel, n: nat): (r: seq<Laned<LoadReq>>)
    requires n <= |k.ops|
  {
    var s := LoadsIn(k.ops, n);
    seq(|s|, i requires 0 <= i < |s| => Laned(s[i].port, s[i].(port := i)))
  }

  ghost function SentValues(k: Kernel, w: Wiring, n: nat): (r: seq<Laned<StoreVal>>)
    requires InBounds(k) && n <= |k.ops|
  {
    var s := Exec(k, n).stored;
    seq(|s|, i requires 0 <= i < |s| => Laned(w.valuePort(i), s[i]))
  }

  ghost predicate Wired(k: Kernel, w: Wiring, speculation: bool)
  {
    && InBounds(k) && w.loadPorts >= 1 && w.answers >= 1
    && (forall i :: 0 <= i < |k.ops| && k.ops[i].Load? ==> k.ops[i].port < w.loadPorts)
    && (forall i :: w.storePort(i) < w.storePorts && w.valuePort(i) < w.valuePorts)
    && (speculation || forall i, h :: k.compute(i, h).valid)
  }

  predicate AguReady(k: Kernel, w: Wiring, y: Muxed)
  {
    && y.agu < |k.ops|
    && match k.ops[y.agu]
       case Load(_, port) => port < |y.loads.pipes| && |y.loads.pipes[port]| < w.before
       case Store(_) => w.storePort(y.aguTag) < |y.stores.pipes| && |y.stores.pipes[w.storePort(y.aguTag)]| < w.before
  }

  function AguStep(k: Kernel, w: Wiring, y: Muxed): Muxed
    requires AguReady(k, w, y)
  {
    match k.ops[y.agu]
    case Load(addr, port) =>
      y.(agu := y.agu + 1, aguLoads := y.aguLoads + 1,
         loads := Send(y.loads, port, y.aguLoads, LoadReq(addr, y.aguTag, y.aguLoads)))
    case Store(addr) =>
      y.(agu := y.agu + 1, aguTag := y.aguTag + 1,
         stores := Send(y.stores, w.storePort(y.aguTag), y.aguTag + 1, StoreReq(addr, y.aguTag + 1)))
  }

  predicate CuReady(k: Kernel, w: Wiring, y: Muxed)
  {
    && y.cu < |k.ops|
    && match k.ops[y.cu]
       case Load(_, port) => port < |y.answers| && y.answers[port] != []
       case Store(_) => w.valuePort(y.cuStores) < |y.values.pipes| && |y.values.pipes[w.valuePort(y.cuStores)]| < w.before
  }

  function CuStep(k: Kernel, w: Wiring, y: Muxed): Muxed
    requires CuReady(k, w, y)
  {
    match k.ops[y.cu]
    case Load(_, port) =>
      y.(cu := y.cu + 1, received := y.received + [y.answers[port][0]], answers := y.answers[port := y.answers[port][1..]])
    case Store(_) =>
      y.(cu := y.cu + 1, cuStores := y.cuStores + 1,
         values := Send(y.values, w.valuePort(y.cuStores), y.cuStores + 1, k.compute(y.cu, y.received)))
  }

  function OffersOf(w: Wiring, y: Muxed, a: Availability): Offers
    requires |a.room| == |y.answers|
  {
    Offers(
      Front(y.values.out, a.storeVal), Front(y.loads.out, a.loadReq), Front(y.stores.out, a.storeReq),
      seq(|y.answers|, p requires 0 <= p < |y.answers| => a.room[p] && |y.answers[p]| < w.answers), a.junk)
  }

  ghost function QueueStep(w: Wiring, y: Muxed, a: Availability): Muxed
    requires Shaped(y.queue) && |a.room| == |y.answers|
  {
    var o := OffersOf(w, y, a);
    var fx := CycleEffects(y.queue, o);
    y.(queue := Cycle(y.queue, o), progress := ProgressNext(y.queue, y.progress, o),
       values := Taken(y.values, fx.tookVal), loads := Taken(y.loads, fx.tookLoad), stores := Taken(y.stores, fx.tookStore),
       answers := match fx.answer
                  case None => y.answers
                  case Some(Answer(port, value)) =>
                    if port < |y.answers| then y.answers[port := y.answers[port] + [value]] else y.answers)
  }

  ghost predicate MuxMoves<V>(w: Wiring, attach: (nat, V) -> V, line: Line<V>, next: Line<V>)
  {
    exists ready :: |ready| == |line.pipes| == |line.mux.held| && MuxReady(line, w.behind) && next == MuxStep(line, attach, ready)
  }

  ghost predicate MuxesStep(w: Wiring, y: Muxed, z: Muxed)
  {
    || (z == y.(stores := z.stores) && MuxMoves(w, Unchanged, y.stores, z.stores))
    || (z == y.(loads := z.loads) && MuxMoves(w, AttachPort, y.loads, z.loads))
    || (z == y.(values := z.values) && MuxMoves(w, Unchanged, y.values, z.values))
  }

  ghost predicate Next(k: Kernel, w: Wiring, y: Muxed, z: Muxed)
  {
    || (AguReady(k, w, y) && z == AguStep(k, w, y))
    || (CuReady(k, w, y) && z == CuStep(k, w, y))
    || MuxesStep(w, y, z)
    || (Shaped(y.queue) && exists a: Availability :: |a.room| == |y.answers| && z == QueueStep(w, y, a))
  }

  ghost predicate Fresh<V>(ports: nat, first: nat, line: Line<V>)
  {
    && |line.pipes| == |line.mux.held| == ports && line.mux.nextTag == first && line.out == []
    && forall p :: 0 <= p < ports ==> line.pipes[p] == [] && line.mux.held[p] == None
  }

  ghost predicate Initial(k: Kernel, w: Wiring, y: Muxed)
    requires InBounds(k)
  {
    && Reset(TraceOf(k), y.queue) && y.progress == Progress(0, 0, 0)
    && y.agu == 0 && y.aguTag == 0 && y.aguLoads == 0 && y.cu == 0 && y.cuStores == 0 && y.received == []
    && Fresh(w.storePorts, 1, y.stores) && Fresh(w.loadPorts, 0, y.loads) && Fresh(w.valuePorts, 1, y.values)
    && |y.answers| == w.loadPorts && (forall p :: 0 <= p < w.loadPorts ==> y.answers[p] == [])
  }

  // ------------------------------------------------------ the system with single streams

  /** Pipes that hold everything sent. */
  function Wide(k: Kernel, w: Wiring): Config
  {
    Config(w.loadPorts, |k.ops| + 1, |k.ops| + 1, |k.ops| + 1, w.answers)
  }

  ghost predicate Counted(k: Kernel, y: Muxed)
  {
    && InBounds(k) && y.agu <= |k.ops| && y.cu <= |k.ops|
    && y.queue.lastStoreTag <= |StoresIn(k.ops, y.agu)| && y.progress.accepted <= |LoadsIn(k.ops, y.agu)|
    && y.progress.consumed <= |Exec(k, y.cu).stored|
  }

  /** Everything sent and not yet taken by the queue, in order. */
  ghost function Single(k: Kernel, y: Muxed): System
    requires Counted(k, y)
  {
    System(y.queue, y.progress, y.agu, y.aguTag, StoresIn(k.ops, y.agu)[y.queue.lastStoreTag..],
      LoadsIn(k.ops, y.agu)[y.progress.accepted..], y.cu, y.received, Exec(k, y.cu).stored[y.progress.consumed..], y.answers)
  }

  ghost predicate LinesHold(k: Kernel, w: Wiring, y: Muxed)
    requires Counted(k, y)
  {
    && StoresHold(w, SentStores(k, w, y.agu), y.stores, y.queue.lastStoreTag)
    && LoadsHold(w, SentLoads(k, y.agu), y.loads, y.progress.accepted)
    && ValuesHold(w, SentValues(k, w, y.cu), y.values, y.progress.consumed)
  }

  ghost predicate StoresHold(w: Wiring, all: seq<Laned<StoreReq>>, line: Line<StoreReq>, taken: nat)
  {
    |line.pipes| == |line.mux.held| == w.storePorts && LineHolds(all, 1, Unchanged, line, taken)
  }

  ghost predicate LoadsHold(w: Wiring, all: seq<Laned<LoadReq>>, line: Line<LoadReq>, taken: nat)
  {
    |line.pipes| == |line.mux.held| == w.loadPorts && LineHolds(all, 0, AttachPort, line, taken)
  }

  ghost predicate ValuesHold(w: Wiring, all: seq<Laned<StoreVal>>, line: Line<StoreVal>, taken: nat)
  {
    |line.pipes| == |line.mux.held| == w.valuePorts && LineHolds(all, 1, Unchanged, line, taken)
  }

  ghost predicate TagsHold(k: Kernel, y: Muxed)
    requires Counted(k, y)
  {
    y.aguTag == |StoresIn(k.ops, y.agu)| && y.aguLoads == |LoadsIn(k.ops, y.agu)| && y.cuStores == |Exec(k, y.cu).stored|
  }

  ghost predicate MuxedInvariant(k: Kernel, w: Wiring, y: Muxed)
  {
    Counted(k, y) && TagsHold(k, y) && LinesHold(k, w, y) && SoundAndSystem(k, Wide(k, w), Single(k, y))
  }

  lemma InitialHolds(k: Kernel, w: Wiring, y: Muxed)
    requires Wired(k, w, y.queue.speculation) && Initial(k, w, y)
    ensures MuxedInvariant(k, w, y)
  {
    LineStarts(w.storePorts, 1, Unchanged<StoreReq>, y.stores);
    LineStarts(w.loadPorts, 0, AttachPort, y.loads);
    LineStarts(w.valuePorts, 1, Unchanged<StoreVal>, y.values);
    assert SentStores(k, w, 0) == [] && SentLoads(k, 0) == [] && SentValues(k, w, 0) == [];
    BramSystem.InitialHolds(k, Wide(k, w), Single(k, y));
  }

  // ------------------------------------------------------------------ the address generator

  lemma AguIsSingle(k: Kernel, w: Wiring, y: Muxed)
    requires Counted(k, y) && AguReady(k, w, y)
    ensures Counted(k, AguStep(k, w, y))
    ensures y.aguTag == |StoresIn(k.ops, y.agu)| ==> Single(k, AguStep(k, w, y)) == BramSystem.AguStep(k, Single(k, y))
  {
    var i := y.agu;
    var s, l := StoresIn(k.ops, i), LoadsIn(k.ops, i);
    match k.ops[i]
    case Load(addr, port) =>
      assert LoadsIn(k.ops, i + 1) == l + [LoadReq(addr, |s|, port)];
      assert LoadsIn(k.ops, i + 1)[y.progress.accepted..] == l[y.progress.accepted..] + [LoadReq(addr, |s|, port)];
    case Store(addr) =>
      assert StoresIn(k.ops, i + 1) == s + [StoreReq(addr, |s| + 1)];
      assert StoresIn(k.ops, i + 1)[y.queue.lastStoreTag..] == s[y.queue.lastStoreTag..] + [StoreReq(addr, |s| + 1)];
  }

  lemma LoadsGrow(k: Kernel, n: nat)
    requires n < |k.ops| && k.ops[n].Load?
    ensures var op, s, l := k.ops[n], StoresIn(k.ops, n), LoadsIn(k.ops, n);
      SentLoads(k, n + 1) == SentLoads(k, n) + [Laned(op.port, LoadReq(op.addr, |s|, |l|))]
  {
    var op, s, l := k.ops[n], StoresIn(k.ops, n), LoadsIn(k.ops, n);
    assert LoadsIn(k.ops, n + 1) == l + [LoadReq(op.addr, |s|, op.port)];
  }

  lemma StoresGrow(k: Kernel, w: Wiring, n: nat)
    requires n < |k.ops| && k.ops[n].Store?
    ensures var s := StoresIn(k.ops, n);
      SentStores(k, w, n + 1) == SentStores(k, w, n) + [Laned(w.storePort(|s|), StoreReq(k.ops[n].addr, |s| + 1))]
  {
    var s := StoresIn(k.ops, n);
    assert StoresIn(k.ops, n + 1) == s + [StoreReq(k.ops[n].addr, |s| + 1)];
  }

  lemma ValuesGrow(k: Kernel, w: Wiring, n: nat)
    requires InBounds(k) && n < |k.ops| && k.ops[n].Store?
    ensures var e := Exec(k, n);
      SentValues(k, w, n + 1) == SentValues(k, w, n) + [Laned(w.valuePort(|e.stored|), k.compute(n, e.loaded))]
  {
    var e := Exec(k, n);
    assert Exec(k, n + 1).stored == e.stored + [k.compute(n, e.loaded)];
  }

  lemma LoadSent(k: Kernel, w: Wiring, y: Muxed)
    requires y.agu < |k.ops| && k.ops[y.agu].Load? && k.ops[y.agu].port < |y.loads.pipes|
    requires LoadsHold(w, SentLoads(k, y.agu), y.loads, y.progress.accepted)
    requires y.aguTag == |StoresIn(k.ops, y.agu)| && y.aguLoads == |LoadsIn(k.ops, y.agu)|
    ensures var op := k.ops[y.agu];
      LoadsHold(w, SentLoads(k, y.agu + 1), Send(y.loads, op.port, y.aguLoads, LoadReq(op.addr, y.aguTag, y.aguLoads)), y.progress.accepted)
  {
    LoadsGrow(k, y.agu);
    var op := k.ops[y.agu];
    SendHolds(SentLoads(k, y.agu), 0, AttachPort, y.loads, y.progress.accepted, op.port, LoadReq(op.addr, y.aguTag, y.aguLoads));
  }

  lemma StoreSent(k: Kernel, w: Wiring, y: Muxed)
    requires y.agu < |k.ops| && k.ops[y.agu].Store? && w.storePort(y.aguTag) < |y.stores.pipes|
    requires StoresHold(w, SentStores(k, w, y.agu), y.stores, y.queue.lastStoreTag)
    requires y.aguTag == |StoresIn(k.ops, y.agu)|
    ensures StoresHold(w, SentStores(k, w, y.agu + 1),
      Send(y.stores, w.storePort(y.aguTag), y.aguTag + 1, StoreReq(k.ops[y.agu].addr, y.aguTag + 1)), y.queue.lastStoreTag)
  {
    StoresGrow(k, w, y.agu);
    SendHolds(SentStores(k, w, y.agu), 1, Unchanged, y.stores, y.queue.lastStoreTag, w.storePort(y.aguTag),
      StoreReq(k.ops[y.agu].addr, y.aguTag + 1));
  }

  lemma OnlyOneGrows(k: Kernel, w: Wiring, n: nat)
    requires n < |k.ops|
    ensures k.ops[n].Load? ==> SentStores(k, w, n + 1) == SentStores(k, w, n)
    ensures k.ops[n].Store? ==> SentLoads(k, n + 1) == SentLoads(k, n)
    ensures InBounds(k) && k.ops[n].Load? ==> SentValues(k, w, n + 1) == SentValues(k, w, n)
  {
  }

  lemma AguLoadHolds(k: Kernel, w: Wiring, y: Muxed)
    requires Counted(k, y) && LinesHold(k, w, y) && AguReady(k, w, y) && k.ops[y.agu].Load?
    requires TagsHold(k, y) && Counted(k, AguStep(k, w, y))
    ensures LinesHold(k, w, AguStep(k, w, y)) && TagsHold(k, AguStep(k, w, y))
  {
    OnlyOneGrows(k, w, y.agu);
    LoadSent(k, w, y);
  }

  lemma AguStoreHolds(k: Kernel, w: Wiring, y: Muxed)
    requires Counted(k, y) && LinesHold(k, w, y) && AguReady(k, w, y) && k.ops[y.agu].Store?
    requires TagsHold(k, y) && Counted(k, AguStep(k, w, y))
    ensures LinesHold(k, w, AguStep(k, w, y)) && TagsHold(k, AguStep(k, w, y))
  {
    OnlyOneGrows(k, w, y.agu);
    StoreSent(k, w, y);
  }

  lemma AguKeepsSingle(k: Kernel, w: Wiring, y: Muxed)
    requires MuxedInvariant(k, w, y) && AguReady(k, w, y)
    ensures var z := AguStep(k, w, y); Counted(k, z) && SoundAndSystem(k, Wide(k, w), Single(k, z))
    ensures y.aguTag == |StoresIn(k.ops, y.agu)|
  {
    AguIsSingle(k, w, y);
    BramSystem.AguKeeps(k, Wide(k, w), Single(k, y));
  }

  lemma AguKeeps(k: Kernel, w: Wiring, y: Muxed)
    requires MuxedInvariant(k, w, y) && AguReady(k, w, y)
    ensures MuxedInvariant(k, w, AguStep(k, w, y))
  {
    AguKeepsSingle(k, w, y);
    if k.ops[y.agu].Load? {
      AguLoadHolds(k, w, y);
    } else {
      AguStoreHolds(k, w, y);
    }
  }

  // ---------------------------------------------------------------------- the compute unit

  /** What the compute unit has received is what sequential execution has loaded. */
  lemma ReceivedIsLoaded(k: Kernel, w: Wiring, y: Muxed)
    requires MuxedInvariant(k, w, y)
    ensures y.received == Exec(k, y.cu).loaded
  {
    ExecGrows(k, y.cu, |k.ops|);
    ExecCounts(k, y.cu);
  }

  lemma CuIsSingle(k: Kernel, w: Wiring, y: Muxed)
    requires Counted(k, y) && CuReady(k, w, y) && y.received == Exec(k, y.cu).loaded
    requires BramSystem.CuReady(k, Wide(k, w), Single(k, y))
    ensures Counted(k, CuStep(k, w, y))
    ensures Single(k, CuStep(k, w, y)) == BramSystem.CuStep(k, Wide(k, w), Single(k, y))
  {
    var stored := Exec(k, y.cu).stored;
    if k.ops[y.cu].Store? {
      var v := k.compute(y.cu, y.received);
      assert Exec(k, y.cu + 1).stored == stored + [v];
      assert Exec(k, y.cu + 1).stored[y.progress.consumed..] == stored[y.progress.consumed..] + [v];
    } else {
      assert Exec(k, y.cu + 1).stored == stored;
    }
  }

  lemma ValueSent(k: Kernel, w: Wiring, y: Muxed)
    requires InBounds(k) && y.cu < |k.ops| && k.ops[y.cu].Store? && w.valuePort(y.cuStores) < |y.values.pipes|
    requires ValuesHold(w, SentValues(k, w, y.cu), y.values, y.progress.consumed)
    requires y.received == Exec(k, y.cu).loaded && y.cuStores == |Exec(k, y.cu).stored|
    ensures ValuesHold(w, SentValues(k, w, y.cu + 1),
      Send(y.values, w.valuePort(y.cuStores), y.cuStores + 1, k.compute(y.cu, y.received)), y.progress.consumed)
  {
    ValuesGrow(k, w, y.cu);
    SendHolds(SentValues(k, w, y.cu), 1, Unchanged, y.values, y.progress.consumed, w.valuePort(y.cuStores), k.compute(y.cu, y.received));
  }

  lemma CuLinesHold(k: Kernel, w: Wiring, y: Muxed)
    requires Counted(k, y) && LinesHold(k, w, y) && CuReady(k, w, y)
    requires y.received == Exec(k, y.cu).loaded && y.cuStores == |Exec(k, y.cu).stored| && Counted(k, CuStep(k, w, y))
    ensures LinesHold(k, w, CuStep(k, w, y)) && CuStep(k, w, y).cuStores == |Exec(k, y.cu + 1).stored|
  {
    OnlyOneGrows(k, w, y.cu);
    if k.ops[y.cu].Store? {
      ValueSent(k, w, y);
    }
  }

  lemma CuTagsHold(k: Kernel, w: Wiring, y: Muxed)
    requires Counted(k, y) && TagsHold(k, y) && CuReady(k, w, y) && Counted(k, CuStep(k, w, y))
    requires CuStep(k, w, y).cuStores == |Exec(k, y.cu + 1).stored|
    ensures TagsHold(k, CuStep(k, w, y))
  {
  }

  lemma CuKeepsSingle(k: Kernel, w: Wiring, y: Muxed)
    requires MuxedInvariant(k, w, y) && CuReady(k, w, y)
    ensures var z := CuStep(k, w, y); Counted(k, z) && SoundAndSystem(k, Wide(k, w), Single(k, z))
    ensures y.received == Exec(k, y.cu).loaded
  {
    ReceivedIsLoaded(k, w, y);
    RoomForValue(k, w, y);
    CuIsSingle(k, w, y);
    BramSystem.CuKeeps(k, Wide(k, w), Single(k, y));
  }

  lemma RoomForValue(k: Kernel, w: Wiring, y: Muxed)
    requires Counted(k, y) && CuReady(k, w, y)
    ensures BramSystem.CuReady(k, Wide(k, w), Single(k, y))
  {
    ExecCounts(k, y.cu);
  }

  lemma CuKeeps(k: Kernel, w: Wiring, y: Muxed)
    requires MuxedInvariant(k, w, y) && CuReady(k, w, y)
    ensures MuxedInvariant(k, w, CuStep(k, w, y))
  {
    CuKeepsSingle(k, w, y);
    CuLinesHold(k, w, y);
    CuTagsHold(k, w, y);
  }

  // --------------------------------------------------------------------------- the queue

  /** The same availability for the single streams: what is still in a mux is not available. */
  function Behind(y: Muxed, a: Availability): Availability
  {
    a.(storeVal := a.storeVal && y.values.out != [], loadReq := a.loadReq && y.loads.out != [],
       storeReq := a.storeReq && y.stores.out != [])
  }

  lemma OffersAreSingle(k: Kernel, w: Wiring, y: Muxed, a: Availability)
    requires Counted(k, y) && LinesHold(k, w, y) && |a.room| == |y.answers|
    ensures OffersOf(w, y, a) == BramSystem.OffersOf(Wide(k, w), Single(k, y), Behind(y, a))
  {
    TakeHolds(SentStores(k, w, y.agu), 1, Unchanged, y.stores, y.queue.lastStoreTag, false);
    TakeHolds(SentLoads(k, y.agu), 0, AttachPort, y.loads, y.progress.accepted, false);
    TakeHolds(SentValues(k, w, y.cu), 1, Unchanged, y.values, y.progress.consumed, false);
    var o, p := OffersOf(w, y, a), BramSystem.OffersOf(Wide(k, w), Single(k, y), Behind(y, a));
    assert o.room == p.room;
  }

  lemma RestOfTail<T>(all: seq<T>, n: nat, take: bool)
    requires n <= |all| && (take ==> all[n..] != [])
    ensures n + (if take then 1 else 0) <= |all| && Rest(all[n..], take) == all[n + if take then 1 else 0..]
  {
  }

  /** What the cycle takes, in terms of the offers from behind the muxes. */
  lemma TakenFromBehind(k: Kernel, w: Wiring, y: Muxed, a: Availability)
    requires MuxedInvariant(k, w, y) && |a.room| == |y.answers|
    ensures var z, o, s := QueueStep(w, y, a), OffersOf(w, y, a), Single(k, y);
      var fx := CycleEffects(y.queue, o);
      && o == BramSystem.OffersOf(Wide(k, w), s, Behind(y, a))
      && z.queue.lastStoreTag == y.queue.lastStoreTag + (if fx.tookStore then 1 else 0)
      && z.progress.accepted == y.progress.accepted + (if fx.tookLoad then 1 else 0)
      && z.progress.consumed == y.progress.consumed + (if fx.tookVal then 1 else 0)
      && (fx.tookStore ==> s.storeReqs != [] && y.stores.out != []) && (fx.tookLoad ==> s.loadReqs != [] && y.loads.out != [])
      && (fx.tookVal ==> s.storeVals != [] && y.values.out != [])
  {
    OffersAreSingle(k, w, y, a);
    RequestsTaken(k, Wide(k, w), Single(k, y), Behind(y, a));
    AnswersSent(k, Wide(k, w), Single(k, y), Behind(y, a));
  }

  lemma QueueIsSingle(k: Kernel, w: Wiring, y: Muxed, a: Availability)
    requires MuxedInvariant(k, w, y) && |a.room| == |y.answers|
    ensures Counted(k, QueueStep(w, y, a))
    ensures Single(k, QueueStep(w, y, a)) == BramSystem.QueueStep(Wide(k, w), Single(k, y), Behind(y, a))
  {
    TakenFromBehind(k, w, y, a);
    StepIsSingle(k, w, y, a);
  }

  lemma StepIsSingle(k: Kernel, w: Wiring, y: Muxed, a: Availability)
    requires Counted(k, y) && Shaped(y.queue) && |a.room| == |y.answers|
    requires OffersOf(w, y, a) == BramSystem.OffersOf(Wide(k, w), Single(k, y), Behind(y, a))
    requires var z, fx, s := QueueStep(w, y, a), CycleEffects(y.queue, OffersOf(w, y, a)), Single(k, y);
      && z.queue.lastStoreTag == y.queue.lastStoreTag + (if fx.tookStore then 1 else 0)
      && z.progress.accepted == y.progress.accepted + (if fx.tookLoad then 1 else 0)
      && z.progress.consumed == y.progress.consumed + (if fx.tookVal then 1 else 0)
      && (fx.tookStore ==> s.storeReqs != []) && (fx.tookLoad ==> s.loadReqs != []) && (fx.tookVal ==> s.storeVals != [])
    ensures Counted(k, QueueStep(w, y, a))
    ensures Single(k, QueueStep(w, y, a)) == BramSystem.QueueStep(Wide(k, w), Single(k, y), Behind(y, a))
  {
    var fx := CycleEffects(y.queue, OffersOf(w, y, a));
    RestOfTail(StoresIn(k.ops, y.agu), y.queue.lastStoreTag, fx.tookStore);
    RestOfTail(LoadsIn(k.ops, y.agu), y.progress.accepted, fx.tookLoad);
    RestOfTail(Exec(k, y.cu).stored, y.progress.consumed, fx.tookVal);
  }

  lemma LinesTaken(k: Kernel, w: Wiring, y: Muxed, z: Muxed, fx: Effects)
    requires Counted(k, y) && Counted(k, z) && LinesHold(k, w, y) && z.agu == y.agu && z.cu == y.cu
    requires z.stores == Taken(y.stores, fx.tookStore) && (fx.tookStore ==> y.stores.out != [])
    requires z.loads == Taken(y.loads, fx.tookLoad) && (fx.tookLoad ==> y.loads.out != [])
    requires z.values == Taken(y.values, fx.tookVal) && (fx.tookVal ==> y.values.out != [])
    requires z.queue.lastStoreTag == y.queue.lastStoreTag + (if fx.tookStore then 1 else 0)
    requires z.progress.accepted == y.progress.accepted + (if fx.tookLoad then 1 else 0)
    requires z.progress.consumed == y.progress.consumed + (if fx.tookVal then 1 else 0)
    ensures LinesHold(k, w, z)
  {
    StoresTaken(w, SentStores(k, w, y.agu), y.stores, y.queue.lastStoreTag, fx.tookStore);
    LoadsTaken(w, SentLoads(k, y.agu), y.loads, y.progress.accepted, fx.tookLoad);
    ValuesTaken(w, SentValues(k, w, y.cu), y.values, y.progress.consumed, fx.tookVal);
  }

  lemma StoresTaken(w: Wiring, all: seq<Laned<StoreReq>>, line: Line<StoreReq>, taken: nat, take: bool)
    requires StoresHold(w, all, line, taken) && (take ==> line.out != [])
    ensures StoresHold(w, all, Taken(line, take), taken + if take then 1 else 0)
  {
    TakeHolds(all, 1, Unchanged, line, taken, take);
  }

  lemma LoadsTaken(w: Wiring, all: seq<Laned<LoadReq>>, line: Line<LoadReq>, taken: nat, take: bool)
    requires LoadsHold(w, all, line, taken) && (take ==> line.out != [])
    ensures LoadsHold(w, all, Taken(line, take), taken + if take then 1 else 0)
  {
    TakeHolds(all, 0, AttachPort, line, taken, take);
  }

  lemma ValuesTaken(w: Wiring, all: seq<Laned<StoreVal>>, line: Line<StoreVal>, taken: nat, take: bool)
    requires ValuesHold(w, all, line, taken) && (take ==> line.out != [])
    ensures ValuesHold(w, all, Taken(line, take), taken + if take then 1 else 0)
  {
    TakeHolds(all, 1, Unchanged, line, taken, take);
  }

  lemma QueueLinesHold(k: Kernel, w: Wiring, y: Muxed, a: Availability)
    requires MuxedInvariant(k, w, y) && |a.room| == |y.answers| && Counted(k, QueueStep(w, y, a))
    ensures LinesHold(k, w, QueueStep(w, y, a))
  {
    TakenFromBehind(k, w, y, a);
    LinesTaken(k, w, y, QueueStep(w, y, a), CycleEffects(y.queue, OffersOf(w, y, a)));
  }

  lemma QueueKeeps(k: Kernel, w: Wiring, y: Muxed, a: Availability)
    requires MuxedInvariant(k, w, y) && |a.room| == |y.answers|
    ensures MuxedInvariant(k, w, QueueStep(w, y, a))
  {
    QueueIsSingle(k, w, y, a);
    QueueLinesHold(k, w, y, a);
    BramSystem.QueueKeeps(k, Wide(k, w), Single(k, y), Behind(y, a));
  }

  // --------------------------------------------------------------------------- the muxes

  lemma MoveHolds<V>(w: Wiring, all: seq<Laned<V>>, first: nat, attach: (nat, V) -> V, line: Line<V>, next: Line<V>, taken: nat)
    requires LineHolds(all, first, attach, line, taken) && MuxMoves(w, attach, line, next)
    ensures LineHolds(all, first, attach, next, taken)
    ensures |next.pipes| == |line.pipes| && |next.mux.held| == |line.mux.held|
  {
    var ready :| |ready| == |line.pipes| == |line.mux.held| && MuxReady(line, w.behind) && next == MuxStep(line, attach, ready);
    MuxHolds(all, first, attach, line, taken, ready);
  }

  lemma LinesKeep(k: Kernel, w: Wiring, y: Muxed, z: Muxed)
    requires Counted(k, y) && LinesHold(k, w, y) && MuxesStep(w, y, z)
    ensures Counted(k, z) && LinesHold(k, w, z) && Single(k, z) == Single(k, y)
  {
    if z == y.(stores := z.stores) && MuxMoves(w, Unchanged, y.stores, z.stores) {
      MoveHolds(w, SentStores(k, w, y.agu), 1, Unchanged, y.stores, z.stores, y.queue.lastStoreTag);
    } else if z == y.(loads := z.loads) && MuxMoves(w, AttachPort, y.loads, z.loads) {
      MoveHolds(w, SentLoads(k, y.agu), 0, AttachPort, y.loads, z.loads, y.progress.accepted);
    } else {
      MoveHolds(w, SentValues(k, w, y.cu), 1, Unchanged, y.values, z.values, y.progress.consumed);
    }
  }

  lemma MuxesKeep(k: Kernel, w: Wiring, y: Muxed, z: Muxed)
    requires MuxedInvariant(k, w, y) && MuxesStep(w, y, z)
    ensures MuxedInvariant(k, w, z) && Single(k, z) == Single(k, y)
  {
    LinesKeep(k, w, y, z);
  }

  // ----------------------------------------------------------------------------- all runs

  lemma NextKeeps(k: Kernel, w: Wiring, y: Muxed, z: Muxed)
    requires MuxedInvariant(k, w, y) && Next(k, w, y, z)
    ensures MuxedInvariant(k, w, z) && z.queue.speculation == y.queue.speculation
  {
    if AguReady(k, w, y) && z == AguStep(k, w, y) {
      AguKeeps(k, w, y);
    } else if CuReady(k, w, y) && z == CuStep(k, w, y) {
      CuKeeps(k, w, y);
    } else if MuxesStep(w, y, z) {
      MuxesKeep(k, w, y, z);
    } else {
      var a: Availability :| |a.room| == |y.answers| && z == QueueStep(w, y, a);
      QueueKeeps(k, w, y, a);
    }
  }

  ghost predicate Run(k: Kernel, w: Wiring, run: seq<Muxed>)
    requires InBounds(k)
  {
    && run != [] && Initial(k, w, run[0])
    && forall i :: 0 <= i < |run| - 1 ==> Next(k, w, run[i], run[i + 1])
  }

  lemma {:induction false} RunKeeps(k: Kernel, w: Wiring, run: seq<Muxed>, i: nat)
    requires run != [] && Wired(k, w, run[0].queue.speculation) && Run(k, w, run) && i < |run|
    ensures MuxedInvariant(k, w, run[i])
  {
    if i == 0 {
      InitialHolds(k, w, run[0]);
    } else {
      RunKeeps(k, w, run, i - 1);
      NextKeeps(k, w, run[i - 1], run[i]);
    }
  }

  /** With any number of ports, any distribution of the requests and values over them, and any
      timing of pipes and muxes: at every step of every run the compute unit has received the
      values of sequential execution, and the memory is the sequential memory after the store
      values consumed so far. */
  lemma RunsAreSequential(k: Kernel, w: Wiring, run: seq<Muxed>, i: nat)
    requires run != [] && Wired(k, w, run[0].queue.speculation) && Run(k, w, run) && i < |run|
    ensures run[i].cu <= |k.ops| && run[i].received == Exec(k, run[i].cu).loaded
    ensures Regular(TraceOf(k)) && run[i].progress.consumed <= |TraceOf(k).stores|
    ensures run[i].queue.data == MemoryAfter(TraceOf(k), run[i].progress.consumed)
  {
    RunKeeps(k, w, run, i);
    ReceivedIsLoaded(k, w, run[i]);
  }
}
