module BramSystem {
  // The on-chip queue together with its two clients.
  //
  // The address generator and the compute unit walk the kernel's operations in order and
  // independently of each other.  Pipes are bounded FIFOs; in any cycle any of them may be
  // unavailable.  The main result, `RunsAreSequential`, says that whatever the interleaving,
  // the compute unit receives exactly the values of sequential execution.

  import opened Slices
  import opened Lanes
  import opened Traces
  import opened BramQueue
  import opened BramInvariant
  import opened Kernels

  /** Number of load ports, and pipe capacities. */
  datatype Config = Config(ports: nat, loadReqs: nat, storeReqs: nat, storeVals: nat, answers: nat)

  datatype System = System(
    queue: State, progress: Progress,
    agu: nat, aguTag: nat, storeReqs: seq<StoreReq>, loadReqs: seq<LoadReq>,
    cu: nat, received: seq<int>, storeVals: seq<StoreVal>, answers: seq<seq<int>>)

  /** Which pipes respond to the queue in a cycle. */
  datatype Availability = Availability(storeVal: bool, loadReq: bool, storeReq: bool, room: seq<bool>, junk: nat)

  ghost predicate Sound(k: Kernel, c: Config, speculation: bool)
  {
    && InBounds(k)
    && c.ports >= 1 && c.loadReqs >= 1 && c.storeReqs >= 1 && c.storeVals >= 1 && c.answers >= 1
    && (forall i :: 0 <= i < |k.ops| && k.ops[i].Load? ==> k.ops[i].port < c.ports)
    && (speculation || forall i, h :: k.compute(i, h).valid)
  }

  // ---------------------------------------------------------------------- the actions

  predicate AguReady(k: Kernel, c: Config, y: System)
  {
    && y.agu < |k.ops|
    && (if k.ops[y.agu].Load? then |y.loadReqs| < c.loadReqs else |y.storeReqs| < c.storeReqs)
  }

  function AguStep(k: Kernel, y: System): System
    requires y.agu < |k.ops|
  {
    match k.ops[y.agu]
    case Load(addr, port) =>
      y.(agu := y.agu + 1, loadReqs := y.loadReqs + [LoadReq(addr, y.aguTag, port)])
    case Store(addr) =>
      y.(agu := y.agu + 1, aguTag := y.aguTag + 1, storeReqs := y.storeReqs + [StoreReq(addr, y.aguTag + 1)])
  }

  /** Load values are read with blocking pipe reads, in program order. */
  predicate CuReady(k: Kernel, c: Config, y: System)
  {
    && y.cu < |k.ops|
    && (match k.ops[y.cu]
        case Load(_, port) => port < |y.answers| && y.answers[port] != []
        case Store(_) => |y.storeVals| < c.storeVals)
  }

  function CuStep(k: Kernel, c: Config, y: System): System
    requires CuReady(k, c, y)
  {
    match k.ops[y.cu]
    case Load(_, port) =>
      y.(cu := y.cu + 1, received := y.received + [y.answers[port][0]], answers := y.answers[port := y.answers[port][1..]])
    case Store(_) =>
      y.(cu := y.cu + 1, storeVals := y.storeVals + [k.compute(y.cu, y.received)])
  }

  function OffersOf(c: Config, y: System, a: Availability): Offers
    requires |a.room| == |y.answers|
  {
    Offers(
      Front(y.storeVals, a.storeVal), Front(y.loadReqs, a.loadReq), Front(y.storeReqs, a.storeReq),
      seq(|y.answers|, p requires 0 <= p < |y.answers| => a.room[p] && |y.answers[p]| < c.answers), a.junk)
  }

  ghost function QueueStep(c: Config, y: System, a: Availability): System
    requires Shaped(y.queue) && |a.room| == |y.answers|
  {
    var o := OffersOf(c, y, a);
    var fx := CycleEffects(y.queue, o);
    y.(queue := Cycle(y.queue, o), progress := ProgressNext(y.queue, y.progress, o),
       storeVals := Rest(y.storeVals, fx.tookVal), loadReqs := Rest(y.loadReqs, fx.tookLoad),
       storeReqs := Rest(y.storeReqs, fx.tookStore),
       answers := match fx.answer
                  case None => y.answers
                  case Some(Answer(port, value)) =>
                    if port < |y.answers| then y.answers[port := y.answers[port] + [value]] else y.answers)
  }

  ghost predicate Next(k: Kernel, c: Config, y: System, z: System)
  {
    || (AguReady(k, c, y) && z == AguStep(k, y))
    || (CuReady(k, c, y) && z == CuStep(k, c, y))
    || (Shaped(y.queue) && exists a: Availability :: |a.room| == |y.answers| && z == QueueStep(c, y, a))
  }

  ghost predicate Initial(k: Kernel, c: Config, y: System)
    requires InBounds(k)
  {
    && Reset(TraceOf(k), y.queue) && y.progress == Progress(0, 0, 0)
    && y.agu == 0 && y.aguTag == 0 && y.storeReqs == [] && y.loadReqs == []
    && y.cu == 0 && y.received == [] && y.storeVals == []
    && |y.answers| == c.ports && (forall p :: 0 <= p < c.ports ==> y.answers[p] == [])
  }

  // -------------------------------------------------------------------- the invariant

  /** Load results, each with the port it is returned on. */
  ghost function Results(t: Trace): seq<Laned<int>>
    requires |t.loads| == |t.results|
  {
    seq(|t.loads|, i requires 0 <= i < |t.loads| => Laned(t.loads[i].port, t.results[i]))
  }

  ghost predicate AguInvariant(k: Kernel, t: Trace, y: System)
  {
    && y.agu <= |k.ops|
    && y.aguTag == |StoresIn(k.ops, y.agu)|
    && y.queue.lastStoreTag <= |StoresIn(k.ops, y.agu)| <= |t.stores|
    && y.storeReqs == t.stores[y.queue.lastStoreTag..|StoresIn(k.ops, y.agu)|]
    && y.progress.accepted <= |LoadsIn(k.ops, y.agu)| <= |t.loads|
    && y.loadReqs == t.loads[y.progress.accepted..|LoadsIn(k.ops, y.agu)|]
  }

  ghost predicate CuInvariant(k: Kernel, t: Trace, y: System)
  {
    && y.cu <= |k.ops|
    && |t.loads| == |t.results|
    && y.progress.consumed <= |StoresIn(k.ops, y.cu)| <= |t.values|
    && y.storeVals == t.values[y.progress.consumed..|StoresIn(k.ops, y.cu)|]
    && |LoadsIn(k.ops, y.cu)| <= y.progress.answered <= |t.loads|
    && y.received == t.results[..|LoadsIn(k.ops, y.cu)|]
    && (forall p :: 0 <= p < |y.answers| ==>
          y.answers[p] == Lane(Results(t)[|LoadsIn(k.ops, y.cu)|..y.progress.answered], p))
  }

  ghost predicate SystemInvariant(k: Kernel, c: Config, y: System)
    requires InBounds(k)
  {
    var t := TraceOf(k);
    && Invariant(t, y.queue, y.progress)
    && AguInvariant(k, t, y)
    && CuInvariant(k, t, y)
    && |y.answers| == c.ports
  }

  ghost predicate SoundAndSystem(k: Kernel, c: Config, y: System)
  {
    Sound(k, c, y.queue.speculation) && SystemInvariant(k, c, y)
  }

  lemma InitialHolds(k: Kernel, c: Config, y: System)
    requires Sound(k, c, y.queue.speculation) && Initial(k, c, y)
    ensures SystemInvariant(k, c, y)
  {
    TraceIsSequential(k);
    if !y.queue.speculation {
      ValuesAreValid(k, |k.ops|);
    }
    ResetIsInvariant(TraceOf(k), y.queue);
  }

  lemma AguSends(k: Kernel, y: System)
    requires InBounds(k) && AguInvariant(k, TraceOf(k), y) && y.agu < |k.ops|
    ensures AguInvariant(k, TraceOf(k), AguStep(k, y))
  {
    var t := TraceOf(k);
    match k.ops[y.agu]
    case Load(addr, port) =>
      LoadAt(k, y.agu);
      SliceMoves(t.loads, y.progress.accepted, |LoadsIn(k.ops, y.agu)|, false, true);
    case Store(addr) =>
      StoreAt(k, y.agu);
      SliceMoves(t.stores, y.queue.lastStoreTag, |StoresIn(k.ops, y.agu)|, false, true);
  }

  lemma AguKeeps(k: Kernel, c: Config, y: System)
    requires SoundAndSystem(k, c, y) && AguReady(k, c, y)
    ensures SystemInvariant(k, c, AguStep(k, y))
  {
    AguSends(k, y);
  }

  lemma ReceiveAnswer(results: seq<Laned<int>>, m: nat, r: nat, p: nat)
    requires m < r <= |results|
    ensures var front := Lane(results[m..r], p);
      Lane(results[m + 1..r], p) == if p == results[m].port then Rest(front, true) else front
    ensures p == results[m].port ==> Lane(results[m..r], p) != [] && Lane(results[m..r], p)[0] == results[m].item
  {
    assert results[m..r][1..] == results[m + 1..r];
  }

  /** The oldest answer not yet received is at the front of its port's pipe. */
  lemma FrontAnswer(k: Kernel, y: System)
    requires InBounds(k) && CuInvariant(k, TraceOf(k), y) && y.cu < |k.ops| && k.ops[y.cu].Load?
    ensures var t, m, port := TraceOf(k), |LoadsIn(k.ops, y.cu)|, k.ops[y.cu].port;
      && m < |t.loads| && t.loads[m].port == port && t.loads[m].tag == |StoresIn(k.ops, y.cu)|
      && (m < y.progress.answered && port < |y.answers| ==> y.answers[port] != [] && y.answers[port][0] == t.results[m])
      && (m == y.progress.answered ==> forall p :: 0 <= p < |y.answers| ==> y.answers[p] == [])
  {
    LoadAt(k, y.cu);
    if |LoadsIn(k.ops, y.cu)| < y.progress.answered {
      ReceiveAnswer(Results(TraceOf(k)), |LoadsIn(k.ops, y.cu)|, y.progress.answered, k.ops[y.cu].port);
    }
  }

  lemma CuReceives(k: Kernel, c: Config, y: System)
    requires InBounds(k) && CuInvariant(k, TraceOf(k), y) && CuReady(k, c, y) && k.ops[y.cu].Load?
    ensures CuInvariant(k, TraceOf(k), CuStep(k, c, y))
  {
    var t, m, r := TraceOf(k), |LoadsIn(k.ops, y.cu)|, y.progress.answered;
    LoadAt(k, y.cu);
    FrontAnswer(k, y);
    var z := CuStep(k, c, y);
    forall p | 0 <= p < |z.answers|
      ensures z.answers[p] == Lane(Results(t)[m + 1..r], p)
    {
      ReceiveAnswer(Results(t), m, r, p);
    }
    assert z.received == t.results[..m + 1];
  }

  lemma CuSends(k: Kernel, c: Config, y: System)
    requires InBounds(k) && CuInvariant(k, TraceOf(k), y) && CuReady(k, c, y) && k.ops[y.cu].Store?
    ensures CuInvariant(k, TraceOf(k), CuStep(k, c, y))
  {
    StoreAt(k, y.cu);
    SliceMoves(TraceOf(k).values, y.progress.consumed, |StoresIn(k.ops, y.cu)|, false, true);
  }

  lemma CuKeeps(k: Kernel, c: Config, y: System)
    requires SoundAndSystem(k, c, y) && CuReady(k, c, y)
    ensures SystemInvariant(k, c, CuStep(k, c, y))
  {
    if k.ops[y.cu].Load? {
      CuReceives(k, c, y);
    } else {
      CuSends(k, c, y);
    }
  }

  /** What the pipes offer the queue is the next item of each stream. */
  lemma OffersInOrder(k: Kernel, c: Config, y: System, a: Availability)
    requires SoundAndSystem(k, c, y) && |a.room| == |y.answers|
    ensures InOrder(TraceOf(k), y.queue, y.progress, OffersOf(c, y, a))
  {
    var t := TraceOf(k);
    PortsInRange(k.ops, |k.ops|, c.ports);
    LaterLoadsLaterTags(k.ops, y.cu, |k.ops|);
  }

  lemma SendAnswer(results: seq<Laned<int>>, m: nat, r: nat, p: nat)
    requires m <= r < |results|
    ensures Lane(results[m..r + 1], p) ==
      Lane(results[m..r], p) + if p == results[r].port then [results[r].item] else []
  {
    LaneAppend(results[m..r], results[r], p);
    assert results[m..r + 1] == results[m..r] + [results[r]];
  }

  /** What a cycle takes from the value pipe and adds to the answer pipes. */
  lemma AnswersSent(k: Kernel, c: Config, y: System, a: Availability)
    requires SoundAndSystem(k, c, y) && |a.room| == |y.answers|
    ensures var t, z, fx := TraceOf(k), QueueStep(c, y, a), CycleEffects(y.queue, OffersOf(c, y, a));
      && z.progress.consumed == y.progress.consumed + (if fx.tookVal then 1 else 0)
      && z.storeVals == Rest(y.storeVals, fx.tookVal) && (fx.tookVal ==> y.storeVals != [])
      && z.cu == y.cu && z.received == y.received
      && (if fx.answer.None? then z.progress.answered == y.progress.answered && z.answers == y.answers
          else
            var r := y.progress.answered;
            && r < |t.loads| == |t.results| && z.progress.answered == r + 1
            && t.loads[r].port < |y.answers|
            && z.answers == y.answers[t.loads[r].port := y.answers[t.loads[r].port] + [t.results[r]]])
  {
    OffersInOrder(k, c, y, a);
    AnswerIsSequential(TraceOf(k), y.queue, y.progress, OffersOf(c, y, a));
    PortsInRange(k.ops, |k.ops|, c.ports);
  }

  lemma QueueKeepsCu(k: Kernel, c: Config, y: System, a: Availability)
    requires SoundAndSystem(k, c, y) && |a.room| == |y.answers|
    ensures CuInvariant(k, TraceOf(k), QueueStep(c, y, a))
  {
    var t, z, fx := TraceOf(k), QueueStep(c, y, a), CycleEffects(y.queue, OffersOf(c, y, a));
    AnswersSent(k, c, y, a);
    CuMoves(k, y, z, fx);
  }

  lemma CuMoves(k: Kernel, y: System, z: System, fx: Effects)
    requires InBounds(k) && CuInvariant(k, TraceOf(k), y)
    requires z.progress.consumed == y.progress.consumed + (if fx.tookVal then 1 else 0)
    requires z.storeVals == Rest(y.storeVals, fx.tookVal) && (fx.tookVal ==> y.storeVals != [])
    requires z.cu == y.cu && z.received == y.received
    requires var t, r := TraceOf(k), y.progress.answered;
      if fx.answer.None? then z.progress.answered == r && z.answers == y.answers
      else
        && r < |t.loads| && z.progress.answered == r + 1 && t.loads[r].port < |y.answers|
        && z.answers == y.answers[t.loads[r].port := y.answers[t.loads[r].port] + [t.results[r]]]
    ensures CuInvariant(k, TraceOf(k), z)
  {
    var t := TraceOf(k);
    SliceMoves(t.values, y.progress.consumed, |StoresIn(k.ops, y.cu)|, fx.tookVal, false);
    if fx.answer.Some? {
      forall p | 0 <= p < |y.answers|
        ensures z.answers[p] == Lane(Results(t)[|LoadsIn(k.ops, y.cu)|..z.progress.answered], p)
      {
        SendAnswer(Results(t), |LoadsIn(k.ops, y.cu)|, y.progress.answered, p);
      }
    }
  }

  /** What a cycle takes from the request pipes. */
  lemma RequestsTaken(k: Kernel, c: Config, y: System, a: Availability)
    requires SoundAndSystem(k, c, y) && |a.room| == |y.answers|
    ensures var z, fx := QueueStep(c, y, a), CycleEffects(y.queue, OffersOf(c, y, a));
      && z.agu == y.agu && z.aguTag == y.aguTag
      && z.storeReqs == Rest(y.storeReqs, fx.tookStore) && (fx.tookStore ==> y.storeReqs != [])
      && z.loadReqs == Rest(y.loadReqs, fx.tookLoad) && (fx.tookLoad ==> y.loadReqs != [])
      && z.queue.lastStoreTag == y.queue.lastStoreTag + (if fx.tookStore then 1 else 0)
      && z.progress.accepted == y.progress.accepted + (if fx.tookLoad then 1 else 0)
  {
  }

  lemma AguMoves(k: Kernel, y: System, z: System, fx: Effects)
    requires InBounds(k) && AguInvariant(k, TraceOf(k), y)
    requires z.agu == y.agu && z.aguTag == y.aguTag
    requires z.storeReqs == Rest(y.storeReqs, fx.tookStore) && (fx.tookStore ==> y.storeReqs != [])
    requires z.loadReqs == Rest(y.loadReqs, fx.tookLoad) && (fx.tookLoad ==> y.loadReqs != [])
    requires z.queue.lastStoreTag == y.queue.lastStoreTag + (if fx.tookStore then 1 else 0)
    requires z.progress.accepted == y.progress.accepted + (if fx.tookLoad then 1 else 0)
    ensures AguInvariant(k, TraceOf(k), z)
  {
    var t := TraceOf(k);
    SliceMoves(t.stores, y.queue.lastStoreTag, |StoresIn(k.ops, y.agu)|, fx.tookStore, false);
    SliceMoves(t.loads, y.progress.accepted, |LoadsIn(k.ops, y.agu)|, fx.tookLoad, false);
  }

  lemma QueueKeepsAgu(k: Kernel, c: Config, y: System, a: Availability)
    requires SoundAndSystem(k, c, y) && |a.room| == |y.answers|
    ensures AguInvariant(k, TraceOf(k), QueueStep(c, y, a))
  {
    RequestsTaken(k, c, y, a);
    AguMoves(k, y, QueueStep(c, y, a), CycleEffects(y.queue, OffersOf(c, y, a)));
  }

  lemma QueueKeeps(k: Kernel, c: Config, y: System, a: Availability)
    requires SoundAndSystem(k, c, y) && |a.room| == |y.answers|
    ensures SystemInvariant(k, c, QueueStep(c, y, a))
  {
    OffersInOrder(k, c, y, a);
    CycleKeeps(TraceOf(k), y.queue, y.progress, OffersOf(c, y, a));
    QueueKeepsAgu(k, c, y, a);
    QueueKeepsCu(k, c, y, a);
  }

  lemma NextKeeps(k: Kernel, c: Config, y: System, z: System)
    requires SoundAndSystem(k, c, y) && Next(k, c, y, z)
    ensures SystemInvariant(k, c, z) && z.queue.speculation == y.queue.speculation
  {
    if AguReady(k, c, y) && z == AguStep(k, y) {
      AguKeeps(k, c, y);
    } else if CuReady(k, c, y) && z == CuStep(k, c, y) {
      CuKeeps(k, c, y);
    } else {
      var a: Availability :| |a.room| == |y.answers| && z == QueueStep(c, y, a);
      QueueKeeps(k, c, y, a);
    }
  }

  // ------------------------------------------------------------------------ all runs

  ghost predicate Run(k: Kernel, c: Config, run: seq<System>)
    requires InBounds(k)
  {
    && run != [] && Initial(k, c, run[0])
    && forall i :: 0 <= i < |run| - 1 ==> Next(k, c, run[i], run[i + 1])
  }

  lemma {:induction false} RunKeeps(k: Kernel, c: Config, run: seq<System>, i: nat)
    requires InBounds(k) && Run(k, c, run) && Sound(k, c, run[0].queue.speculation) && i < |run|
    ensures SystemInvariant(k, c, run[i]) && run[i].queue.speculation == run[0].queue.speculation
  {
    if i == 0 {
      InitialHolds(k, c, run[0]);
    } else {
      RunKeeps(k, c, run, i - 1);
      NextKeeps(k, c, run[i - 1], run[i]);
    }
  }

  /** In every run, at every step: the values received by the compute unit are those of
      sequential execution, and the memory is the sequential memory after the store values
      consumed so far. */
  lemma RunsAreSequential(k: Kernel, c: Config, run: seq<System>, i: nat)
    requires InBounds(k) && Run(k, c, run) && Sound(k, c, run[0].queue.speculation) && i < |run|
    ensures run[i].cu <= |k.ops| && run[i].received == Exec(k, run[i].cu).loaded
    ensures Regular(TraceOf(k)) && run[i].progress.consumed <= |TraceOf(k).stores|
    ensures run[i].queue.data == MemoryAfter(TraceOf(k), run[i].progress.consumed)
  {
    RunKeeps(k, c, run, i);
    ExecGrows(k, run[i].cu, |k.ops|);
    ExecCounts(k, run[i].cu);
  }
}
