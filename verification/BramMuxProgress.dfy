module BramMuxProgress {
  // Freedom from deadlock of the on-chip queue behind its muxes, with port pipes of any depth from
  // 1 on: requests are sent in the order of their tags, so the request that a mux waits for is
  // never behind one that is waiting for room.
  //
  // The clients are the address generator, the compute unit and the three muxes; the server is
  // the queue, with cycles in which every pipe responds.

  import opened FairRuns
  import opened Lanes
  import opened Lines
  import opened Sums
  import opened BramQueue
  import opened Kernels
  import opened BramSystem
  import opened BramProgress
  import opened BramMuxes
  import TagMux

  // ------------------------------------------------------------------------ one line

  /** The mux can pass an item on, or read one. */
  ghost predicate CanMove<V>(line: Line<V>, room: nat)
  {
    && MuxReady(line, room) && |line.mux.held| == |line.pipes|
    && (TagMux.Passed(line.mux.held, line.mux.nextTag).Some?
        || exists k :: 0 <= k < |line.pipes| && line.mux.held[k].None? && line.pipes[k] != [])
  }

  function Fills<V>(line: Line<V>): (r: seq<nat>)
    ensures |r| == |line.mux.held| && forall k :: 0 <= k < |r| ==> r[k] == if line.mux.held[k].Some? then 1 else 0
  {
    seq(|line.mux.held|, k requires 0 <= k < |line.mux.held| => if line.mux.held[k].Some? then 1 else 0)
  }

  /** What the mux has done: an item counts once when it is read, and once when it is passed on. */
  function LineWork<V>(line: Line<V>): nat
  {
    2 * line.mux.nextTag + Total(Fills(line))
  }

  lemma {:induction false} MoveWorks<V>(all: seq<Laned<V>>, first: nat, attach: (nat, V) -> V, line: Line<V>, taken: nat, ready: seq<bool>)
    requires LineHolds(all, first, attach, line, taken) && |ready| == |line.pipes| == |line.mux.held|
    ensures LineWork(MuxStep(line, attach, ready)) >= LineWork(line)
    ensures LineWork(MuxStep(line, attach, ready)) == LineWork(line) ==> MuxStep(line, attach, ready) == line
    ensures CanMove(line, |line.out| + 1) && (forall k :: 0 <= k < |ready| ==> ready[k]) ==>
      LineWork(MuxStep(line, attach, ready)) > LineWork(line)
  {
    var z, out := MuxStep(line, attach, ready), TagMux.Passed(line.mux.held, line.mux.nextTag);
    TagMux.PassedIsMatch(line.mux.held, line.mux.nextTag);
    if out.Some? {
      PassWorks(all, first, attach, line, taken, ready);
    } else {
      TotalGrows(Fills(line), Fills(z));
      if Total(Fills(z)) == Total(Fills(line)) {
        NothingRead(line, attach, ready);
      }
    }
  }

  lemma {:induction false} PassWorks<V>(all: seq<Laned<V>>, first: nat, attach: (nat, V) -> V, line: Line<V>, taken: nat, ready: seq<bool>)
    requires LineHolds(all, first, attach, line, taken) && |ready| == |line.pipes| == |line.mux.held|
    requires TagMux.Passed(line.mux.held, line.mux.nextTag).Some?
    ensures LineWork(MuxStep(line, attach, ready)) > LineWork(line)
  {
    var z, p := MuxStep(line, attach, ready), TagMux.Passed(line.mux.held, line.mux.nextTag).value.port;
    TagMux.PassedIsMatch(line.mux.held, line.mux.nextTag);
    forall k: nat | k < |line.mux.held| && k != p
      ensures !TagMux.Matches(line.mux.held[k], line.mux.nextTag)
    {
      if TagMux.Matches(line.mux.held[k], line.mux.nextTag) {
        OnlyOneMatches(all, first, attach, line, taken, p, k);
      }
    }
    TotalUpdate(Fills(z), p, 1);
    TotalGrows(Fills(line), Fills(z)[p := 1]);
  }

  lemma {:induction false} OnlyOneMatches<V>(all: seq<Laned<V>>, first: nat, attach: (nat, V) -> V, line: Line<V>, taken: nat, p: nat, k: nat)
    requires LineHolds(all, first, attach, line, taken) && p < |line.mux.held| && k < |line.mux.held|
    requires TagMux.Matches(line.mux.held[p], line.mux.nextTag) && TagMux.Matches(line.mux.held[k], line.mux.nextTag)
    ensures k == p
  {
    TagMux.HeldMatch(Numbered(all, first), first, line.mux, line.pipes, line.mux.nextTag - first, p);
    TagMux.HeldMatch(Numbered(all, first), first, line.mux, line.pipes, line.mux.nextTag - first, k);
  }

  lemma {:induction false} NothingRead<V>(line: Line<V>, attach: (nat, V) -> V, ready: seq<bool>)
    requires |ready| == |line.pipes| == |line.mux.held| && TagMux.Passed(line.mux.held, line.mux.nextTag).None?
    requires Fills(MuxStep(line, attach, ready)) == Fills(line)
    ensures MuxStep(line, attach, ready) == line
    ensures forall k :: 0 <= k < |ready| && ready[k] && line.mux.held[k].None? ==> line.pipes[k] == []
  {
    var z := MuxStep(line, attach, ready);
    TagMux.PassedIsMatch(line.mux.held, line.mux.nextTag);
    forall k: nat | k < |line.pipes|
      ensures z.mux.held[k] == line.mux.held[k] && z.pipes[k] == line.pipes[k]
      ensures ready[k] && line.mux.held[k].None? ==> line.pipes[k] == []
    {
      assert Fills(z)[k] == Fills(line)[k];
    }
    assert z.mux.held == line.mux.held && z.pipes == line.pipes;
  }

  /** A mux that cannot move has something behind it, or nothing is left before it. */
  lemma {:induction false} StuckLine<V>(all: seq<Laned<V>>, first: nat, attach: (nat, V) -> V, line: Line<V>, taken: nat, room: nat)
    requires LineHolds(all, first, attach, line, taken) && |line.pipes| == |line.mux.held| && room >= 1 && !CanMove(line, room)
    ensures line.out == [] ==> taken == |all|
  {
    var done := line.mux.nextTag - first;
    if line.out == [] && taken < |all| {
      TagMux.NextAtFront(Numbered(all, first), first, line.mux, line.pipes, done);
      assert false;
    }
  }

  /** What waits on a port has not been taken. */
  lemma {:induction false} WaitingIsLeft<V>(all: seq<Laned<V>>, first: nat, attach: (nat, V) -> V, line: Line<V>, taken: nat, p: nat)
    requires LineHolds(all, first, attach, line, taken) && p < |line.pipes| == |line.mux.held| && line.pipes[p] != []
    ensures taken < |all|
  {
    var done := line.mux.nextTag - first;
    assert TagMux.PortHolds(Numbered(all, first)[done..], line.mux, line.pipes, p);
    if done == |all| {
      assert false;
    }
  }

  // ---------------------------------------------------------------------- the whole system

  function MuxedWork(y: Muxed): nat
  {
    y.agu + y.cu + y.queue.lastStoreTag + y.progress.consumed + y.progress.answered + y.progress.accepted
    + LineWork(y.stores) + LineWork(y.loads) + LineWork(y.values)
  }

  ghost predicate AllDone(k: Kernel, y: Muxed)
    requires InBounds(k)
  {
    && y.agu == |k.ops| && y.cu == |k.ops|
    && y.progress.consumed == |TraceOf(k).stores| && y.progress.answered == |TraceOf(k).loads|
  }

  ghost predicate SameLines(y: Muxed, z: Muxed)
  {
    && z.agu == y.agu && z.aguTag == y.aguTag && z.cu == y.cu && z.cuStores == y.cuStores
    && z.stores == y.stores && z.loads == y.loads && z.values == y.values
    && z.answers == y.answers && z.progress == y.progress
  }

  ghost predicate MuxedAdvances(y: Muxed, z: Muxed)
  {
    && |z.queue.stores| + |z.queue.loads| == |y.queue.stores| + |y.queue.loads| && MuxedWork(z) >= MuxedWork(y)
    && (MuxedWork(z) == MuxedWork(y) ==> SameLines(y, z) && Wait(z.queue) <= Wait(y.queue))
  }

  lemma {:induction false} AguAdvances(k: Kernel, w: Wiring, y: Muxed)
    requires BramMuxes.AguReady(k, w, y)
    ensures MuxedWork(BramMuxes.AguStep(k, w, y)) == MuxedWork(y) + 1
  {
  }

  lemma {:induction false} CuAdvances(k: Kernel, w: Wiring, y: Muxed)
    requires BramMuxes.CuReady(k, w, y)
    ensures MuxedWork(BramMuxes.CuStep(k, w, y)) == MuxedWork(y) + 1
  {
  }

  lemma {:induction false} LineAdvances<V>(w: Wiring, all: seq<Laned<V>>, first: nat, attach: (nat, V) -> V, line: Line<V>, next: Line<V>, taken: nat)
    requires LineHolds(all, first, attach, line, taken) && MuxMoves(w, attach, line, next)
    ensures LineWork(next) >= LineWork(line) && (LineWork(next) == LineWork(line) ==> next == line)
  {
    var ready :| |ready| == |line.pipes| == |line.mux.held| && MuxReady(line, w.behind) && next == MuxStep(line, attach, ready);
    MoveWorks(all, first, attach, line, taken, ready);
  }

  lemma {:induction false} MuxesAdvance(k: Kernel, w: Wiring, y: Muxed, z: Muxed)
    requires MuxedInvariant(k, w, y) && MuxesStep(w, y, z)
    ensures MuxedAdvances(y, z)
  {
    if z == y.(stores := z.stores) && MuxMoves(w, Unchanged, y.stores, z.stores) {
      LineAdvances(w, SentStores(k, w, y.agu), 1, Unchanged, y.stores, z.stores, y.queue.lastStoreTag);
    } else if z == y.(loads := z.loads) && MuxMoves(w, AttachPort, y.loads, z.loads) {
      LineAdvances(w, SentLoads(k, y.agu), 0, AttachPort, y.loads, z.loads, y.progress.accepted);
    } else {
      LineAdvances(w, SentValues(k, w, y.cu), 1, Unchanged, y.values, z.values, y.progress.consumed);
    }
  }

  /** A cycle does what it does with single streams. */
  lemma {:induction false} CycleAdvances(k: Kernel, w: Wiring, y: Muxed, a: Availability)
    requires MuxedInvariant(k, w, y) && |a.room| == |y.answers|
    ensures Counted(k, BramMuxes.QueueStep(w, y, a)) && MuxedAdvances(y, BramMuxes.QueueStep(w, y, a))
    ensures MuxedWork(BramMuxes.QueueStep(w, y, a)) - MuxedWork(y)
      == Work(Single(k, BramMuxes.QueueStep(w, y, a))) - Work(Single(k, y))
  {
    var z := BramMuxes.QueueStep(w, y, a);
    QueueIsSingle(k, w, y, a);
    TakenFromBehind(k, w, y, a);
    QueueWorks(k, Wide(k, w), Single(k, y), Behind(y, a));
    TakenWorks(y.stores, CycleEffects(y.queue, BramMuxes.OffersOf(w, y, a)).tookStore);
    TakenWorks(y.loads, CycleEffects(y.queue, BramMuxes.OffersOf(w, y, a)).tookLoad);
    TakenWorks(y.values, CycleEffects(y.queue, BramMuxes.OffersOf(w, y, a)).tookVal);
  }

  lemma {:induction false} TakenWorks<V>(line: Line<V>, take: bool)
    ensures LineWork(Taken(line, take)) == LineWork(line) && (!take ==> Taken(line, take) == line)
  {
  }

  lemma {:induction false} StepAdvances(k: Kernel, w: Wiring, y: Muxed, z: Muxed)
    requires MuxedInvariant(k, w, y) && BramMuxes.Next(k, w, y, z)
    ensures MuxedAdvances(y, z)
  {
    if BramMuxes.AguReady(k, w, y) && z == BramMuxes.AguStep(k, w, y) {
      AguAdvances(k, w, y);
    } else if BramMuxes.CuReady(k, w, y) && z == BramMuxes.CuStep(k, w, y) {
      CuAdvances(k, w, y);
    } else if MuxesStep(w, y, z) {
      MuxesAdvance(k, w, y, z);
    } else {
      var a: Availability :| |a.room| == |y.answers| && z == BramMuxes.QueueStep(w, y, a);
      CycleAdvances(k, w, y, a);
    }
  }

  // -------------------------------------------------------------------- all clients blocked

  /** The same system with single streams, and pipes of depth 1. */
  function Narrow(w: Wiring): Config
  {
    Config(w.loadPorts, 1, 1, 1, w.answers)
  }

  predicate Deep(w: Wiring)
  {
    w.before >= 1 && w.behind >= 1 && w.answers >= 1
  }

  ghost predicate MuxedBlocked(k: Kernel, w: Wiring, y: Muxed)
  {
    && !BramMuxes.AguReady(k, w, y) && !BramMuxes.CuReady(k, w, y)
    && !CanMove(y.stores, w.behind) && !CanMove(y.loads, w.behind) && !CanMove(y.values, w.behind)
  }

  lemma {:induction false} NarrowIsSound(k: Kernel, w: Wiring, y: Muxed)
    requires MuxedInvariant(k, w, y)
    ensures SoundAndSystem(k, Narrow(w), Single(k, y))
  {
  }

  /** If the address generator waits for room on a port, requests are left for the queue. */
  lemma {:induction false} BlockedAgu(k: Kernel, w: Wiring, y: Muxed)
    requires MuxedInvariant(k, w, y) && Deep(w) && Wired(k, w, y.queue.speculation) && !BramMuxes.AguReady(k, w, y)
    ensures !BramSystem.AguReady(k, Narrow(w), Single(k, y))
  {
    if y.agu < |k.ops| {
      match k.ops[y.agu] {
        case Load(_, port) => WaitingIsLeft(SentLoads(k, y.agu), 0, AttachPort, y.loads, y.progress.accepted, port);
        case Store(_) =>
          WaitingIsLeft(SentStores(k, w, y.agu), 1, Unchanged, y.stores, y.queue.lastStoreTag, w.storePort(y.aguTag));
      }
    }
  }

  lemma {:induction false} BlockedCu(k: Kernel, w: Wiring, y: Muxed)
    requires MuxedInvariant(k, w, y) && Deep(w) && Wired(k, w, y.queue.speculation) && !BramMuxes.CuReady(k, w, y)
    ensures !BramSystem.CuReady(k, Narrow(w), Single(k, y))
  {
    if y.cu < |k.ops| && k.ops[y.cu].Store? {
      WaitingIsLeft(SentValues(k, w, y.cu), 1, Unchanged, y.values, y.progress.consumed, w.valuePort(y.cuStores));
    }
  }

  /** Behind stuck muxes the queue finds whatever is left for it. */
  lemma {:induction false} StuckOffers(k: Kernel, w: Wiring, y: Muxed, junk: nat)
    requires MuxedInvariant(k, w, y) && Deep(w) && MuxedBlocked(k, w, y)
    ensures var a := AllOpen(|y.answers|, junk);
      BramSystem.OffersOf(Wide(k, w), Single(k, y), Behind(y, a)) == BramSystem.OffersOf(Narrow(w), Single(k, y), a)
  {
    var a := AllOpen(|y.answers|, junk);
    StuckLine(SentStores(k, w, y.agu), 1, Unchanged, y.stores, y.queue.lastStoreTag, w.behind);
    StuckLine(SentLoads(k, y.agu), 0, AttachPort, y.loads, y.progress.accepted, w.behind);
    StuckLine(SentValues(k, w, y.cu), 1, Unchanged, y.values, y.progress.consumed, w.behind);
    var o, p := BramSystem.OffersOf(Wide(k, w), Single(k, y), Behind(y, a)), BramSystem.OffersOf(Narrow(w), Single(k, y), a);
    assert o.room == p.room;
  }

  /** A cycle of the queue in which every pipe responds. */
  ghost predicate MuxedTurn(w: Wiring, y: Muxed, z: Muxed)
  {
    Shaped(y.queue) && exists junk :: z == BramMuxes.QueueStep(w, y, AllOpen(|y.answers|, junk))
  }

  lemma {:induction false} MuxedTurnWorks(k: Kernel, w: Wiring, y: Muxed, z: Muxed)
    requires MuxedInvariant(k, w, y) && Deep(w) && Wired(k, w, y.queue.speculation) && MuxedBlocked(k, w, y) && !AllDone(k, y)
    requires MuxedTurn(w, y, z)
    ensures MuxedWork(z) > MuxedWork(y) || Wait(z.queue) < Wait(y.queue)
  {
    var junk :| z == BramMuxes.QueueStep(w, y, AllOpen(|y.answers|, junk));
    var a := AllOpen(|y.answers|, junk);
    CycleAdvances(k, w, y, a);
    QueueIsSingle(k, w, y, a);
    StuckOffers(k, w, y, junk);
    NarrowIsSound(k, w, y);
    BlockedAgu(k, w, y);
    BlockedCu(k, w, y);
    SingleTurnWorks(k, w, y, z, junk);
  }

  lemma {:induction false} SingleTurnWorks(k: Kernel, w: Wiring, y: Muxed, z: Muxed, junk: nat)
    requires Counted(k, y) && Counted(k, z) && SoundAndSystem(k, Narrow(w), Single(k, y)) && !AllDone(k, y)
    requires !BramSystem.AguReady(k, Narrow(w), Single(k, y)) && !BramSystem.CuReady(k, Narrow(w), Single(k, y))
    requires var a := AllOpen(|y.answers|, junk);
      && BramSystem.OffersOf(Wide(k, w), Single(k, y), Behind(y, a)) == BramSystem.OffersOf(Narrow(w), Single(k, y), a)
      && Single(k, z) == BramSystem.QueueStep(Wide(k, w), Single(k, y), Behind(y, a))
    ensures Work(Single(k, z)) > Work(Single(k, y)) || Wait(z.queue) < Wait(y.queue)
  {
    assert Single(k, z) == BramSystem.QueueStep(Narrow(w), Single(k, y), AllOpen(|y.answers|, junk));
    QueueTurnWorks(k, Narrow(w), Single(k, y), Single(k, z));
  }

  // -------------------------------------------------------------------------------- turns

  ghost predicate MuxedReady(k: Kernel, w: Wiring, c: nat, y: Muxed)
  {
    if c == 0 then BramMuxes.AguReady(k, w, y)
    else if c == 1 then BramMuxes.CuReady(k, w, y)
    else if c == 2 then CanMove(y.stores, w.behind)
    else if c == 3 then CanMove(y.loads, w.behind)
    else CanMove(y.values, w.behind)
  }

  /** A cycle of a mux in which all its ports respond. */
  ghost predicate MuxTurn<V>(attach: (nat, V) -> V, line: Line<V>, next: Line<V>)
  {
    |line.mux.held| == |line.pipes| && next == MuxStep(line, attach, seq(|line.pipes|, _ => true))
  }

  /** At its turn a client moves unless it is blocked. */
  ghost predicate ClientTurn(k: Kernel, w: Wiring, c: nat, y: Muxed, z: Muxed)
  {
    MuxedReady(k, w, c, y) ==>
      if c == 0 then z == BramMuxes.AguStep(k, w, y)
      else if c == 1 then z == BramMuxes.CuStep(k, w, y)
      else if c == 2 then z == y.(stores := z.stores) && MuxTurn(Unchanged, y.stores, z.stores)
      else if c == 3 then z == y.(loads := z.loads) && MuxTurn(AttachPort, y.loads, z.loads)
      else z == y.(values := z.values) && MuxTurn(Unchanged, y.values, z.values)
  }

  ghost predicate Holding(k: Kernel, w: Wiring, y: Muxed)
  {
    MuxedInvariant(k, w, y) && Wired(k, w, y.queue.speculation)
  }

  ghost function MuxedTurns(k: Kernel, w: Wiring, bound: nat): Machine<Muxed>
  {
    Machine(
      5, (y, z) => BramMuxes.Next(k, w, y, z),
      y => Holding(k, w, y) && |y.queue.stores| + |y.queue.loads| == bound,
      y => InBounds(k) && AllDone(k, y),
      MuxedWork, (y: Muxed) => Wait(y.queue),
      (c, y) => MuxedReady(k, w, c, y), (c, y, z) => ClientTurn(k, w, c, y, z), (y, z) => MuxedTurn(w, y, z))
  }

  lemma {:induction false} LineTurnWorks<V>(all: seq<Laned<V>>, first: nat, attach: (nat, V) -> V, line: Line<V>, next: Line<V>, taken: nat, room: nat)
    requires LineHolds(all, first, attach, line, taken) && CanMove(line, room) && MuxTurn(attach, line, next)
    ensures LineWork(next) > LineWork(line)
  {
    MoveWorks(all, first, attach, line, taken, seq(|line.pipes|, _ => true));
  }

  lemma {:induction false} ClientTurnWorks(k: Kernel, w: Wiring, c: nat, y: Muxed, z: Muxed)
    requires MuxedInvariant(k, w, y) && ClientTurn(k, w, c, y, z) && MuxedReady(k, w, c, y)
    ensures MuxedWork(z) > MuxedWork(y)
  {
    if c == 0 {
      AguAdvances(k, w, y);
    } else if c == 1 {
      CuAdvances(k, w, y);
    } else if c == 2 {
      LineTurnWorks(SentStores(k, w, y.agu), 1, Unchanged, y.stores, z.stores, y.queue.lastStoreTag, w.behind);
    } else if c == 3 {
      LineTurnWorks(SentLoads(k, y.agu), 0, AttachPort, y.loads, z.loads, y.progress.accepted, w.behind);
    } else {
      LineTurnWorks(SentValues(k, w, y.cu), 1, Unchanged, y.values, z.values, y.progress.consumed, w.behind);
    }
  }

  lemma {:induction false} SameIsReady(k: Kernel, w: Wiring, c: nat, y: Muxed, z: Muxed)
    requires SameLines(y, z)
    ensures MuxedReady(k, w, c, z) == MuxedReady(k, w, c, y) && (InBounds(k) ==> AllDone(k, z) == AllDone(k, y))
  {
  }

  lemma {:induction false} SameAreReady(k: Kernel, w: Wiring, bound: nat, y: Muxed, z: Muxed)
    requires SameLines(y, z)
    ensures SameReady(MuxedTurns(k, w, bound), y, z)
  {
    forall c: nat | c < 5
      ensures MuxedReady(k, w, c, z) == MuxedReady(k, w, c, y)
    {
      SameIsReady(k, w, c, y, z);
    }
  }

  lemma {:induction false} MuxedMonotone(k: Kernel, w: Wiring, bound: nat)
    ensures Monotone(MuxedTurns(k, w, bound))
  {
    var m := MuxedTurns(k, w, bound);
    forall y, z {:trigger m.next(y, z)} | m.inv(y) && m.next(y, z)
      ensures m.inv(z) && m.work(z) >= m.work(y)
      ensures m.work(z) == m.work(y) ==> m.wait(z) <= m.wait(y) && m.done(z) == m.done(y) && SameReady(m, y, z)
    {
      BramMuxes.NextKeeps(k, w, y, z);
      StepAdvances(k, w, y, z);
      if MuxedWork(z) == MuxedWork(y) {
        SameIsReady(k, w, 0, y, z);
        SameAreReady(k, w, bound, y, z);
      }
    }
  }

  lemma {:induction false} MuxedClientsWork(k: Kernel, w: Wiring, bound: nat)
    ensures ClientsWork(MuxedTurns(k, w, bound))
  {
    var m := MuxedTurns(k, w, bound);
    forall c: nat, y, z {:trigger m.client(c, y, z)} | c < m.clients && m.inv(y) && m.client(c, y, z) && m.ready(c, y)
      ensures m.work(z) > m.work(y)
    {
      TurnWorks(k, w, bound, c, y, z);
    }
  }

  lemma {:induction false} TurnWorks(k: Kernel, w: Wiring, bound: nat, c: nat, y: Muxed, z: Muxed)
    requires var m := MuxedTurns(k, w, bound); m.inv(y) && m.client(c, y, z) && m.ready(c, y)
    ensures MuxedTurns(k, w, bound).work(z) > MuxedTurns(k, w, bound).work(y)
  {
    ClientTurnWorks(k, w, c, y, z);
  }

  lemma {:induction false} MuxedQueueWorks(k: Kernel, w: Wiring, bound: nat)
    requires Deep(w)
    ensures ServerWorks(MuxedTurns(k, w, bound))
  {
    var m := MuxedTurns(k, w, bound);
    forall y, z | m.inv(y) && m.server(y, z) && !m.done(y) && Blocked(m, y)
      ensures m.work(z) > m.work(y) || m.wait(z) < m.wait(y)
    {
      QueueWorksAt(k, w, bound, y, z);
    }
  }

  lemma {:induction false} QueueWorksAt(k: Kernel, w: Wiring, bound: nat, y: Muxed, z: Muxed)
    requires Deep(w) && var m := MuxedTurns(k, w, bound); m.inv(y) && m.server(y, z) && !m.done(y) && Blocked(m, y)
    ensures var m := MuxedTurns(k, w, bound); m.work(z) > m.work(y) || m.wait(z) < m.wait(y)
  {
    BlockedIsBlocked(k, w, bound, y);
    MuxedTurnWorks(k, w, y, z);
  }

  lemma {:induction false} BlockedIsBlocked(k: Kernel, w: Wiring, bound: nat, y: Muxed)
    requires Blocked(MuxedTurns(k, w, bound), y)
    ensures MuxedBlocked(k, w, y)
  {
    var m := MuxedTurns(k, w, bound);
    assert !m.ready(0, y) && !m.ready(1, y) && !m.ready(2, y) && !m.ready(3, y) && !m.ready(4, y);
  }

  // ------------------------------------------------------------------------------- bounds

  /** More than all the work there is. */
  function MuxedLimit(k: Kernel, w: Wiring): nat
  {
    12 * |k.ops| + w.storePorts + w.loadPorts + w.valuePorts + 5
  }

  lemma {:induction false} LineIsBounded<V>(all: seq<Laned<V>>, first: nat, attach: (nat, V) -> V, line: Line<V>, taken: nat)
    requires LineHolds(all, first, attach, line, taken)
    ensures LineWork(line) <= 2 * (first + |all|) + |line.mux.held|
  {
    TotalIsBounded(Fills(line), 1);
  }

  lemma {:induction false} MuxedIsBounded(k: Kernel, w: Wiring, y: Muxed)
    requires MuxedInvariant(k, w, y)
    ensures Wait(y.queue) < |y.queue.stores| + |y.queue.loads| && MuxedWork(y) < MuxedLimit(k, w)
  {
    BramProgress.WaitIsBounded(k, Wide(k, w), Single(k, y));
    LinesAreBounded(k, w, y);
  }

  lemma {:induction false} LinesAreBounded(k: Kernel, w: Wiring, y: Muxed)
    requires Counted(k, y) && LinesHold(k, w, y)
    ensures LineWork(y.stores) + LineWork(y.loads) <= 2 * |k.ops| + 2 + w.storePorts + w.loadPorts
    ensures LineWork(y.values) <= 2 * |k.ops| + 2 + w.valuePorts
  {
    LineIsBounded(SentStores(k, w, y.agu), 1, Unchanged, y.stores, y.queue.lastStoreTag);
    LineIsBounded(SentLoads(k, y.agu), 0, AttachPort, y.loads, y.progress.accepted);
    LineIsBounded(SentValues(k, w, y.cu), 1, Unchanged, y.values, y.progress.consumed);
    SentAreFew(k, y.agu);
    ExecCounts(k, y.cu);
    SentAreFew(k, y.cu);
  }

  lemma {:induction false} SentAreFew(k: Kernel, n: nat)
    requires n <= |k.ops|
    ensures |StoresIn(k.ops, n)| + |LoadsIn(k.ops, n)| == n
  {
    if n > 0 {
      SentAreFew(k, n - 1);
    }
  }

  lemma {:induction false} MuxedLive(k: Kernel, w: Wiring, bound: nat)
    requires Deep(w)
    ensures Live(MuxedTurns(k, w, bound), bound, MuxedLimit(k, w))
  {
    MuxedMonotone(k, w, bound);
    MuxedClientsWork(k, w, bound);
    MuxedQueueWorks(k, w, bound);
    forall y | Holding(k, w, y)
      ensures Wait(y.queue) < |y.queue.stores| + |y.queue.loads| && MuxedWork(y) < MuxedLimit(k, w)
    {
      MuxedIsBounded(k, w, y);
    }
  }

  // ---------------------------------------------------------------------------- fair runs

  function Room(y: Muxed): nat
  {
    |y.queue.stores| + |y.queue.loads|
  }

  /** No deadlock: from every reachable state with work left, as many fair stretches as the queue
      has slots get some of it done, in a client, a mux or the queue. */
  lemma {:induction false} FairRunAdvances(k: Kernel, w: Wiring, run: seq<Muxed>, marks: seq<nat>)
    requires marks != [] && marks[0] < |run| && FairRun(MuxedTurns(k, w, Room(run[marks[0]])), run, marks)
    requires Deep(w) && Holding(k, w, run[marks[0]]) && !AllDone(k, run[marks[0]])
    requires |marks| > Room(run[marks[0]])
    ensures marks[|marks| - 1] < |run| && MuxedWork(run[marks[|marks| - 1]]) > MuxedWork(run[marks[0]])
  {
    var bound := Room(run[marks[0]]);
    MuxedLive(k, w, bound);
    MuxedIsBounded(k, w, run[marks[0]]);
    FairRuns.FairRunAdvances(MuxedTurns(k, w, bound), run, marks);
  }

  /** Once all is done, it stays so. */
  lemma {:induction false} DoneStays(k: Kernel, w: Wiring, y: Muxed, z: Muxed)
    requires MuxedInvariant(k, w, y) && AllDone(k, y) && BramMuxes.Next(k, w, y, z)
    ensures AllDone(k, z)
  {
    if !MuxesStep(w, y, z) {
      var a: Availability :| |a.room| == |y.answers| && z == BramMuxes.QueueStep(w, y, a);
      QueueIsSingle(k, w, y, a);
      CompleteStays(k, Wide(k, w), Single(k, y), Single(k, z));
    }
  }

  lemma {:induction false} MuxedStable(k: Kernel, w: Wiring, bound: nat)
    ensures Stable(MuxedTurns(k, w, bound))
  {
    MuxedMonotone(k, w, bound);
    var m := MuxedTurns(k, w, bound);
    forall y, z {:trigger m.next(y, z)} | m.inv(y) && m.done(y) && m.next(y, z)
      ensures m.inv(z) && m.done(z)
    {
      DoneStays(k, w, y, z);
    }
  }

  lemma {:induction false} MuxedEnds(k: Kernel, w: Wiring, run: seq<Muxed>, marks: seq<nat>, bound: nat, limit: nat)
    requires Deep(w) && limit == MuxedLimit(k, w) && marks != [] && marks[0] < |run|
    requires MuxedTurns(k, w, bound).inv(run[marks[0]])
    requires FairRun(MuxedTurns(k, w, bound), run, marks) && |marks| > bound * (limit + 1)
    ensures MuxedTurns(k, w, bound).done(run[|run| - 1])
  {
    MuxedLive(k, w, bound);
    MuxedStable(k, w, bound);
    FairRunEnds(MuxedTurns(k, w, bound), run, marks, bound, limit);
  }

  /** Every run with enough fair stretches ends with all done, with the loads and the memory of
      sequential execution, for any number of ports and pipes of any depth from 1 on. */
  lemma {:induction false} FairRunsEndSequentially(k: Kernel, w: Wiring, run: seq<Muxed>, marks: seq<nat>)
    requires run != [] && Wired(k, w, run[0].queue.speculation) && Deep(w) && BramMuxes.Run(k, w, run)
    requires marks != [] && marks[0] == 0 && FairRun(MuxedTurns(k, w, Room(run[0])), run, marks)
    requires |marks| > Room(run[0]) * (MuxedLimit(k, w) + 1)
    ensures AllDone(k, run[|run| - 1])
    ensures run[|run| - 1].received == Exec(k, |k.ops|).loaded
    ensures run[|run| - 1].queue.data == Exec(k, |k.ops|).memory
  {
    BramMuxes.RunKeeps(k, w, run, 0);
    MuxedEnds(k, w, run, marks, Room(run[0]), MuxedLimit(k, w));
    BramMuxes.RunsAreSequential(k, w, run, |run| - 1);
    MemoryIsSequential(k, |k.ops|);
  }
}
