module BramQueue {
  // The on-chip (BRAM) load-store queue.
  //
  // `Cycle` below specifies one iteration of the queue's main loop as a function on
  // values, one function a rule.  The class `LoadStoreQueue` is the loop body itself: it
  // updates the registers and the memory in place, and is proved to compute `Cycle`.
  // What a cycle means for a whole run is proved in BramInvariant, BramSystem and
  // BramProgress.

  import opened Wrappers
  import opened Traces
  import opened StoreAllocation

  datatype LoadSlot = LoadSlot(addr: int, tag: nat, valid: bool, valueLatched: bool, safe: bool, port: nat)

  /** Registers and memory.  `speculation` is the queue's compile-time parameter. */
  datatype State = State(
    speculation: bool, data: seq<int>,
    stores: seq<StoreSlot>, lastStoreTag: nat,
    loads: seq<LoadSlot>, latch: int)

  /** What the pipes offer in one cycle: an item at the front of an input pipe, or room in
      an output pipe.  `junk` is the unassigned tag that enters the queue with a bubble. */
  datatype Offers = Offers(
    storeVal: Option<StoreVal>, loadReq: Option<LoadReq>, storeReq: Option<StoreReq>,
    room: seq<bool>, junk: nat)

  /** What the queue did with the pipes. */
  datatype Answer = Answer(port: nat, value: int)
  datatype Effects = Effects(tookVal: bool, tookLoad: bool, tookStore: bool, answer: Option<Answer>)

  ghost predicate Shaped(s: State)
  {
    && |s.stores| >= 2 && |s.loads| >= 2 && |s.data| > 0
    && (forall i :: 0 <= i < |s.stores| && s.stores[i].valid ==> 0 <= s.stores[i].addr < |s.data|)
    && (forall i :: 0 <= i < |s.loads| ==> 0 <= s.loads[i].addr < |s.data|)
  }

  ghost predicate Acceptable(s: State, o: Offers)
  {
    && |o.room| > 0
    && (o.loadReq.Some? ==> 0 <= o.loadReq.value.addr < |s.data|)
    && (o.storeReq.Some? ==> 0 <= o.storeReq.value.addr < |s.data|)
  }

  // ---------------------------------------------------------------- rule for storing

  predicate Arrives(s: State, o: Offers)
    requires |s.stores| >= 2
  {
    s.stores[0].valid && o.storeVal.Some?
  }

  predicate Commits(s: State, o: Offers)
    requires |s.stores| >= 2
  {
    Arrives(s, o) && (s.speculation ==> o.storeVal.value.valid)
  }

  function DataNext(s: State, o: Offers): seq<int>
    requires Shaped(s)
  {
    if Commits(s, o) then s.data[s.stores[0].addr := o.storeVal.value.value] else s.data
  }

  // ------------------------------------------------------- rule for returning a value

  predicate Bypasses(s: State, o: Offers)
    requires |s.stores| >= 2 && |s.loads| >= 2
  {
    && Commits(s, o)
    && s.stores[0].addr == s.loads[0].addr
    && s.stores[0].tag == s.loads[0].tag
  }

  predicate Answers(s: State, o: Offers)
    requires |s.stores| >= 2 && |s.loads| >= 2
  {
    s.loads[0].valid && (Bypasses(s, o) || s.loads[0].safe)
  }

  /** The memory is read at the start of the cycle: a load sees the data before this
      cycle's store. */
  function LatchNext(s: State, o: Offers): int
    requires Shaped(s)
  {
    if !Answers(s, o) || s.loads[0].valueLatched then s.latch
    else if Bypasses(s, o) then o.storeVal.value.value
    else s.data[s.loads[0].addr]
  }

  /** With one load port the port field is not used. */
  function TargetPort(s: State, o: Offers): nat
    requires |s.loads| >= 2
  {
    if |o.room| > 1 then s.loads[0].port else 0
  }

  predicate Returns(s: State, o: Offers)
    requires Shaped(s)
  {
    Answers(s, o) && TargetPort(s, o) < |o.room| && o.room[TargetPort(s, o)]
  }

  function LoadsAnswered(s: State, o: Offers): seq<LoadSlot>
    requires Shaped(s)
  {
    var head := s.loads[0];
    if Returns(s, o) then s.loads[0 := head.(valid := false, valueLatched := false, port := |o.room| + 1)]
    else if Answers(s, o) then s.loads[0 := head.(valueLatched := true)]
    else s.loads
  }

  // ------------------------------------------- rules for accepting and releasing loads

  function LoadsAccepted(loads: seq<LoadSlot>, req: Option<LoadReq>): seq<LoadSlot>
    requires |loads| >= 2
  {
    var last := |loads| - 1;
    if loads[last].valid || req.None? then loads
    else loads[last := loads[last].(addr := req.value.addr, tag := req.value.tag, valid := true, port := req.value.port)]
  }

  function Checked(stores: seq<StoreSlot>, lastStoreTag: nat, load: LoadSlot): LoadSlot
  {
    if load.valid && load.tag <= lastStoreTag && !Conflicts(stores, load.addr, load.tag) then load.(safe := true) else load
  }

  /** Only the two front entries are checked against the store queue. */
  function LoadsChecked(stores: seq<StoreSlot>, lastStoreTag: nat, loads: seq<LoadSlot>): seq<LoadSlot>
    requires |loads| >= 2
  {
    loads[0 := Checked(stores, lastStoreTag, loads[0])][1 := Checked(stores, lastStoreTag, loads[1])]
  }

  function EmptyLoad(ports: nat): LoadSlot
  {
    LoadSlot(0, 0, false, false, false, ports + 1)
  }

  function LoadsShifted(loads: seq<LoadSlot>, ports: nat): seq<LoadSlot>
    requires |loads| >= 2
  {
    if loads[0].valid then loads else loads[1..] + [EmptyLoad(ports)]
  }

  function LoadsNext(s: State, o: Offers): seq<LoadSlot>
    requires Shaped(s)
  {
    LoadsShifted(LoadsChecked(s.stores, s.lastStoreTag, LoadsAccepted(LoadsAnswered(s, o), o.loadReq)), |o.room|)
  }

  // ----------------------------------------------------- rule for the allocation queue

  predicate Shifts(s: State, o: Offers)
    requires |s.stores| >= 2
  {
    Arrives(s, o) || !s.stores[0].valid
  }

  function StoresNext(s: State, o: Offers): seq<StoreSlot>
    requires |s.stores| >= 2
  {
    if Shifts(s, o) then s.stores[1..] + [Allocated(o.storeReq, o.junk)] else s.stores
  }

  function TagNext(s: State, o: Offers): nat
    requires |s.stores| >= 2
  {
    if Shifts(s, o) && o.storeReq.Some? then o.storeReq.value.tag else s.lastStoreTag
  }

  // -------------------------------------------------------------------- a whole cycle

  function Cycle(s: State, o: Offers): State
    requires Shaped(s)
  {
    State(s.speculation, DataNext(s, o), StoresNext(s, o), TagNext(s, o), LoadsNext(s, o), LatchNext(s, o))
  }

  function CycleEffects(s: State, o: Offers): Effects
    requires Shaped(s)
  {
    Effects(
      Arrives(s, o),
      !LoadsAnswered(s, o)[|s.loads| - 1].valid && o.loadReq.Some?,
      Shifts(s, o) && o.storeReq.Some?,
      if Returns(s, o) then Some(Answer(TargetPort(s, o), LatchNext(s, o))) else None)
  }

  /** The kernel: register arrays and memory updated in place. */
  class LoadStoreQueue {
    const speculation: bool
    const data: array<int>
    const stAlloc: array<StoreSlot>
    const ldQueue: array<LoadSlot>
    var lastStoreTag: nat
    var latch: int

    ghost function View(): State
      reads this, data, stAlloc, ldQueue
    {
      State(speculation, data[..], stAlloc[..], lastStoreTag, ldQueue[..], latch)
    }

    ghost predicate Valid()
      reads this, data, stAlloc, ldQueue
    {
      Shaped(View())
    }

    constructor (speculation: bool, arraySize: nat, loadQueueSize: nat, storeQueueSize: nat)
      requires arraySize > 0 && loadQueueSize >= 2 && storeQueueSize >= 2
      ensures Valid() && fresh(data) && fresh(stAlloc) && fresh(ldQueue)
      ensures this.speculation == speculation && lastStoreTag == 0
      ensures data.Length == arraySize && stAlloc.Length == storeQueueSize && ldQueue.Length == loadQueueSize
      ensures forall i :: 0 <= i < storeQueueSize ==> stAlloc[i] == StoreSlot(INVALID_ADDR, false, 0)
      ensures forall i :: 0 <= i < loadQueueSize ==> ldQueue[i] == LoadSlot(0, 0, false, false, false, 0)
    {
      this.speculation := speculation;
      data := new int[arraySize];
      stAlloc := new StoreSlot[storeQueueSize](_ => StoreSlot(INVALID_ADDR, false, 0));
      ldQueue := new LoadSlot[loadQueueSize](_ => LoadSlot(0, 0, false, false, false, 0));
      lastStoreTag, latch := 0, 0;
    }

    /** One iteration of the main loop, rule by rule in the order of the kernel. */
    method Step(o: Offers) returns (fx: Effects)
      requires Valid() && Acceptable(View(), o)
      modifies this, data, stAlloc, ldQueue
      ensures View() == Cycle(old(View()), o) && Valid()
      ensures fx == CycleEffects(old(View()), o)
    {
      ghost var s := View();
      ShapeKept(s, o);
      var memoryVal := data[ldQueue[0].addr];
      var arrived, commits := CommitStore(o, s);
      var answer := ReturnLoad(o, memoryVal, commits, s);
      var tookLoad := AcceptLoad(o.loadReq);
      CheckLoads();
      ShiftLoads(|o.room|);
      assert ldQueue[..] == LoadsNext(s, o);
      var tookStore := AllocateStore(arrived, o, s);
      fx := Effects(arrived, tookLoad, tookStore, answer);
    }

    method CommitStore(o: Offers, ghost s: State) returns (arrived: bool, commits: bool)
      requires Shaped(s) && s == View()
      modifies data
      ensures data[..] == DataNext(s, o) && arrived == Arrives(s, o) && commits == Commits(s, o)
    {
      assert stAlloc[0] == s.stores[0];
      arrived := stAlloc[0].valid && o.storeVal.Some?;
      commits := arrived && (speculation ==> o.storeVal.value.valid);
      if commits {
        data[stAlloc[0].addr] := o.storeVal.value.value;
      }
    }

    method AllocateStore(arrived: bool, o: Offers, ghost s: State) returns (took: bool)
      requires Shaped(s) && stAlloc[..] == s.stores && lastStoreTag == s.lastStoreTag && arrived == Arrives(s, o)
      modifies stAlloc, this`lastStoreTag
      ensures stAlloc[..] == StoresNext(s, o) && lastStoreTag == TagNext(s, o)
      ensures took == (Shifts(s, o) && o.storeReq.Some?)
    {
      took := false;
      assert stAlloc[0] == s.stores[0];
      if arrived || !stAlloc[0].valid {
        took := ShiftStores(o.storeReq, o.junk);
      }
    }

    method ReturnLoad(o: Offers, memoryVal: int, commits: bool, ghost s: State) returns (answer: Option<Answer>)
      requires Shaped(s) && |o.room| > 0
      requires ldQueue[..] == s.loads && stAlloc[..] == s.stores && latch == s.latch
      requires memoryVal == s.data[s.loads[0].addr] && commits == Commits(s, o)
      modifies this`latch, ldQueue
      ensures ldQueue[..] == LoadsAnswered(s, o) && latch == LatchNext(s, o)
      ensures answer == if Returns(s, o) then Some(Answer(TargetPort(s, o), LatchNext(s, o))) else None
    {
      answer := None;
      assert ldQueue[0] == s.loads[0] && stAlloc[0] == s.stores[0];
      var bypass := commits && stAlloc[0].addr == ldQueue[0].addr && stAlloc[0].tag == ldQueue[0].tag;
      if ldQueue[0].valid && (bypass || ldQueue[0].safe) {
        if !ldQueue[0].valueLatched {
          latch := if bypass then o.storeVal.value.value else memoryVal;
          ldQueue[0] := ldQueue[0].(valueLatched := true);
        }
        var port := if |o.room| > 1 then ldQueue[0].port else 0;
        if port < |o.room| && o.room[port] {
          answer := Some(Answer(port, latch));
          ldQueue[0] := ldQueue[0].(valid := false, valueLatched := false, port := |o.room| + 1);
        }
      }
    }

    method AcceptLoad(req: Option<LoadReq>) returns (took: bool)
      requires ldQueue.Length >= 2
      modifies ldQueue
      ensures ldQueue[..] == LoadsAccepted(old(ldQueue[..]), req)
      ensures took == (!old(ldQueue[ldQueue.Length - 1]).valid && req.Some?)
    {
      took := false;
      var last := ldQueue.Length - 1;
      if !ldQueue[last].valid && req.Some? {
        took := true;
        ldQueue[last] :=
          ldQueue[last].(addr := req.value.addr, tag := req.value.tag, valid := true, port := req.value.port);
      }
    }

    method CheckLoads()
      requires ldQueue.Length >= 2
      modifies ldQueue
      ensures ldQueue[..] == LoadsChecked(stAlloc[..], lastStoreTag, old(ldQueue[..]))
    {
      ghost var was := ldQueue[..];
      for k := 0 to 2
        invariant k >= 1 ==> ldQueue[0] == Checked(stAlloc[..], lastStoreTag, was[0])
        invariant k >= 2 ==> ldQueue[1] == Checked(stAlloc[..], lastStoreTag, was[1])
        invariant forall i :: k <= i < ldQueue.Length ==> ldQueue[i] == was[i]
      {
        if ldQueue[k].valid && ldQueue[k].tag <= lastStoreTag {
          var wait := false;
          for i := 0 to stAlloc.Length
            invariant wait == exists h :: 0 <= h < i && stAlloc[h].addr == ldQueue[k].addr && stAlloc[h].tag <= ldQueue[k].tag
          {
            wait := wait || (stAlloc[i].addr == ldQueue[k].addr && stAlloc[i].tag <= ldQueue[k].tag);
          }
          assert wait == Conflicts(stAlloc[..], was[k].addr, was[k].tag);
          if !wait {
            ldQueue[k] := ldQueue[k].(safe := true);
          }
        }
      }
    }

    method ShiftLoads(ports: nat)
      requires ldQueue.Length >= 2
      modifies ldQueue
      ensures ldQueue[..] == LoadsShifted(old(ldQueue[..]), ports)
    {
      if !ldQueue[0].valid {
        ghost var was := ldQueue[..];
        var last := ldQueue.Length - 1;
        for i := 0 to last
          invariant forall h :: 0 <= h < i ==> ldQueue[h] == was[h + 1]
          invariant forall h :: i <= h <= last ==> ldQueue[h] == was[h]
        {
          ldQueue[i] := ldQueue[i + 1];
        }
        ldQueue[last] := EmptyLoad(ports);
      }
    }

    method ShiftStores(req: Option<StoreReq>, junk: nat) returns (took: bool)
      requires stAlloc.Length >= 2
      modifies stAlloc, this`lastStoreTag
      ensures stAlloc[..] == old(stAlloc[..])[1..] + [Allocated(req, junk)]
      ensures lastStoreTag == if req.Some? then req.value.tag else old(lastStoreTag)
      ensures took == req.Some?
    {
      took := req.Some?;
      if took {
        lastStoreTag := req.value.tag;
      }
      ghost var was := stAlloc[..];
      var last := stAlloc.Length - 1;
      for i := 0 to last
        modifies stAlloc
        invariant forall h :: 0 <= h < i ==> stAlloc[h] == was[h + 1]
        invariant forall h :: i <= h <= last ==> stAlloc[h] == was[h]
      {
        stAlloc[i] := stAlloc[i + 1];
      }
      stAlloc[last] := Allocated(req, junk);
    }
  }

  ghost predicate InArray(loads: seq<LoadSlot>, size: nat)
  {
    forall i :: 0 <= i < |loads| ==> 0 <= loads[i].addr < size
  }

  lemma AddressesKept(s: State, o: Offers)
    requires Shaped(s) && Acceptable(s, o)
    ensures |LoadsNext(s, o)| == |s.loads| && InArray(LoadsNext(s, o), |s.data|)
  {
    var l2 := LoadsAccepted(LoadsAnswered(s, o), o.loadReq);
    assert |l2| == |s.loads| && InArray(l2, |s.data|);
    assert InArray(LoadsChecked(s.stores, s.lastStoreTag, l2), |s.data|);
  }

  lemma ShapeKept(s: State, o: Offers)
    requires Shaped(s) && Acceptable(s, o)
    ensures Shaped(Cycle(s, o))
  {
    AddressesKept(s, o);
  }
}
