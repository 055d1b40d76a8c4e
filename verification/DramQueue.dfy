module DramQueue {
  // The off-chip (DRAM) load-store queue.
  //
  // Stores are passed to a store port and remembered in a commit queue until the memory is
  // sure to hold them; loads of all ports proceed in parallel, each taking its value either
  // from the commit queue or from memory.  As for the on-chip queue, `Cycle` specifies one
  // iteration of the main loop rule by rule, and the class is the loop body itself.

  import opened Wrappers
  import opened Traces
  import opened StoreAllocation

  /** Cycles within which an issued store reaches the memory; also the size of the commit
      queue. */
  const STORE_LATENCY := 8

  datatype CommitSlot = CommitSlot(addr: int, value: int)
  datatype LoadSlot = LoadSlot(searching: bool, addr: int, tag: nat, safe: bool, bypass: bool, bypassVal: int)

  datatype State = State(
    speculation: bool,
    stores: seq<StoreSlot>, lastStoreTag: nat,
    commits: seq<CommitSlot>,
    loads: seq<seq<LoadSlot>>)

  /** `junkTag` and `junkVal` are the unassigned values that enter with bubbles. */
  datatype Offers = Offers(
    storeVal: Option<StoreVal>, storeReq: Option<StoreReq>, loadReqs: seq<Option<LoadReq>>,
    junkTag: nat, junkVal: int)

  /** How a load leaves the queue: with a forwarded value, or as a request to the memory. */
  datatype Sent = Forwarded(value: int) | FromMemory(addr: int)

  datatype Effects = Effects(
    tookVal: bool, issued: Option<CommitSlot>, tookStore: bool,
    tookLoad: seq<bool>, sent: seq<Option<Sent>>)

  ghost predicate Shaped(s: State)
  {
    && |s.stores| >= 2 && |s.commits| == STORE_LATENCY
    && forall p :: 0 <= p < |s.loads| ==> |s.loads[p]| >= 2
  }

  // ------------------------------------------------------------------------ store logic

  predicate Arrives(s: State, o: Offers)
    requires |s.stores| >= 2
  {
    s.stores[0].valid && o.storeVal.Some?
  }

  predicate Commits(s: State, o: Offers)
    requires |s.stores| >= 2
  {
    Arrives(s, o) && (s.speculation ==> o.storeVal.value.valid)
  }

  function Issued(s: State, o: Offers): Option<CommitSlot>
    requires |s.stores| >= 2
  {
    if Commits(s, o) then Some(CommitSlot(s.stores[0].addr, o.storeVal.value.value)) else None
  }

  /** The commit queue shifts to make room, or to drop an empty front slot. */
  function CommitsNext(commits: seq<CommitSlot>, issued: Option<CommitSlot>, junk: int): seq<CommitSlot>
    requires |commits| > 0
  {
    if issued.Some? || commits[0].addr == INVALID_ADDR then
      commits[1..] + [if issued.Some? then issued.value else CommitSlot(INVALID_ADDR, junk)]
    else commits
  }

  predicate Shifts(s: State, o: Offers)
    requires |s.stores| >= 2
  {
    Arrives(s, o) || !s.stores[0].valid
  }

  function StoresNext(s: State, o: Offers): seq<StoreSlot>
    requires |s.stores| >= 2
  {
    if Shifts(s, o) then s.stores[1..] + [Allocated(o.storeReq, o.junkTag)] else s.stores
  }

  /** Here accepted requests are counted; the tag of the request is not used. */
  function TagNext(s: State, o: Offers): nat
    requires |s.stores| >= 2
  {
    if Shifts(s, o) && o.storeReq.Some? then s.lastStoreTag + 1 else s.lastStoreTag
  }

  // -------------------------------------------------------------------------- load logic

  function SentBy(q: seq<LoadSlot>): Option<Sent>
    requires |q| >= 2
  {
    if q[0].searching && q[0].safe then
      Some(if q[0].bypass then Forwarded(q[0].bypassVal) else FromMemory(q[0].addr))
    else None
  }

  function AfterSend(q: seq<LoadSlot>): seq<LoadSlot>
    requires |q| >= 2
  {
    if SentBy(q).Some? then q[0 := q[0].(searching := false)] else q
  }

  function AfterAccept(q: seq<LoadSlot>, req: Option<LoadReq>): seq<LoadSlot>
    requires |q| >= 2
  {
    var last := |q| - 1;
    if q[last].searching then q
    else if req.Some? then
      q[last := q[last].(addr := req.value.addr, tag := req.value.tag, searching := true, safe := false)]
    else q[last := q[last].(safe := false)]
  }

  /** The most recent entry of the commit queue for an address. */
  function LatestCommit(commits: seq<CommitSlot>, addr: int): Option<int>
  {
    if commits == [] then None
    else if commits[|commits| - 1].addr == addr then Some(commits[|commits| - 1].value)
    else LatestCommit(commits[..|commits| - 1], addr)
  }

  /** Note that a slot without a request is checked like any other. */
  function Checked(stores: seq<StoreSlot>, lastStoreTag: nat, commits: seq<CommitSlot>, q: LoadSlot): LoadSlot
  {
    var hit := LatestCommit(commits, q.addr);
    q.(safe := q.safe || (q.tag <= lastStoreTag && !Conflicts(stores, q.addr, q.tag)),
       bypass := hit.Some?,
       bypassVal := if hit.Some? then hit.value else q.bypassVal)
  }

  function AfterCheck(stores: seq<StoreSlot>, lastStoreTag: nat, commits: seq<CommitSlot>, q: seq<LoadSlot>): seq<LoadSlot>
    requires |q| >= 2
  {
    q[0 := Checked(stores, lastStoreTag, commits, q[0])][1 := Checked(stores, lastStoreTag, commits, q[1])]
  }

  function AfterShift(q: seq<LoadSlot>): seq<LoadSlot>
    requires |q| >= 2
  {
    if q[0].searching then q else q[1..] + [q[|q| - 1].(searching := false, safe := false)]
  }

  function PortNext(stores: seq<StoreSlot>, lastStoreTag: nat, commits: seq<CommitSlot>, q: seq<LoadSlot>,
                    req: Option<LoadReq>): (r: seq<LoadSlot>)
    requires |q| >= 2
  {
    AfterShift(AfterCheck(stores, lastStoreTag, commits, AfterAccept(AfterSend(q), req)))
  }

  predicate TakesLoad(q: seq<LoadSlot>, req: Option<LoadReq>)
    requires |q| >= 2
  {
    !AfterSend(q)[|q| - 1].searching && req.Some?
  }

  // ----------------------------------------------------------------------- a whole cycle

  /** The loads see the store queues as the store logic of the same cycle leaves them. */
  function Cycle(s: State, o: Offers): State
    requires Shaped(s) && |o.loadReqs| == |s.loads|
  {
    var stores, tag, commits := StoresNext(s, o), TagNext(s, o), CommitsNext(s.commits, Issued(s, o), o.junkVal);
    State(s.speculation, stores, tag, commits,
      seq(|s.loads|, p requires 0 <= p < |s.loads| => PortNext(stores, tag, commits, s.loads[p], o.loadReqs[p])))
  }

  function CycleEffects(s: State, o: Offers): Effects
    requires Shaped(s) && |o.loadReqs| == |s.loads|
  {
    Effects(
      Arrives(s, o), Issued(s, o), Shifts(s, o) && o.storeReq.Some?,
      seq(|s.loads|, p requires 0 <= p < |s.loads| => TakesLoad(s.loads[p], o.loadReqs[p])),
      seq(|s.loads|, p requires 0 <= p < |s.loads| => SentBy(s.loads[p])))
  }

  /** The kernel: register arrays updated in place; `ldQueue` has one row a load port. */
  class LoadStoreQueue {
    const speculation: bool
    const stAlloc: array<StoreSlot>
    const stCommit: array<CommitSlot>
    const ldQueue: array2<LoadSlot>
    var lastStoreTag: nat

    ghost function Row(p: nat): seq<LoadSlot>
      requires p < ldQueue.Length0
      reads ldQueue
    {
      seq(ldQueue.Length1, i requires 0 <= i < ldQueue.Length1 reads ldQueue => ldQueue[p, i])
    }

    ghost function Rows(): seq<seq<LoadSlot>>
      reads ldQueue
    {
      seq(ldQueue.Length0, p requires 0 <= p < ldQueue.Length0 reads ldQueue => Row(p))
    }

    ghost function View(): State
      reads this, stAlloc, stCommit, ldQueue
    {
      State(speculation, stAlloc[..], lastStoreTag, stCommit[..], Rows())
    }

    ghost predicate Valid()
      reads this, stAlloc, stCommit, ldQueue
    {
      stAlloc.Length >= 2 && stCommit.Length == STORE_LATENCY && ldQueue.Length1 >= 2
    }

    constructor (speculation: bool, ports: nat, loadQueueSize: nat, storeQueueSize: nat)
      requires loadQueueSize >= 2 && storeQueueSize >= 2
      ensures Valid() && fresh(stAlloc) && fresh(stCommit) && fresh(ldQueue)
      ensures this.speculation == speculation && lastStoreTag == 0
      ensures stAlloc.Length == storeQueueSize && ldQueue.Length0 == ports && ldQueue.Length1 == loadQueueSize
      ensures forall i :: 0 <= i < storeQueueSize ==> stAlloc[i] == StoreSlot(INVALID_ADDR, false, 0)
      ensures forall i :: 0 <= i < STORE_LATENCY ==> stCommit[i].addr == INVALID_ADDR
      ensures forall p, i :: 0 <= p < ports && 0 <= i < loadQueueSize ==> ldQueue[p, i] == LoadSlot(false, 0, 0, false, false, 0)
    {
      this.speculation := speculation;
      stAlloc := new StoreSlot[storeQueueSize](_ => StoreSlot(INVALID_ADDR, false, 0));
      stCommit := new CommitSlot[STORE_LATENCY](_ => CommitSlot(INVALID_ADDR, 0));
      ldQueue := new LoadSlot[ports, loadQueueSize]((_, _) => LoadSlot(false, 0, 0, false, false, 0));
      lastStoreTag := 0;
    }

    /** One iteration of the main loop: the store logic, then the load logic port by port. */
    method Step(o: Offers) returns (fx: Effects)
      requires Valid() && |o.loadReqs| == ldQueue.Length0
      modifies this, stAlloc, stCommit, ldQueue
      ensures Shaped(old(View())) && View() == Cycle(old(View()), o) && Valid()
      ensures fx == CycleEffects(old(View()), o)
    {
      ghost var s := View();
      var arrived, issued, tookStore := StepStores(o, s);
      var tookLoad, sent := StepPorts(o.loadReqs);
      fx := Effects(arrived, issued, tookStore, tookLoad, sent);
    }

    method StepStores(o: Offers, ghost s: State) returns (arrived: bool, issued: Option<CommitSlot>, took: bool)
      requires Valid() && |s.stores| >= 2 && |s.commits| > 0
      requires s.stores == stAlloc[..] && s.commits == stCommit[..] && s.lastStoreTag == lastStoreTag
      requires s.speculation == speculation
      modifies stAlloc, stCommit, this`lastStoreTag
      ensures stAlloc[..] == StoresNext(s, o) && lastStoreTag == TagNext(s, o)
      ensures stCommit[..] == CommitsNext(s.commits, Issued(s, o), o.junkVal)
      ensures arrived == Arrives(s, o) && issued == Issued(s, o) && took == (Shifts(s, o) && o.storeReq.Some?)
    {
      assert stAlloc[0] == s.stores[0];
      arrived := stAlloc[0].valid && o.storeVal.Some?;
      issued := None;
      if arrived && (speculation ==> o.storeVal.value.valid) {
        issued := Some(CommitSlot(stAlloc[0].addr, o.storeVal.value.value));
      }
      PushCommit(issued, o.junkVal);
      took := false;
      if arrived || !stAlloc[0].valid {
        took := ShiftStores(o.storeReq, o.junkTag);
      }
    }

    method PushCommit(issued: Option<CommitSlot>, junk: int)
      requires stCommit.Length > 0
      modifies stCommit
      ensures stCommit[..] == CommitsNext(old(stCommit[..]), issued, junk)
    {
      if issued.Some? || stCommit[0].addr == INVALID_ADDR {
        ghost var was := stCommit[..];
        var last := stCommit.Length - 1;
        for i := 0 to last
          invariant forall h :: 0 <= h < i ==> stCommit[h] == was[h + 1]
          invariant forall h :: i <= h <= last ==> stCommit[h] == was[h]
        {
          stCommit[i] := stCommit[i + 1];
        }
        stCommit[last] := if issued.Some? then issued.value else CommitSlot(INVALID_ADDR, junk);
      }
    }

    method ShiftStores(req: Option<StoreReq>, junk: nat) returns (took: bool)
      requires stAlloc.Length >= 2
      modifies stAlloc, this`lastStoreTag
      ensures stAlloc[..] == old(stAlloc[..])[1..] + [Allocated(req, junk)]
      ensures lastStoreTag == old(lastStoreTag) + if req.Some? then 1 else 0
      ensures took == req.Some?
    {
      took := req.Some?;
      if took {
        lastStoreTag := lastStoreTag + 1;
      }
      ghost var was := stAlloc[..];
      var last := stAlloc.Length - 1;
      for i := 0 to last
        modifies stAlloc
        invariant forall h :: 0 <= h < i ==> stAlloc[h] == was[h + 1]
        invariant forall h :: i <= h <= last ==> stAlloc[h] == was[h]
      {
        stAlloc[i] := stAlloc[i + 1];
      }
      stAlloc[last] := Allocated(req, junk);
    }

    method StepPorts(reqs: seq<Option<LoadReq>>) returns (took: seq<bool>, sent: seq<Option<Sent>>)
      requires Valid() && |reqs| == ldQueue.Length0
      modifies ldQueue
      ensures |took| == |reqs| && |sent| == |reqs|
      ensures forall p :: 0 <= p < |reqs| ==>
        && Row(p) == PortNext(stAlloc[..], lastStoreTag, stCommit[..], old(Row(p)), reqs[p])
        && took[p] == TakesLoad(old(Row(p)), reqs[p]) && sent[p] == SentBy(old(Row(p)))
    {
      took, sent := [], [];
      for p := 0 to |reqs|
        invariant |took| == p && |sent| == p
        invariant forall h :: 0 <= h < p ==>
          && Row(h) == PortNext(stAlloc[..], lastStoreTag, stCommit[..], old(Row(h)), reqs[h])
          && took[h] == TakesLoad(old(Row(h)), reqs[h]) && sent[h] == SentBy(old(Row(h)))
        invariant forall h :: p <= h < |reqs| ==> Row(h) == old(Row(h))
      {
        var t, s := StepPort(p, reqs[p]);
        took, sent := took + [t], sent + [s];
      }
    }

    method StepPort(p: nat, req: Option<LoadReq>) returns (took: bool, sent: Option<Sent>)
      requires Valid() && p < ldQueue.Length0
      modifies ldQueue
      ensures Row(p) == PortNext(stAlloc[..], lastStoreTag, stCommit[..], old(Row(p)), req)
      ensures forall h :: 0 <= h < ldQueue.Length0 && h != p ==> Row(h) == old(Row(h))
      ensures took == TakesLoad(old(Row(p)), req) && sent == SentBy(old(Row(p)))
    {
      sent := SendPort(p);
      took := AcceptPort(p, req);
      CheckPort(p);
      ShiftPort(p);
    }

    method SendPort(p: nat) returns (sent: Option<Sent>)
      requires Valid() && p < ldQueue.Length0
      modifies ldQueue
      ensures Row(p) == AfterSend(old(Row(p))) && sent == SentBy(old(Row(p)))
      ensures forall h :: 0 <= h < ldQueue.Length0 && h != p ==> Row(h) == old(Row(h))
    {
      ghost var q := Row(p);
      sent := None;
      assert ldQueue[p, 0] == q[0];
      if ldQueue[p, 0].searching && ldQueue[p, 0].safe {
        sent := Some(if ldQueue[p, 0].bypass then Forwarded(ldQueue[p, 0].bypassVal) else FromMemory(ldQueue[p, 0].addr));
        ldQueue[p, 0] := ldQueue[p, 0].(searching := false);
      }
    }

    method AcceptPort(p: nat, req: Option<LoadReq>) returns (took: bool)
      requires Valid() && p < ldQueue.Length0
      modifies ldQueue
      ensures Row(p) == AfterAccept(old(Row(p)), req) && took == (!old(Row(p))[|Row(p)| - 1].searching && req.Some?)
      ensures forall h :: 0 <= h < ldQueue.Length0 && h != p ==> Row(h) == old(Row(h))
    {
      ghost var q := Row(p);
      var last := ldQueue.Length1 - 1;
      assert ldQueue[p, last] == q[last];
      took := false;
      if !ldQueue[p, last].searching {
        if req.Some? {
          took := true;
          ldQueue[p, last] := ldQueue[p, last].(addr := req.value.addr, tag := req.value.tag, searching := true);
        }
        ldQueue[p, last] := ldQueue[p, last].(safe := false);
      }
    }

    method CheckPort(p: nat)
      requires Valid() && p < ldQueue.Length0
      modifies ldQueue
      ensures Row(p) == AfterCheck(stAlloc[..], lastStoreTag, stCommit[..], old(Row(p)))
      ensures forall h :: 0 <= h < ldQueue.Length0 && h != p ==> Row(h) == old(Row(h))
    {
      ghost var q := Row(p);
      for k := 0 to 2
        invariant k >= 1 ==> ldQueue[p, 0] == Checked(stAlloc[..], lastStoreTag, stCommit[..], q[0])
        invariant k >= 2 ==> ldQueue[p, 1] == Checked(stAlloc[..], lastStoreTag, stCommit[..], q[1])
        invariant forall i :: k <= i < ldQueue.Length1 ==> ldQueue[p, i] == q[i]
        invariant forall h, i :: 0 <= h < ldQueue.Length0 && 0 <= i < ldQueue.Length1 && h != p ==>
          ldQueue[h, i] == old(ldQueue[h, i])
      {
        var slot := ldQueue[p, k];
        assert slot == q[k];
        var safe := CanGo(slot);
        var hit := FindCommit(slot.addr);
        ldQueue[p, k] := slot.(
          safe := slot.safe || safe, bypass := hit.Some?,
          bypassVal := if hit.Some? then hit.value else slot.bypassVal);
      }
    }

    method CanGo(slot: LoadSlot) returns (safe: bool)
      ensures safe == (slot.tag <= lastStoreTag && !Conflicts(stAlloc[..], slot.addr, slot.tag))
    {
      safe := false;
      if slot.tag <= lastStoreTag {
        var wait := false;
        for i := 0 to stAlloc.Length
          invariant wait == exists h :: 0 <= h < i && stAlloc[h].addr == slot.addr && stAlloc[h].tag <= slot.tag
        {
          wait := wait || (stAlloc[i].addr == slot.addr && stAlloc[i].tag <= slot.tag);
        }
        safe := !wait;
      }
    }

    /** The scan of the commit queue: a later match overwrites an earlier one. */
    method FindCommit(addr: int) returns (hit: Option<int>)
      ensures hit == LatestCommit(stCommit[..], addr)
    {
      hit := None;
      for i := 0 to stCommit.Length
        invariant hit == LatestCommit(stCommit[..i], addr)
      {
        assert stCommit[..i + 1][..i] == stCommit[..i];
        if stCommit[i].addr == addr {
          hit := Some(stCommit[i].value);
        }
      }
      assert stCommit[..stCommit.Length] == stCommit[..];
    }

    method ShiftPort(p: nat)
      requires Valid() && p < ldQueue.Length0
      modifies ldQueue
      ensures Row(p) == AfterShift(old(Row(p)))
      ensures forall h :: 0 <= h < ldQueue.Length0 && h != p ==> Row(h) == old(Row(h))
    {
      ghost var q := Row(p);
      assert ldQueue[p, 0] == q[0];
      if !ldQueue[p, 0].searching {
        var last := ldQueue.Length1 - 1;
        for i := 0 to last
          invariant forall h :: 0 <= h < i ==> ldQueue[p, h] == q[h + 1]
          invariant forall h :: i <= h <= last ==> ldQueue[p, h] == q[h]
          invariant forall h, i :: 0 <= h < ldQueue.Length0 && 0 <= i < ldQueue.Length1 && h != p ==>
            ldQueue[h, i] == old(ldQueue[h, i])
        {
          ldQueue[p, i] := ldQueue[p, i + 1];
        }
        ldQueue[p, last] := ldQueue[p, last].(searching := false, safe := false);
      }
    }
  }
}
