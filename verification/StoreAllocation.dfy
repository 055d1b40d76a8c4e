/**
 The store allocation queue, which both load-store queues have: a shift register of accepted
 store requests with bubbles, and the check of a load against it.  Apart from the bubbles the
 register holds the accepted requests in order, and a load conflicts with it exactly if some
 request that is not later in program order has the same address.
 */
module StoreAllocation {
  import opened Wrappers
  import opened Slices
  import opened Traces

  const INVALID_ADDR := -1

  datatype StoreSlot = StoreSlot(addr: int, valid: bool, tag: nat)

  predicate Conflicts(stores: seq<StoreSlot>, addr: int, tag: nat)
  {
    exists i :: 0 <= i < |stores| && stores[i].addr == addr && stores[i].tag <= tag
  }

  /** What enters the queue in a cycle; a bubble carries an unassigned tag. */
  function Allocated(req: Option<StoreReq>, junk: nat): StoreSlot
  {
    if req.Some? then StoreSlot(req.value.addr, true, req.value.tag) else StoreSlot(INVALID_ADDR, false, junk)
  }

  /** The store requests in the allocation queue, bubbles skipped. */
  ghost function Requests(q: seq<StoreSlot>): (r: seq<StoreReq>)
    ensures |r| <= |q|
  {
    if q == [] then []
    else if q[0].valid then [StoreReq(q[0].addr, q[0].tag)] + Requests(q[1..])
    else Requests(q[1..])
  }

  lemma {:induction false} RequestsAppend(q: seq<StoreSlot>, e: StoreSlot)
    ensures Requests(q + [e]) == Requests(q) + (if e.valid then [StoreReq(e.addr, e.tag)] else [])
  {
    if q == [] {
      assert (q + [e])[1..] == [];
    } else {
      assert (q + [e])[1..] == q[1..] + [e];
      RequestsAppend(q[1..], e);
    }
  }

  /** Every valid slot shows up among the requests. */
  lemma {:induction false} SlotIsRequested(q: seq<StoreSlot>, i: nat)
    requires i < |q| && q[i].valid
    ensures StoreReq(q[i].addr, q[i].tag) in Requests(q)
  {
    if i > 0 {
      SlotIsRequested(q[1..], i - 1);
    }
  }

  lemma {:induction false} RequestHasSlot(q: seq<StoreSlot>, r: StoreReq) returns (i: nat)
    requires r in Requests(q)
    ensures i < |q| && q[i].valid && r == StoreReq(q[i].addr, q[i].tag)
  {
    if q[0].valid && r == StoreReq(q[0].addr, q[0].tag) {
      i := 0;
    } else {
      i := RequestHasSlot(q[1..], r);
      i := i + 1;
    }
  }

  lemma ShiftMoves(q: seq<StoreSlot>, req: Option<StoreReq>, junk: nat)
    requires |q| >= 2
    ensures q[0].valid ==> Requests(q) != []
    ensures Requests(q[1..] + [Allocated(req, junk)]) ==
      Rest(Requests(q), q[0].valid) + (if req.Some? then [req.value] else [])
  {
    RequestsAppend(q[1..], Allocated(req, junk));
  }

  /** Shifting the queue and accepting a request moves along the stream of requests. */
  lemma QueueShifted(stores: seq<StoreReq>, q: seq<StoreSlot>, n: nat, last: nat, req: Option<StoreReq>, junk: nat)
    requires |q| >= 2 && n <= last <= |stores| && Requests(q) == stores[n..last]
    requires req.Some? ==> last < |stores| && req.value == stores[last]
    ensures q[0].valid ==> n < last
    ensures Requests(q[1..] + [Allocated(req, junk)]) ==
      stores[n + (if q[0].valid then 1 else 0)..last + if req.Some? then 1 else 0]
  {
    ShiftMoves(q, req, junk);
    SliceMoves(stores, n, last, q[0].valid, req.Some?);
  }

  lemma {:induction false} NothingRequested(q: seq<StoreSlot>)
    requires forall i :: 0 <= i < |q| ==> !q[i].valid
    ensures Requests(q) == []
  {
    if q != [] {
      NothingRequested(q[1..]);
    }
  }

  /** Bubbles in front of the oldest entry. */
  ghost function StoreDepth(q: seq<StoreSlot>): (d: nat)
    ensures d <= |q|
    ensures q != [] ==> d < |q|
  {
    if Requests(q) == [] || q[0].valid then 0 else 1 + StoreDepth(q[1..])
  }

  lemma {:induction false} StoreDepthShifts(q: seq<StoreSlot>, e: StoreSlot)
    requires !e.valid
    ensures StoreDepth(q + [e]) == StoreDepth(q)
  {
    RequestsAppend(q, e);
    if q != [] && Requests(q) != [] && !q[0].valid {
      assert (q + [e])[1..] == q[1..] + [e];
      StoreDepthShifts(q[1..], e);
    }
  }
}
