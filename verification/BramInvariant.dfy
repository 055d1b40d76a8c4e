module BramInvariant {
  // What every cycle of the on-chip queue keeps, for a fixed stream of requests.
  //
  // A `Trace` is what a kernel sends: store requests and store values in program order, load
  // requests in program order, and the value each load must return.  `Invariant` ties the
  // registers of the queue to three positions in those streams.

  import opened Wrappers
  import opened Traces
  import opened StoreAllocation
  import opened BramQueue

  /** How far the queue is: store values consumed, loads answered, loads accepted. */
  datatype Progress = Progress(consumed: nat, answered: nat, accepted: nat)

  // ------------------------------------------------------------ contents of the queues

  ghost function Pending(q: seq<LoadSlot>): (r: seq<LoadReq>)
    ensures |r| <= |q|
  {
    if q == [] then []
    else if q[0].valid then [LoadReq(q[0].addr, q[0].tag, q[0].port)] + Pending(q[1..])
    else Pending(q[1..])
  }

  lemma {:induction false} PendingAppend(q: seq<LoadSlot>, e: LoadSlot)
    ensures Pending(q + [e]) == Pending(q) + (if e.valid then [LoadReq(e.addr, e.tag, e.port)] else [])
  {
    if q == [] {
      assert (q + [e])[1..] == [];
    } else {
      assert (q + [e])[1..] == q[1..] + [e];
      PendingAppend(q[1..], e);
    }
  }

  /** Only validity and the request fields of a load slot matter to `Pending`. */
  lemma {:induction false} PendingSame(q: seq<LoadSlot>, p: seq<LoadSlot>)
    requires |q| == |p|
    requires forall i :: 0 <= i < |q| ==>
      q[i].valid == p[i].valid && (q[i].valid ==> (q[i].addr, q[i].tag, q[i].port) == (p[i].addr, p[i].tag, p[i].port))
    ensures Pending(q) == Pending(p)
  {
    if q != [] {
      PendingSame(q[1..], p[1..]);
    }
  }

  // ------------------------------------------------------------------- the invariant

  ghost predicate StoresInvariant(t: Trace, s: State, n: nat)
    requires Regular(t)
  {
    && n <= s.lastStoreTag <= |t.stores|
    && Requests(s.stores) == t.stores[n..s.lastStoreTag]
    && (forall i :: 0 <= i < |s.stores| && !s.stores[i].valid ==> s.stores[i].addr == INVALID_ADDR)
    && s.data == MemoryAfter(t, n)
  }

  ghost predicate LoadsInvariant(t: Trace, loads: seq<LoadSlot>, latch: int, n: nat, answered: nat, accepted: nat)
    requires Regular(t)
  {
    && |loads| >= 2
    && answered <= accepted <= |t.loads|
    && Pending(loads) == t.loads[answered..accepted]
    && (forall i :: 0 <= i < |loads| && loads[i].safe ==> Clear(t, n, loads[i].addr, loads[i].tag))
    && (forall i :: 1 <= i < |loads| && loads[i].safe ==> loads[i].valid)
    && (forall i :: 1 <= i < |loads| ==> !loads[i].valueLatched)
    && (loads[0].valueLatched ==> loads[0].valid && latch == t.results[answered])
  }

  ghost predicate Invariant(t: Trace, s: State, p: Progress)
  {
    && Regular(t) && Sequential(t)
    && Shaped(s)
    && (s.speculation || forall i :: 0 <= i < |t.values| ==> t.values[i].valid)
    && StoresInvariant(t, s, p.consumed)
    && LoadsInvariant(t, s.loads, s.latch, p.consumed, p.answered, p.accepted)
    && NoValueEarly(t, p.consumed, p.answered)
  }

  /** The pipes offer the next items of the streams. */
  ghost predicate InOrder(t: Trace, s: State, p: Progress, o: Offers)
  {
    && |o.room| > 0
    && (forall i :: 0 <= i < |t.loads| ==> t.loads[i].port < |o.room|)
    && (o.storeVal.Some? ==>
      && p.consumed < |t.values| && o.storeVal.value == t.values[p.consumed]
      && NoValueEarly(t, p.consumed + 1, p.answered))
    && (o.loadReq.Some? ==> p.accepted < |t.loads| && o.loadReq.value == t.loads[p.accepted])
    && (o.storeReq.Some? ==> s.lastStoreTag < |t.stores| && o.storeReq.value == t.stores[s.lastStoreTag])
  }

  ghost function ProgressNext(s: State, p: Progress, o: Offers): Progress
    requires Shaped(s)
  {
    var fx := CycleEffects(s, o);
    Progress(
      p.consumed + (if fx.tookVal then 1 else 0),
      p.answered + (if fx.answer.Some? then 1 else 0),
      p.accepted + (if fx.tookLoad then 1 else 0))
  }

  // -------------------------------------------------------------- what a cycle keeps

  /** The store at the head of the allocation queue is the next one in program order. */
  lemma HeadStore(t: Trace, s: State, n: nat)
    requires Regular(t) && StoresInvariant(t, s, n) && |s.stores| >= 2
    ensures s.stores[0].valid ==> n < s.lastStoreTag && s.stores[0].addr == t.stores[n].addr && s.stores[0].tag == n + 1
  {
    if s.stores[0].valid {
      assert Requests(s.stores)[0] == t.stores[n];
    }
  }

  lemma HeadLoad(t: Trace, loads: seq<LoadSlot>, latch: int, n: nat, answered: nat, accepted: nat)
    requires Regular(t) && LoadsInvariant(t, loads, latch, n, answered, accepted)
    ensures loads[0].valid ==>
      answered < accepted && t.loads[answered] == LoadReq(loads[0].addr, loads[0].tag, loads[0].port)
  {
    if loads[0].valid {
      assert Pending(loads)[0] == t.loads[answered];
    }
  }

  lemma DataKept(t: Trace, s: State, p: Progress, o: Offers)
    requires Invariant(t, s, p) && InOrder(t, s, p, o)
    ensures Arrives(s, o) ==> p.consumed < s.lastStoreTag
    ensures DataNext(s, o) == MemoryAfter(t, p.consumed + if Arrives(s, o) then 1 else 0)
  {
    HeadStore(t, s, p.consumed);
  }

  lemma RequestsKept(t: Trace, s: State, p: Progress, o: Offers)
    requires Regular(t) && StoresInvariant(t, s, p.consumed) && InOrder(t, s, p, o) && |s.stores| >= 2
    ensures var n, last := p.consumed + (if Arrives(s, o) then 1 else 0), TagNext(s, o);
      n <= last <= |t.stores| && Requests(StoresNext(s, o)) == t.stores[n..last]
  {
    if Shifts(s, o) {
      QueueShifted(t.stores, s.stores, p.consumed, s.lastStoreTag, o.storeReq, o.junk);
      assert o.storeReq.Some? ==> o.storeReq.value.tag == s.lastStoreTag + 1;
    }
  }

  lemma StoresKept(t: Trace, s: State, p: Progress, o: Offers)
    requires Invariant(t, s, p) && InOrder(t, s, p, o)
    ensures StoresInvariant(t, Cycle(s, o), p.consumed + if Arrives(s, o) then 1 else 0)
  {
    DataKept(t, s, p, o);
    RequestsKept(t, s, p, o);
  }

  /** A load marked safe, or bypassed, gets the value of the sequential memory. */
  lemma LatchIsSequential(t: Trace, s: State, p: Progress, o: Offers)
    requires Invariant(t, s, p) && InOrder(t, s, p, o) && Answers(s, o)
    ensures p.answered < |t.loads| && LatchNext(s, o) == t.results[p.answered]
  {
    HeadLoad(t, s.loads, s.latch, p.consumed, p.answered, p.accepted);
    HeadStore(t, s, p.consumed);
    var head := s.loads[0];
    assert t.results[p.answered] == MemoryAfter(t, head.tag)[head.addr];
    if !head.valueLatched {
      if Bypasses(s, o) {
        assert head.tag == p.consumed + 1;
      } else {
        assert p.consumed <= head.tag;
        ClearKeepsCell(t, p.consumed, head.addr, head.tag);
      }
    }
  }

  lemma AnsweredKept(t: Trace, s: State, p: Progress, o: Offers, n: nat)
    requires Invariant(t, s, p) && InOrder(t, s, p, o) && p.consumed <= n
    ensures LoadsInvariant(t, LoadsAnswered(s, o), LatchNext(s, o), n,
      p.answered + (if Returns(s, o) then 1 else 0), p.accepted)
  {
    HeadLoad(t, s.loads, s.latch, p.consumed, p.answered, p.accepted);
    if Answers(s, o) {
      LatchIsSequential(t, s, p, o);
    }
    var l := LoadsAnswered(s, o);
    assert l[1..] == s.loads[1..];
    if Returns(s, o) {
      assert Pending(l) == Pending(s.loads)[1..];
    } else {
      PendingSame(s.loads, l);
    }
  }

  lemma AcceptedKept(t: Trace, loads: seq<LoadSlot>, latch: int, n: nat, answered: nat, accepted: nat, req: Option<LoadReq>)
    requires Regular(t) && LoadsInvariant(t, loads, latch, n, answered, accepted)
    requires req.Some? ==> accepted < |t.loads| && req.value == t.loads[accepted]
    ensures LoadsInvariant(t, LoadsAccepted(loads, req), latch, n, answered,
      accepted + if !loads[|loads| - 1].valid && req.Some? then 1 else 0)
  {
    var last := |loads| - 1;
    if !loads[last].valid && req.Some? {
      var l := LoadsAccepted(loads, req);
      assert loads == loads[..last] + [loads[last]];
      assert l == loads[..last] + [l[last]];
      PendingAppend(loads[..last], loads[last]);
      PendingAppend(loads[..last], l[last]);
      assert t.loads[answered..accepted + 1] == t.loads[answered..accepted] + [req.value];
    }
  }

  /** With every earlier store in the queue and none of them matching, the load is safe. */
  lemma CheckedIsClear(t: Trace, s: State, n: nat, load: LoadSlot)
    requires Regular(t) && StoresInvariant(t, s, n) && load.tag <= s.lastStoreTag && !Conflicts(s.stores, load.addr, load.tag)
    ensures Clear(t, n, load.addr, load.tag)
  {
    forall i | n <= i < load.tag && i < |t.stores|
      ensures t.stores[i].addr != load.addr
    {
      assert t.stores[i] == Requests(s.stores)[i - n];
      var h := RequestHasSlot(s.stores, t.stores[i]);
    }
  }

  lemma CheckedKept(t: Trace, s: State, p: Progress, loads: seq<LoadSlot>, latch: int, n: nat, answered: nat, accepted: nat)
    requires Regular(t) && StoresInvariant(t, s, p.consumed) && p.consumed <= n
    requires LoadsInvariant(t, loads, latch, n, answered, accepted)
    ensures LoadsInvariant(t, LoadsChecked(s.stores, s.lastStoreTag, loads), latch, n, answered, accepted)
  {
    var l := LoadsChecked(s.stores, s.lastStoreTag, loads);
    PendingSame(loads, l);
    forall i | 0 <= i < |l| && l[i].safe
      ensures Clear(t, n, l[i].addr, l[i].tag)
    {
      if !loads[i].safe {
        CheckedIsClear(t, s, p.consumed, loads[i]);
      }
    }
  }

  lemma ShiftedKept(t: Trace, loads: seq<LoadSlot>, latch: int, n: nat, answered: nat, accepted: nat, ports: nat)
    requires Regular(t) && LoadsInvariant(t, loads, latch, n, answered, accepted)
    ensures LoadsInvariant(t, LoadsShifted(loads, ports), latch, n, answered, accepted)
  {
    if !loads[0].valid {
      PendingAppend(loads[1..], EmptyLoad(ports));
    }
  }

  lemma LoadsKept(t: Trace, s: State, p: Progress, o: Offers)
    requires Invariant(t, s, p) && InOrder(t, s, p, o)
    ensures var p' := ProgressNext(s, p, o);
      LoadsInvariant(t, LoadsNext(s, o), LatchNext(s, o), p'.consumed, p'.answered, p'.accepted)
  {
    var p' := ProgressNext(s, p, o);
    var l1 := LoadsAnswered(s, o);
    var l2 := LoadsAccepted(l1, o.loadReq);
    var latch := LatchNext(s, o);
    AnsweredKept(t, s, p, o, p'.consumed);
    AcceptedKept(t, l1, latch, p'.consumed, p'.answered, p.accepted, o.loadReq);
    CheckedKept(t, s, p, l2, latch, p'.consumed, p'.answered, p'.accepted);
    ShiftedKept(t, LoadsChecked(s.stores, s.lastStoreTag, l2), latch, p'.consumed, p'.answered, p'.accepted, |o.room|);
  }

  /** One cycle keeps the invariant. */
  lemma CycleKeeps(t: Trace, s: State, p: Progress, o: Offers)
    requires Invariant(t, s, p) && InOrder(t, s, p, o)
    ensures Shaped(Cycle(s, o)) && Invariant(t, Cycle(s, o), ProgressNext(s, p, o))
  {
    assert Acceptable(s, o);
    ShapeKept(s, o);
    StoresKept(t, s, p, o);
    LoadsKept(t, s, p, o);
  }

  /** The only value a cycle returns is the one that sequential execution gives to the
      oldest unanswered load, and it goes to that load's port. */
  lemma AnswerIsSequential(t: Trace, s: State, p: Progress, o: Offers)
    requires Invariant(t, s, p) && InOrder(t, s, p, o)
    ensures var answer := CycleEffects(s, o).answer;
      answer.Some? ==>
        && p.answered < p.accepted
        && answer.value == Answer(t.loads[p.answered].port, t.results[p.answered])
  {
    HeadLoad(t, s.loads, s.latch, p.consumed, p.answered, p.accepted);
    if Returns(s, o) {
      LatchIsSequential(t, s, p, o);
      assert t.loads[p.answered].port < |o.room|;
    }
  }

  /** The registers as the kernel initialises them. */
  ghost predicate Reset(t: Trace, s: State)
  {
    && |s.stores| >= 2 && |s.loads| >= 2 && |t.memory| > 0
    && s.data == t.memory && s.lastStoreTag == 0
    && (forall i :: 0 <= i < |s.stores| ==> s.stores[i] == StoreSlot(INVALID_ADDR, false, 0))
    && (forall i :: 0 <= i < |s.loads| ==> s.loads[i] == LoadSlot(0, 0, false, false, false, 0))
  }

  lemma {:induction false} NothingPending(q: seq<LoadSlot>)
    requires forall i :: 0 <= i < |q| ==> !q[i].valid
    ensures Pending(q) == []
  {
    if q != [] {
      NothingPending(q[1..]);
    }
  }

  lemma ResetIsInvariant(t: Trace, s: State)
    requires Regular(t) && Sequential(t) && Reset(t, s)
    requires s.speculation || forall i :: 0 <= i < |t.values| ==> t.values[i].valid
    ensures Invariant(t, s, Progress(0, 0, 0))
  {
    NothingRequested(s.stores);
    NothingPending(s.loads);
  }
}
