module DramInvariant {
  // What every cycle of the off-chip queue keeps, for a fixed stream of requests and a memory
  // in which an issued store lands within STORE_LATENCY cycles, in issue order.

  import opened Wrappers
  import opened Slices
  import opened Traces
  import opened StoreAllocation
  import opened DramQueue

  /** A store on its way to the memory, `age` cycles after it was issued. */
  datatype InFlight = InFlight(addr: int, value: int, age: nat)

  /** A load of one port: its request, and the value it must return. */
  datatype Job = Job(addr: int, tag: nat, result: int)

  // ------------------------------------------------------- memory and stores in flight

  function Written(memory: seq<int>, e: InFlight): seq<int>
  {
    if 0 <= e.addr < |memory| then memory[e.addr := e.value] else memory
  }

  /** The memory once everything in flight has landed. */
  ghost function Landed(memory: seq<int>, flight: seq<InFlight>): (r: seq<int>)
    ensures |r| == |memory|
    decreases flight
  {
    if flight == [] then memory else Landed(Written(memory, flight[0]), flight[1..])
  }

  lemma {:induction false} LandedAppend(memory: seq<int>, flight: seq<InFlight>, e: InFlight)
    requires 0 <= e.addr < |memory|
    ensures Landed(memory, flight + [e]) == Landed(memory, flight)[e.addr := e.value]
    decreases flight
  {
    if flight == [] {
      assert (flight + [e])[1..] == [];
    } else {
      assert (flight + [e])[1..] == flight[1..] + [e];
      LandedAppend(Written(memory, flight[0]), flight[1..], e);
    }
  }

  ghost function Aged(flight: seq<InFlight>): seq<InFlight>
  {
    seq(|flight|, i requires 0 <= i < |flight| => flight[i].(age := flight[i].age + 1))
  }

  lemma {:induction false} AgeDoesNotMatter(memory: seq<int>, flight: seq<InFlight>)
    ensures Landed(memory, Aged(flight)) == Landed(memory, flight)
    decreases flight
  {
    if flight != [] {
      assert Aged(flight)[1..] == Aged(flight[1..]);
      AgeDoesNotMatter(Written(memory, flight[0]), flight[1..]);
      assert Written(memory, Aged(flight)[0]) == Written(memory, flight[0]);
    }
  }

  /** Nothing in flight hits `addr`. */
  ghost predicate Settled(flight: seq<InFlight>, addr: int)
  {
    forall i :: 0 <= i < |flight| ==> flight[i].addr != addr
  }

  lemma {:induction false} SettledCell(memory: seq<int>, flight: seq<InFlight>, addr: int)
    requires 0 <= addr < |memory| && Settled(flight, addr)
    ensures Landed(memory, flight)[addr] == memory[addr]
    decreases flight
  {
    if flight != [] {
      assert flight[0].addr != addr;
      SettledCell(Written(memory, flight[0]), flight[1..], addr);
    }
  }

  ghost function FlightNext(flight: seq<InFlight>, issued: Option<CommitSlot>): seq<InFlight>
  {
    Aged(flight) + if issued.Some? then [InFlight(issued.value.addr, issued.value.value, 0)] else []
  }

  // ---------------------------------------------------------------------- commit queue

  /** A store stays in the commit queue as long as it can still be in flight. */
  ghost predicate Covered(commits: seq<CommitSlot>, e: InFlight)
  {
    e.age < |commits| ==> exists i :: |commits| - 1 - e.age <= i < |commits| && commits[i].addr == e.addr
  }

  ghost predicate AllCovered(commits: seq<CommitSlot>, flight: seq<InFlight>)
  {
    forall i :: 0 <= i < |flight| ==> Covered(commits, flight[i])
  }

  lemma {:induction false} LatestFound(commits: seq<CommitSlot>, addr: int, i: nat)
    requires i < |commits| && commits[i].addr == addr
    ensures LatestCommit(commits, addr).Some?
  {
    if i < |commits| - 1 {
      LatestFound(commits[..|commits| - 1], addr, i);
    }
  }

  /** Dropping the oldest entry never changes which value is the latest, if one is left. */
  lemma {:induction false} LatestWithoutFront(commits: seq<CommitSlot>, addr: int)
    requires commits != []
    ensures LatestCommit(commits[1..], addr).Some? ==> LatestCommit(commits[1..], addr) == LatestCommit(commits, addr)
  {
    if |commits| > 1 {
      assert commits[1..][..|commits| - 2] == commits[..|commits| - 1][1..];
      LatestWithoutFront(commits[..|commits| - 1], addr);
    }
  }

  /** Every entry for an address, and so the latest, agrees with the sequential memory. */
  ghost predicate CommitsRight(memory: seq<int>, commits: seq<CommitSlot>)
  {
    forall addr :: 0 <= addr < |memory| && LatestCommit(commits, addr).Some? ==>
      LatestCommit(commits, addr).value == memory[addr]
  }

  lemma CommitsStayRight(memory: seq<int>, commits: seq<CommitSlot>, issued: Option<CommitSlot>, junk: int)
    requires |commits| > 0 && CommitsRight(memory, commits)
    requires issued.Some? ==> 0 <= issued.value.addr < |memory|
    ensures CommitsRight(
      if issued.Some? then memory[issued.value.addr := issued.value.value] else memory,
      CommitsNext(commits, issued, junk))
  {
    var m := if issued.Some? then memory[issued.value.addr := issued.value.value] else memory;
    var c := CommitsNext(commits, issued, junk);
    if c != commits {
      var x := if issued.Some? then issued.value else CommitSlot(INVALID_ADDR, junk);
      assert c == commits[1..] + [x];
      forall addr | 0 <= addr < |m| && LatestCommit(c, addr).Some?
        ensures LatestCommit(c, addr).value == m[addr]
      {
        LatestWithoutFront(commits, addr);
      }
    }
  }

  lemma CoverageKept(commits: seq<CommitSlot>, flight: seq<InFlight>, issued: Option<CommitSlot>, junk: int)
    requires |commits| > 0 && AllCovered(commits, flight)
    ensures AllCovered(CommitsNext(commits, issued, junk), FlightNext(flight, issued))
  {
    var c := CommitsNext(commits, issued, junk);
    var f := FlightNext(flight, issued);
    forall i | 0 <= i < |f|
      ensures Covered(c, f[i])
    {
      if i < |flight| {
        assert Covered(commits, flight[i]);
        if f[i].age < |commits| {
          var h :| |commits| - 1 - flight[i].age <= h < |commits| && commits[h].addr == flight[i].addr;
          if c == commits {
            assert c[h].addr == f[i].addr;
          } else {
            assert c[h - 1].addr == f[i].addr;
          }
        }
      } else {
        assert c[|c| - 1].addr == f[i].addr;
      }
    }
  }

  // ---------------------------------------------------------------- store side invariant

  ghost predicate StoresInvariant(t: Trace, s: State, n: nat)
    requires Regular(t)
  {
    && n <= s.lastStoreTag <= |t.stores|
    && Requests(s.stores) == t.stores[n..s.lastStoreTag]
    && (forall i :: 0 <= i < |s.stores| && !s.stores[i].valid ==> s.stores[i].addr == INVALID_ADDR)
  }

  ghost predicate MemoryInvariant(t: Trace, s: State, memory: seq<int>, flight: seq<InFlight>, n: nat)
    requires Regular(t)
  {
    && n <= |t.stores|
    && |memory| == |t.memory|
    && Landed(memory, flight) == MemoryAfter(t, n)
    && CommitsRight(MemoryAfter(t, n), s.commits)
    && AllCovered(s.commits, flight)
  }

  ghost predicate StoreOffersInOrder(t: Trace, s: State, n: nat, o: Offers)
    requires Regular(t)
  {
    && (s.speculation || forall i :: 0 <= i < |t.values| ==> t.values[i].valid)
    && (o.storeVal.Some? ==> n < |t.values| && o.storeVal.value == t.values[n])
    && (o.storeReq.Some? ==> s.lastStoreTag < |t.stores| && o.storeReq.value == t.stores[s.lastStoreTag])
  }

  lemma HeadStore(t: Trace, s: State, n: nat)
    requires Regular(t) && StoresInvariant(t, s, n) && |s.stores| >= 2
    ensures s.stores[0].valid ==> n < s.lastStoreTag && s.stores[0].addr == t.stores[n].addr
  {
    if s.stores[0].valid {
      assert Requests(s.stores)[0] == t.stores[n];
    }
  }

  lemma RequestsKept(t: Trace, s: State, n: nat, o: Offers)
    requires Regular(t) && StoresInvariant(t, s, n) && StoreOffersInOrder(t, s, n, o) && |s.stores| >= 2
    ensures var n', last := n + (if Arrives(s, o) then 1 else 0), TagNext(s, o);
      && n' <= last <= |t.stores| && Requests(StoresNext(s, o)) == t.stores[n'..last]
      && (forall i :: 0 <= i < |StoresNext(s, o)| && !StoresNext(s, o)[i].valid ==> StoresNext(s, o)[i].addr == INVALID_ADDR)
  {
    if Shifts(s, o) {
      QueueShifted(t.stores, s.stores, n, s.lastStoreTag, o.storeReq, o.junkTag);
    }
  }

  /** What is issued in a cycle is exactly the next store, if it really happens. */
  lemma IssuedIsNext(t: Trace, s: State, n: nat, o: Offers)
    requires Regular(t) && StoresInvariant(t, s, n) && StoreOffersInOrder(t, s, n, o) && |s.stores| >= 2
    ensures Arrives(s, o) ==> n < |t.stores|
    ensures Issued(s, o).Some? ==>
      Arrives(s, o) && t.values[n].valid && Issued(s, o).value == CommitSlot(t.stores[n].addr, t.values[n].value)
    ensures Issued(s, o).None? && Arrives(s, o) ==> !t.values[n].valid
    ensures Issued(s, o).Some? ==>
      MemoryAfter(t, n + 1) == MemoryAfter(t, n)[Issued(s, o).value.addr := Issued(s, o).value.value]
    ensures Issued(s, o).None? && Arrives(s, o) ==> MemoryAfter(t, n + 1) == MemoryAfter(t, n)
  {
    HeadStore(t, s, n);
  }

  lemma FlightKept(t: Trace, s: State, memory: seq<int>, flight: seq<InFlight>, n: nat, o: Offers)
    requires Regular(t) && StoresInvariant(t, s, n) && StoreOffersInOrder(t, s, n, o) && |s.stores| >= 2
    requires n <= |t.stores| && |memory| == |t.memory| && Landed(memory, flight) == MemoryAfter(t, n)
    ensures Arrives(s, o) ==> n < |t.stores|
    ensures Landed(memory, FlightNext(flight, Issued(s, o))) == MemoryAfter(t, n + if Arrives(s, o) then 1 else 0)
  {
    IssuedIsNext(t, s, n, o);
    AgeDoesNotMatter(memory, flight);
    var issued := Issued(s, o);
    if issued.Some? {
      LandedAppend(memory, Aged(flight), InFlight(issued.value.addr, issued.value.value, 0));
    } else {
      assert FlightNext(flight, issued) == Aged(flight);
    }
  }

  lemma CommitsKept(t: Trace, s: State, n: nat, o: Offers)
    requires Regular(t) && StoresInvariant(t, s, n) && StoreOffersInOrder(t, s, n, o) && |s.stores| >= 2
    requires |s.commits| > 0 && n <= |t.stores| && CommitsRight(MemoryAfter(t, n), s.commits)
    ensures Arrives(s, o) ==> n < |t.stores|
    ensures CommitsRight(MemoryAfter(t, n + if Arrives(s, o) then 1 else 0), CommitsNext(s.commits, Issued(s, o), o.junkVal))
  {
    IssuedIsNext(t, s, n, o);
    CommitsStayRight(MemoryAfter(t, n), s.commits, Issued(s, o), o.junkVal);
  }

  // ----------------------------------------------------------------- load side invariant

  /** The requests in a load queue, empty slots skipped. */
  ghost function Pending(q: seq<LoadSlot>): (r: seq<(int, nat)>)
    ensures |r| <= |q|
  {
    if q == [] then []
    else if q[0].searching then [(q[0].addr, q[0].tag)] + Pending(q[1..])
    else Pending(q[1..])
  }

  lemma {:induction false} PendingAppend(q: seq<LoadSlot>, e: LoadSlot)
    ensures Pending(q + [e]) == Pending(q) + (if e.searching then [(e.addr, e.tag)] else [])
  {
    if q == [] {
      assert (q + [e])[1..] == [];
    } else {
      assert (q + [e])[1..] == q[1..] + [e];
      PendingAppend(q[1..], e);
    }
  }

  lemma {:induction false} PendingSame(q: seq<LoadSlot>, r: seq<LoadSlot>)
    requires |q| == |r|
    requires forall i :: 0 <= i < |q| ==>
      q[i].searching == r[i].searching && (q[i].searching ==> q[i].addr == r[i].addr && q[i].tag == r[i].tag)
    ensures Pending(q) == Pending(r)
  {
    if q != [] {
      PendingSame(q[1..], r[1..]);
    }
  }

  ghost function Keys(jobs: seq<Job>): seq<(int, nat)>
  {
    seq(|jobs|, i requires 0 <= i < |jobs| => (jobs[i].addr, jobs[i].tag))
  }

  ghost predicate JobsRight(t: Trace, jobs: seq<Job>)
    requires Regular(t)
  {
    forall i :: 0 <= i < |jobs| ==>
      && 0 <= jobs[i].addr < |t.memory| && jobs[i].tag <= |t.stores|
      && jobs[i].result == MemoryAfter(t, jobs[i].tag)[jobs[i].addr]
  }

  /** A safe slot: every earlier store to its address has been issued, and the bypass fields
      tell whether, and with which value, the commit queue still knows of one. */
  ghost predicate SlotReady(t: Trace, n: nat, commits: seq<CommitSlot>, q: LoadSlot)
  {
    q.searching && q.safe ==>
      && Clear(t, n, q.addr, q.tag)
      && q.bypass == LatestCommit(commits, q.addr).Some?
      && (q.bypass ==> q.bypassVal == LatestCommit(commits, q.addr).value)
  }

  ghost predicate PortInvariant(t: Trace, n: nat, commits: seq<CommitSlot>, q: seq<LoadSlot>, jobs: seq<Job>,
                                sent: nat, accepted: nat)
  {
    && |q| >= 2
    && sent <= accepted <= |jobs|
    && Pending(q) == Keys(jobs)[sent..accepted]
    && (forall i :: 0 <= i < |q| ==> SlotReady(t, n, commits, q[i]))
    && (forall i :: 2 <= i < |q| && q[i].searching ==> !q[i].safe)
  }

  /** Store values come no earlier than the loads that precede the store are received. */
  ghost predicate NoneEarly(jobs: seq<Job>, received: nat, n: nat)
  {
    forall i :: received <= i < |jobs| ==> n <= jobs[i].tag
  }

  lemma HeadJob(q: seq<LoadSlot>, jobs: seq<Job>, sent: nat, accepted: nat)
    requires |q| >= 2 && sent <= accepted <= |jobs| && Pending(q) == Keys(jobs)[sent..accepted]
    ensures q[0].searching ==> sent < accepted && jobs[sent].addr == q[0].addr && jobs[sent].tag == q[0].tag
  {
    if q[0].searching {
      assert Pending(q)[0] == Keys(jobs)[sent];
    }
  }

  /** A forwarded value is the sequential one. */
  lemma ForwardedIsSequential(t: Trace, s: State, q: seq<LoadSlot>, jobs: seq<Job>, n: nat, sent: nat, accepted: nat)
    requires Regular(t) && n <= |t.stores| && CommitsRight(MemoryAfter(t, n), s.commits)
    requires JobsRight(t, jobs) && NoneEarly(jobs, sent, n)
    requires PortInvariant(t, n, s.commits, q, jobs, sent, accepted)
    requires SentBy(q).Some? && SentBy(q).value.Forwarded?
    ensures sent < accepted && SentBy(q).value.value == jobs[sent].result
  {
    HeadJob(q, jobs, sent, accepted);
    assert SlotReady(t, n, s.commits, q[0]);
    ClearKeepsCell(t, n, q[0].addr, q[0].tag);
  }

  /** A load sent to memory finds no store to its address in flight, provided that stores
      older than the commit queue have landed. */
  lemma FetchIsSettled(t: Trace, s: State, flight: seq<InFlight>, q: seq<LoadSlot>, jobs: seq<Job>, n: nat, sent: nat, accepted: nat)
    requires AllCovered(s.commits, flight)
    requires forall i :: 0 <= i < |flight| ==> flight[i].age < |s.commits|
    requires PortInvariant(t, n, s.commits, q, jobs, sent, accepted)
    requires SentBy(q).Some? && SentBy(q).value.FromMemory?
    ensures sent < accepted && SentBy(q).value.addr == jobs[sent].addr
    ensures Settled(flight, jobs[sent].addr) && Clear(t, n, jobs[sent].addr, jobs[sent].tag)
  {
    HeadJob(q, jobs, sent, accepted);
    assert SlotReady(t, n, s.commits, q[0]);
    forall i | 0 <= i < |flight|
      ensures flight[i].addr != q[0].addr
    {
      if flight[i].addr == q[0].addr {
        assert Covered(s.commits, flight[i]);
        var h :| |s.commits| - 1 - flight[i].age <= h < |s.commits| && s.commits[h].addr == flight[i].addr;
        LatestFound(s.commits, q[0].addr, h);
      }
    }
  }

  // --------------------------------------------------------- what a cycle does to a port

  lemma PendingLast(q: seq<LoadSlot>, e: LoadSlot)
    requires q != []
    ensures Pending(q[|q| - 1 := e]) == Pending(q[..|q| - 1]) + if e.searching then [(e.addr, e.tag)] else []
  {
    assert q[|q| - 1 := e] == q[..|q| - 1] + [e];
    PendingAppend(q[..|q| - 1], e);
  }

  lemma PendingAccepts(q: seq<LoadSlot>, req: Option<LoadReq>)
    requires |q| >= 2
    ensures Pending(AfterAccept(q, req)) == Pending(q) +
      if !q[|q| - 1].searching && req.Some? then [(req.value.addr, req.value.tag)] else []
  {
    var last := |q| - 1;
    if !q[last].searching {
      var e := AfterAccept(q, req)[last];
      assert Pending(q) == Pending(q[..last]) by {
        assert q[last := q[last]] == q;
        PendingLast(q, q[last]);
      }
      assert AfterAccept(q, req) == q[last := e];
      PendingLast(q, e);
    }
  }

  lemma AcceptKept(q: seq<LoadSlot>, jobs: seq<Job>, sent: nat, accepted: nat, req: Option<LoadReq>)
    requires |q| >= 2 && sent <= accepted <= |jobs| && Pending(q) == Keys(jobs)[sent..accepted]
    requires req.Some? ==> accepted < |jobs| && req.value.addr == jobs[accepted].addr && req.value.tag == jobs[accepted].tag
    ensures var accepted' := accepted + if !q[|q| - 1].searching && req.Some? then 1 else 0;
      accepted' <= |jobs| && Pending(AfterAccept(q, req)) == Keys(jobs)[sent..accepted']
  {
    PendingAccepts(q, req);
    SliceMoves(Keys(jobs), sent, accepted, false, !q[|q| - 1].searching && req.Some?);
  }

  lemma ShiftKept(q: seq<LoadSlot>)
    requires |q| >= 2
    ensures Pending(AfterShift(q)) == Pending(q)
  {
    if !q[0].searching {
      PendingAppend(q[1..], q[|q| - 1].(searching := false, safe := false));
    }
  }

  /** Requests move through a port's queue in order, whatever the flags do. */
  lemma PendingKept(stores: seq<StoreSlot>, tag: nat, commits: seq<CommitSlot>, q: seq<LoadSlot>, jobs: seq<Job>,
                    sent: nat, accepted: nat, req: Option<LoadReq>)
    requires |q| >= 2 && sent <= accepted <= |jobs| && Pending(q) == Keys(jobs)[sent..accepted]
    requires req.Some? ==> accepted < |jobs| && req.value.addr == jobs[accepted].addr && req.value.tag == jobs[accepted].tag
    ensures var sent', accepted' := sent + (if SentBy(q).Some? then 1 else 0), accepted + if TakesLoad(q, req) then 1 else 0;
      && sent' <= accepted' <= |jobs|
      && Pending(PortNext(stores, tag, commits, q, req)) == Keys(jobs)[sent'..accepted']
  {
    AcceptKept(AfterSend(q), jobs, sent + (if SentBy(q).Some? then 1 else 0), accepted, req);
    PortPending(stores, tag, commits, q, req);
  }

  /** Neither the check nor the shift touches the requests. */
  lemma PortPending(stores: seq<StoreSlot>, tag: nat, commits: seq<CommitSlot>, q: seq<LoadSlot>, req: Option<LoadReq>)
    requires |q| >= 2
    ensures Pending(PortNext(stores, tag, commits, q, req)) == Pending(AfterAccept(AfterSend(q), req))
  {
    var q2 := AfterAccept(AfterSend(q), req);
    ShiftKept(AfterCheck(stores, tag, commits, q2));
  }

  /** With every earlier store accepted and none of them matching, all of them have been
      issued already, or go elsewhere. */
  lemma CheckedIsClear(t: Trace, stores: seq<StoreSlot>, n: nat, last: nat, addr: int, tag: nat)
    requires n <= last <= |t.stores| && Requests(stores) == t.stores[n..last]
    requires forall i :: 0 <= i < |t.stores| ==> t.stores[i].tag == i + 1
    requires tag <= last && !Conflicts(stores, addr, tag)
    ensures Clear(t, n, addr, tag)
  {
    forall i | n <= i < tag && i < |t.stores|
      ensures t.stores[i].addr != addr
    {
      assert t.stores[i] == Requests(stores)[i - n];
      var h := RequestHasSlot(stores, t.stores[i]);
    }
  }

  /** The flags before the check: only the two front slots can be marked safe. */
  ghost predicate ClearFlags(t: Trace, n: nat, q: seq<LoadSlot>)
  {
    && (forall i :: 0 <= i < |q| && q[i].searching && q[i].safe ==> Clear(t, n, q[i].addr, q[i].tag))
    && (forall i :: 2 <= i < |q| && q[i].searching ==> !q[i].safe)
  }

  lemma FlagsAfterCheck(t: Trace, stores: seq<StoreSlot>, n: nat, last: nat, commits: seq<CommitSlot>, q: seq<LoadSlot>)
    requires |q| >= 2 && ClearFlags(t, n, q)
    requires n <= last <= |t.stores| && Requests(stores) == t.stores[n..last]
    requires forall i :: 0 <= i < |t.stores| ==> t.stores[i].tag == i + 1
    ensures var r := AfterCheck(stores, last, commits, q);
      && (forall i :: 0 <= i < |r| ==> SlotReady(t, n, commits, r[i]))
      && (forall i :: 2 <= i < |r| && r[i].searching ==> !r[i].safe)
  {
    var r := AfterCheck(stores, last, commits, q);
    forall i | 0 <= i < 2
      ensures SlotReady(t, n, commits, r[i])
    {
      if q[i].tag <= last && !Conflicts(stores, q[i].addr, q[i].tag) {
        CheckedIsClear(t, stores, n, last, q[i].addr, q[i].tag);
      }
    }
  }

  /** The part of the store side that the loads of a cycle look at. */
  ghost predicate Allocation(t: Trace, stores: seq<StoreSlot>, n: nat, last: nat)
  {
    && n <= last <= |t.stores| && Requests(stores) == t.stores[n..last]
    && forall i :: 0 <= i < |t.stores| ==> t.stores[i].tag == i + 1
  }

  /** A load queue through a cycle, in which the store side moves from `n` to `n'` consumed
      values and leaves the allocation and commit queues as given. */
  lemma PortKept(t: Trace, n: nat, n': nat, stores: seq<StoreSlot>, last: nat, commits: seq<CommitSlot>, commits': seq<CommitSlot>,
                 q: seq<LoadSlot>, jobs: seq<Job>, sent: nat, accepted: nat, req: Option<LoadReq>)
    requires n <= n' && Allocation(t, stores, n', last)
    requires PortInvariant(t, n, commits, q, jobs, sent, accepted)
    requires req.Some? ==> accepted < |jobs| && req.value.addr == jobs[accepted].addr && req.value.tag == jobs[accepted].tag
    ensures PortInvariant(t, n', commits', PortNext(stores, last, commits', q, req), jobs,
      sent + (if SentBy(q).Some? then 1 else 0), accepted + if TakesLoad(q, req) then 1 else 0)
  {
    PendingKept(stores, last, commits', q, jobs, sent, accepted, req);
    FlagsBeforeCheck(t, n, n', commits, q, req);
    var q2 := AfterAccept(AfterSend(q), req);
    FlagsAfterCheck(t, stores, n', last, commits', q2);
    FlagsAfterShift(t, n', commits', AfterCheck(stores, last, commits', q2));
  }

  /** Sending and accepting mark no slot safe, and what is clear stays clear. */
  lemma FlagsBeforeCheck(t: Trace, n: nat, n': nat, commits: seq<CommitSlot>, q: seq<LoadSlot>, req: Option<LoadReq>)
    requires n <= n' && |q| >= 2
    requires forall i :: 0 <= i < |q| ==> SlotReady(t, n, commits, q[i])
    requires forall i :: 2 <= i < |q| && q[i].searching ==> !q[i].safe
    ensures ClearFlags(t, n', AfterAccept(AfterSend(q), req))
  {
    assert ClearFlags(t, n, q) by {
      assert forall i :: 0 <= i < |q| ==> SlotReady(t, n, commits, q[i]);
    }
    assert ClearFlags(t, n, AfterSend(q));
  }

  lemma FlagsAfterShift(t: Trace, n: nat, commits: seq<CommitSlot>, r: seq<LoadSlot>)
    requires |r| >= 2
    requires forall i :: 0 <= i < |r| ==> SlotReady(t, n, commits, r[i])
    requires forall i :: 2 <= i < |r| && r[i].searching ==> !r[i].safe
    ensures var z := AfterShift(r);
      && (forall i :: 0 <= i < |z| ==> SlotReady(t, n, commits, z[i]))
      && (forall i :: 2 <= i < |z| && z[i].searching ==> !z[i].safe)
  {
  }

}
