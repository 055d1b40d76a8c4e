module DramPorts {
  // The way back of off-chip loads.  Per load port, a value comes either straight from the
  // queue (bypass pipe) or from the memory through the LoadPort kernel, and the LoadMux kernel
  // puts the two streams back into issue order following a stream of selector bits.

  import opened Wrappers
  import opened Traces
  import opened DramQueue
  import opened DramInvariant

  /** Positions in a port's stream of loads. */
  datatype Counts = Counts(received: nat, muxed: nat, sent: nat, accepted: nat)

  datatype Port = Port(
    reqs: seq<LoadReq>, counts: Counts,
    select: seq<bool>, bypassed: seq<int>, addrs: seq<int>, fetched: seq<int>, answers: seq<int>)

  // ------------------------------------------------------------------ the three kernels

  /** The queue sends a load on its way, if it has one that may go. */
  function SendOn(p: Port, sent: Option<Sent>): Port
  {
    match sent
    case None => p
    case Some(Forwarded(v)) =>
      p.(select := p.select + [true], bypassed := p.bypassed + [v], counts := p.counts.(sent := p.counts.sent + 1))
    case Some(FromMemory(a)) =>
      p.(select := p.select + [false], addrs := p.addrs + [a], counts := p.counts.(sent := p.counts.sent + 1))
  }

  /** LoadPort: one request is served by the memory. */
  function Fetch(p: Port, memory: seq<int>): Port
    requires p.addrs != [] && 0 <= p.addrs[0] < |memory|
  {
    p.(addrs := p.addrs[1..], fetched := p.fetched + [memory[p.addrs[0]]])
  }

  /** LoadMux waits for the value that the next selector bit asks for. */
  predicate MuxReady(p: Port)
  {
    p.select != [] && if p.select[0] then p.bypassed != [] else p.fetched != []
  }

  function Mux(p: Port): Port
    requires MuxReady(p)
  {
    var counts := p.counts.(muxed := p.counts.muxed + 1);
    if p.select[0] then
      p.(select := p.select[1..], bypassed := p.bypassed[1..], answers := p.answers + [p.bypassed[0]], counts := counts)
    else
      p.(select := p.select[1..], fetched := p.fetched[1..], answers := p.answers + [p.fetched[0]], counts := counts)
  }

  function Receive(p: Port): Port
    requires p.answers != []
  {
    p.(answers := p.answers[1..], counts := p.counts.(received := p.counts.received + 1))
  }

  // ---------------------------------------------------------------------- the invariant

  ghost function Results(jobs: seq<Job>): seq<int>
  {
    seq(|jobs|, i requires 0 <= i < |jobs| => jobs[i].result)
  }

  ghost function Addrs(jobs: seq<Job>): seq<int>
  {
    seq(|jobs|, i requires 0 <= i < |jobs| => jobs[i].addr)
  }

  /** The loads among `jobs` that take the bypass (or, for `false`, the memory). */
  ghost function Routed(jobs: seq<Job>, select: seq<bool>, bypass: bool): (r: seq<Job>)
    requires |jobs| == |select|
    ensures |r| <= |jobs|
    ensures forall j :: j in r ==> j in jobs
  {
    if jobs == [] then []
    else if select[0] == bypass then [jobs[0]] + Routed(jobs[1..], select[1..], bypass)
    else Routed(jobs[1..], select[1..], bypass)
  }

  lemma {:induction false} RoutedAppend(jobs: seq<Job>, select: seq<bool>, j: Job, s: bool, bypass: bool)
    requires |jobs| == |select|
    ensures Routed(jobs + [j], select + [s], bypass) == Routed(jobs, select, bypass) + if s == bypass then [j] else []
  {
    if jobs == [] {
      assert jobs + [j] == [j] && select + [s] == [s];
      assert [j][1..] == [] && [s][1..] == [];
    } else {
      assert (jobs + [j])[1..] == jobs[1..] + [j] && (select + [s])[1..] == select[1..] + [s];
      RoutedAppend(jobs[1..], select[1..], j, s, bypass);
    }
  }

  /** A load waiting at the memory will read the value of sequential execution. */
  ghost predicate Undisturbed(t: Trace, n: nat, flight: seq<InFlight>, j: Job)
  {
    Settled(flight, j.addr) && Clear(t, n, j.addr, j.tag)
  }

  ghost predicate MemorySide(t: Trace, n: nat, flight: seq<InFlight>, jobs: seq<Job>, addrs: seq<int>, fetched: seq<int>)
  {
    && |fetched| <= |jobs|
    && fetched == Results(jobs[..|fetched|])
    && addrs == Addrs(jobs[|fetched|..])
    && forall i :: |fetched| <= i < |jobs| ==> Undisturbed(t, n, flight, jobs[i])
  }

  ghost predicate Ordered(c: Counts, jobs: seq<Job>)
  {
    c.received <= c.muxed <= c.sent <= c.accepted <= |jobs|
  }

  ghost predicate ReturnInvariant(t: Trace, n: nat, flight: seq<InFlight>, jobs: seq<Job>, p: Port)
  {
    var c := p.counts;
    && Ordered(c, jobs)
    && |p.select| == c.sent - c.muxed
    && p.answers == Results(jobs[c.received..c.muxed])
    && p.bypassed == Results(Routed(jobs[c.muxed..c.sent], p.select, true))
    && MemorySide(t, n, flight, Routed(jobs[c.muxed..c.sent], p.select, false), p.addrs, p.fetched)
  }

  // ------------------------------------------------------------------------ preservation

  lemma ResultsSplit(jobs: seq<Job>)
    requires jobs != []
    ensures Results(jobs)[1..] == Results(jobs[1..]) && Results(jobs)[0] == jobs[0].result
  {
  }

  /** The selected stream has, at its front, exactly the next value in issue order. */
  lemma MuxKeeps(t: Trace, n: nat, flight: seq<InFlight>, jobs: seq<Job>, p: Port)
    requires ReturnInvariant(t, n, flight, jobs, p) && MuxReady(p)
    ensures ReturnInvariant(t, n, flight, jobs, Mux(p))
    ensures p.counts.muxed < |jobs| && Mux(p).answers == p.answers + [jobs[p.counts.muxed].result]
  {
    var c := p.counts;
    var seg := jobs[c.muxed..c.sent];
    assert seg[1..] == jobs[c.muxed + 1..c.sent];
    assert Results(jobs[c.received..c.muxed + 1]) == Results(jobs[c.received..c.muxed]) + [jobs[c.muxed].result];
    var mem := Routed(seg, p.select, false);
    if p.select[0] {
      assert Routed(seg, p.select, true) == [seg[0]] + Routed(seg[1..], p.select[1..], true);
      ResultsSplit(Routed(seg, p.select, true));
      assert Routed(seg[1..], p.select[1..], false) == mem;
    } else {
      assert mem == [seg[0]] + Routed(seg[1..], p.select[1..], false);
      assert mem[1..] == Routed(seg[1..], p.select[1..], false);
      assert p.fetched[0] == Results(mem[..|p.fetched|])[0] == seg[0].result;
    }
  }

  /** What LoadPort reads is the sequential value, whenever the memory gets round to it. */
  lemma FetchKeeps(t: Trace, n: nat, memory: seq<int>, flight: seq<InFlight>, jobs: seq<Job>, p: Port)
    requires Regular(t) && n <= |t.stores| && |memory| == |t.memory| && Landed(memory, flight) == MemoryAfter(t, n)
    requires JobsRight(t, jobs) && NoneEarly(jobs, p.counts.received, n)
    requires ReturnInvariant(t, n, flight, jobs, p) && p.addrs != []
    ensures 0 <= p.addrs[0] < |memory| && ReturnInvariant(t, n, flight, jobs, Fetch(p, memory))
  {
    var c := p.counts;
    var mem := Routed(jobs[c.muxed..c.sent], p.select, false);
    var j := mem[|p.fetched|];
    assert j in mem;
    JobIsRight(t, n, jobs, c.muxed, c.sent, j);
    FetchedIsRight(t, n, memory, flight, j);
    FetchedIsNext(t, n, flight, mem, p.addrs, p.fetched, memory[j.addr]);
  }

  lemma JobIsRight(t: Trace, n: nat, jobs: seq<Job>, from: nat, to: nat, j: Job)
    requires Regular(t) && JobsRight(t, jobs) && from <= to <= |jobs| && j in jobs[from..to] && NoneEarly(jobs, from, n)
    ensures 0 <= j.addr < |t.memory| && n <= j.tag <= |t.stores| && j.result == MemoryAfter(t, j.tag)[j.addr]
  {
    var h :| 0 <= h < to - from && jobs[from..to][h] == j;
    assert jobs[from + h] == j;
  }

  lemma FetchedIsRight(t: Trace, n: nat, memory: seq<int>, flight: seq<InFlight>, j: Job)
    requires Regular(t) && n <= j.tag <= |t.stores| && |memory| == |t.memory| && Landed(memory, flight) == MemoryAfter(t, n)
    requires 0 <= j.addr < |t.memory| && j.result == MemoryAfter(t, j.tag)[j.addr] && Undisturbed(t, n, flight, j)
    ensures memory[j.addr] == j.result
  {
    SettledCell(memory, flight, j.addr);
    ClearKeepsCell(t, n, j.addr, j.tag);
  }

  lemma FetchedIsNext(t: Trace, n: nat, flight: seq<InFlight>, mem: seq<Job>, addrs: seq<int>, fetched: seq<int>, value: int)
    requires MemorySide(t, n, flight, mem, addrs, fetched) && |fetched| < |mem| && value == mem[|fetched|].result
    ensures addrs != [] && addrs[0] == mem[|fetched|].addr
    ensures MemorySide(t, n, flight, mem, addrs[1..], fetched + [value])
  {
    var i := |fetched|;
    assert mem[..i + 1] == mem[..i] + [mem[i]];
    assert Results(mem[..i + 1]) == Results(mem[..i]) + [value];
    assert mem[i..][1..] == mem[i + 1..];
    assert Addrs(mem[i..])[1..] == Addrs(mem[i + 1..]);
  }

  lemma ReceiveKeeps(t: Trace, n: nat, flight: seq<InFlight>, jobs: seq<Job>, p: Port)
    requires ReturnInvariant(t, n, flight, jobs, p) && p.answers != []
    ensures ReturnInvariant(t, n, flight, jobs, Receive(p))
    ensures p.counts.received < |jobs| && p.answers[0] == jobs[p.counts.received].result
  {
    ResultsSplit(jobs[p.counts.received..p.counts.muxed]);
    assert jobs[p.counts.received..p.counts.muxed][1..] == jobs[p.counts.received + 1..p.counts.muxed];
  }

  /** A cycle of the queue: time passes, and the port's front load may be sent on its way. */
  lemma SendKeeps(t: Trace, n: nat, n': nat, flight: seq<InFlight>, flight': seq<InFlight>, jobs: seq<Job>, p: Port, sent: Option<Sent>)
    requires ReturnInvariant(t, n, flight, jobs, p)
    requires forall j :: j in jobs[p.counts.muxed..p.counts.sent] && Undisturbed(t, n, flight, j) ==> Undisturbed(t, n', flight', j)
    requires sent.Some? ==> p.counts.sent < p.counts.accepted
    requires sent.Some? && sent.value.Forwarded? ==> sent.value.value == jobs[p.counts.sent].result
    requires sent.Some? && sent.value.FromMemory? ==>
      sent.value.addr == jobs[p.counts.sent].addr && Undisturbed(t, n', flight', jobs[p.counts.sent])
    ensures ReturnInvariant(t, n', flight', jobs, SendOn(p, sent))
  {
    var c := p.counts;
    var seg := jobs[c.muxed..c.sent];
    assert MemorySide(t, n', flight', Routed(seg, p.select, false), p.addrs, p.fetched);
    if sent.Some? {
      var j, s := jobs[c.sent], sent.value.Forwarded?;
      assert jobs[c.muxed..c.sent + 1] == seg + [j];
      RoutedAppend(seg, p.select, j, s, true);
      RoutedAppend(seg, p.select, j, s, false);
      if s {
        ResultsAppend(Routed(seg, p.select, true), j);
      } else {
        RequestQueued(t, n', flight', Routed(seg, p.select, false), p.addrs, p.fetched, j);
      }
    }
  }

  lemma ResultsAppend(jobs: seq<Job>, j: Job)
    ensures Results(jobs + [j]) == Results(jobs) + [j.result]
  {
  }

  lemma RequestQueued(t: Trace, n: nat, flight: seq<InFlight>, mem: seq<Job>, addrs: seq<int>, fetched: seq<int>, j: Job)
    requires MemorySide(t, n, flight, mem, addrs, fetched) && Undisturbed(t, n, flight, j)
    ensures MemorySide(t, n, flight, mem + [j], addrs + [j.addr], fetched)
  {
    assert (mem + [j])[..|fetched|] == mem[..|fetched|];
    assert (mem + [j])[|fetched|..] == mem[|fetched|..] + [j];
  }
}
