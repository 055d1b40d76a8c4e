/**
 The program that the compiler splits: a sequence of loads and stores whose addresses are
 known to the address generator, with store values (and whether a speculated store really
 happens) computed from the values loaded so far.

 `Exec` is ordinary sequential execution and is the reference for both load-store queues.
 */
module Kernels {
  import opened Traces

  datatype Op = Load(addr: int, port: nat) | Store(addr: int)

  /** `compute(i, history)` is the value operation `i` stores after loading `history`. */
  datatype Kernel = Kernel(memory: seq<int>, ops: seq<Op>, compute: (nat, seq<int>) -> StoreVal)

  datatype Outcome = Outcome(memory: seq<int>, loaded: seq<int>, stored: seq<StoreVal>)

  ghost predicate InBounds(k: Kernel)
  {
    forall i :: 0 <= i < |k.ops| ==> 0 <= k.ops[i].addr < |k.memory|
  }

  /** Sequential execution of the first `n` operations. */
  ghost function Exec(k: Kernel, n: nat): (o: Outcome)
    requires InBounds(k) && n <= |k.ops|
    ensures |o.memory| == |k.memory|
  {
    if n == 0 then Outcome(k.memory, [], [])
    else
      var o := Exec(k, n - 1);
      match k.ops[n - 1]
      case Load(addr, _) => o.(loaded := o.loaded + [o.memory[addr]])
      case Store(addr) =>
        var v := k.compute(n - 1, o.loaded);
        Outcome(if v.valid then o.memory[addr := v.value] else o.memory, o.loaded, o.stored + [v])
  }

  // ------------------------------------------------------- tags given to the requests

  /** A store is tagged with its number, counted from 1. */
  ghost function StoresIn(ops: seq<Op>, n: nat): (r: seq<StoreReq>)
    requires n <= |ops|
    ensures |r| <= n
  {
    if n == 0 then []
    else if ops[n - 1].Store? then StoresIn(ops, n - 1) + [StoreReq(ops[n - 1].addr, |StoresIn(ops, n - 1)| + 1)]
    else StoresIn(ops, n - 1)
  }

  /** A load is tagged with the number of stores before it. */
  ghost function LoadsIn(ops: seq<Op>, n: nat): (r: seq<LoadReq>)
    requires n <= |ops|
    ensures |r| <= n
  {
    if n == 0 then []
    else if ops[n - 1].Load? then
      LoadsIn(ops, n - 1) + [LoadReq(ops[n - 1].addr, |StoresIn(ops, n - 1)|, ops[n - 1].port)]
    else LoadsIn(ops, n - 1)
  }

  /** The address generator: it walks the operations with one store-tag counter, which a
      store increments before use and a load only reads. */
  method GenerateRequests(ops: seq<Op>) returns (stores: seq<StoreReq>, loads: seq<LoadReq>)
    ensures stores == StoresIn(ops, |ops|) && loads == LoadsIn(ops, |ops|)
  {
    stores, loads := [], [];
    var stTag := 0;
    for i := 0 to |ops|
      invariant stores == StoresIn(ops, i) && loads == LoadsIn(ops, i) && stTag == |stores|
    {
      match ops[i]
      case Load(addr, port) =>
        loads := loads + [LoadReq(addr, stTag, port)];
      case Store(addr) =>
        stTag := stTag + 1;
        stores := stores + [StoreReq(addr, stTag)];
    }
  }

  lemma {:induction false} RequestsGrow(ops: seq<Op>, m: nat, n: nat)
    requires m <= n <= |ops|
    ensures StoresIn(ops, m) <= StoresIn(ops, n) && LoadsIn(ops, m) <= LoadsIn(ops, n)
  {
    if m < n {
      RequestsGrow(ops, m, n - 1);
    }
  }

  lemma {:induction false} ExecGrows(k: Kernel, m: nat, n: nat)
    requires InBounds(k) && m <= n <= |k.ops|
    ensures Exec(k, m).loaded <= Exec(k, n).loaded && Exec(k, m).stored <= Exec(k, n).stored
  {
    if m < n {
      ExecGrows(k, m, n - 1);
    }
  }

  lemma {:induction false} ExecCounts(k: Kernel, n: nat)
    requires InBounds(k) && n <= |k.ops|
    ensures |Exec(k, n).loaded| == |LoadsIn(k.ops, n)| && |Exec(k, n).stored| == |StoresIn(k.ops, n)|
  {
    if n > 0 {
      ExecCounts(k, n - 1);
    }
  }

  // ------------------------------------------------------------ the trace of a kernel

  ghost function TraceOf(k: Kernel): Trace
    requires InBounds(k)
  {
    var n := |k.ops|;
    Trace(k.memory, StoresIn(k.ops, n), Exec(k, n).stored, LoadsIn(k.ops, n), Exec(k, n).loaded)
  }

  ghost predicate Tagged(stores: seq<StoreReq>, loads: seq<LoadReq>, size: nat)
  {
    && (forall i :: 0 <= i < |stores| ==> stores[i].tag == i + 1 && 0 <= stores[i].addr < size)
    && (forall i :: 0 <= i < |loads| ==> loads[i].tag <= |stores| && 0 <= loads[i].addr < size)
    && (forall i, j :: 0 <= i < j < |loads| ==> loads[i].tag <= loads[j].tag)
  }

  /** The tag discipline: stores carry 1, 2, 3, ..., loads the number of stores so far. */
  lemma {:induction false} TagsAreNumbers(ops: seq<Op>, n: nat, size: nat)
    requires n <= |ops| && forall i :: 0 <= i < |ops| ==> 0 <= ops[i].addr < size
    ensures Tagged(StoresIn(ops, n), LoadsIn(ops, n), size)
  {
    if n > 0 {
      TagsAreNumbers(ops, n - 1, size);
      var op := ops[n - 1];
      assert 0 <= op.addr < size;
    }
  }

  lemma TraceIsRegular(k: Kernel)
    requires InBounds(k)
    ensures Regular(TraceOf(k))
  {
    ExecCounts(k, |k.ops|);
    TagsAreNumbers(k.ops, |k.ops|, |k.memory|);
  }

  /** Operation `n`, a store, has request and value number `m` in the trace. */
  ghost predicate StoreFacts(k: Kernel, t: Trace, n: nat)
    requires n < |k.ops|
  {
    var m, h := |StoresIn(k.ops, n)|, |LoadsIn(k.ops, n)|;
    && |StoresIn(k.ops, n + 1)| == m + 1 && |LoadsIn(k.ops, n + 1)| == h
    && m < |t.stores| && t.stores[m] == StoreReq(k.ops[n].addr, m + 1)
    && h <= |t.results| == |t.loads| && m < |t.values| && t.values[m] == k.compute(n, t.results[..h])
  }

  /** Operation `n`, a load, has request and result number `h` in the trace. */
  ghost predicate LoadFacts(k: Kernel, t: Trace, n: nat)
    requires n < |k.ops| && k.ops[n].Load?
  {
    var m, h := |StoresIn(k.ops, n)|, |LoadsIn(k.ops, n)|;
    && |StoresIn(k.ops, n + 1)| == m && |LoadsIn(k.ops, n + 1)| == h + 1
    && |t.results| == |t.loads| && h < |t.loads| && m <= |t.stores| == |t.values|
    && t.loads[h] == LoadReq(k.ops[n].addr, m, k.ops[n].port)
  }

  ghost predicate OpFacts(k: Kernel, t: Trace, n: nat)
    requires n < |k.ops|
  {
    if k.ops[n].Load? then LoadFacts(k, t, n) else StoreFacts(k, t, n)
  }

  lemma StoreAt(k: Kernel, n: nat)
    requires InBounds(k) && n < |k.ops| && k.ops[n].Store?
    ensures StoreFacts(k, TraceOf(k), n)
  {
    var m := |StoresIn(k.ops, n)|;
    RequestsGrow(k.ops, n + 1, |k.ops|);
    ExecGrows(k, n + 1, |k.ops|);
    ExecCounts(k, n);
    ExecCounts(k, |k.ops|);
    assert StoresIn(k.ops, n + 1)[m] == TraceOf(k).stores[m];
    assert Exec(k, n + 1).stored[m] == TraceOf(k).values[m];
    assert Exec(k, n).loaded == TraceOf(k).results[..|LoadsIn(k.ops, n)|];
  }

  lemma LoadAt(k: Kernel, n: nat)
    requires InBounds(k) && n < |k.ops| && k.ops[n].Load?
    ensures LoadFacts(k, TraceOf(k), n)
    ensures TraceOf(k).results[|LoadsIn(k.ops, n)|] == Exec(k, n).memory[k.ops[n].addr]
  {
    var h := |LoadsIn(k.ops, n)|;
    RequestsGrow(k.ops, n + 1, |k.ops|);
    ExecGrows(k, n + 1, |k.ops|);
    ExecCounts(k, n);
    ExecCounts(k, |k.ops|);
    assert LoadsIn(k.ops, n + 1)[h] == TraceOf(k).loads[h];
    assert Exec(k, n + 1).loaded[h] == TraceOf(k).results[h];
  }

  lemma OpAt(k: Kernel, n: nat)
    requires InBounds(k) && n < |k.ops|
    ensures OpFacts(k, TraceOf(k), n)
  {
    if k.ops[n].Load? {
      LoadAt(k, n);
    } else {
      StoreAt(k, n);
    }
  }

  /** Applying the first stores of the trace gives the memory of sequential execution. */
  lemma {:induction false} MemoryIsSequential(k: Kernel, n: nat)
    requires InBounds(k) && n <= |k.ops| && Regular(TraceOf(k))
    ensures |StoresIn(k.ops, n)| <= |TraceOf(k).stores|
    ensures MemoryAfter(TraceOf(k), |StoresIn(k.ops, n)|) == Exec(k, n).memory
  {
    RequestsGrow(k.ops, n, |k.ops|);
    if n > 0 {
      MemoryIsSequential(k, n - 1);
      if k.ops[n - 1].Store? {
        StoreAt(k, n - 1);
        HistoryIsPrefix(k, n - 1);
      }
    }
  }

  lemma HistoryIsPrefix(k: Kernel, n: nat)
    requires InBounds(k) && n <= |k.ops|
    ensures |LoadsIn(k.ops, n)| <= |TraceOf(k).results|
    ensures Exec(k, n).loaded == TraceOf(k).results[..|LoadsIn(k.ops, n)|]
  {
    ExecGrows(k, n, |k.ops|);
    ExecCounts(k, n);
  }

  ghost predicate ResultRight(t: Trace, i: nat)
    requires Regular(t) && i < |t.loads|
  {
    t.results[i] == MemoryAfter(t, t.loads[i].tag)[t.loads[i].addr]
  }

  lemma {:induction false} LoadsAreSequential(k: Kernel, n: nat)
    requires InBounds(k) && n <= |k.ops| && Regular(TraceOf(k))
    ensures |LoadsIn(k.ops, n)| <= |TraceOf(k).loads|
    ensures forall i :: 0 <= i < |LoadsIn(k.ops, n)| ==> ResultRight(TraceOf(k), i)
  {
    if n > 0 {
      LoadsAreSequential(k, n - 1);
      if k.ops[n - 1].Load? {
        LoadAt(k, n - 1);
        MemoryIsSequential(k, n - 1);
      }
    }
  }

  /** The results in the trace are what each load sees when the tagged stores before it,
      and no others, have been applied. */
  lemma TraceIsSequential(k: Kernel)
    requires InBounds(k)
    ensures Regular(TraceOf(k)) && Sequential(TraceOf(k))
  {
    TraceIsRegular(k);
    LoadsAreSequential(k, |k.ops|);
    forall i | 0 <= i < |TraceOf(k).loads|
      ensures TraceOf(k).results[i] == MemoryAfter(TraceOf(k), TraceOf(k).loads[i].tag)[TraceOf(k).loads[i].addr]
    {
      assert ResultRight(TraceOf(k), i);
    }
  }

  lemma {:induction false} PortsInRange(ops: seq<Op>, n: nat, ports: nat)
    requires n <= |ops| && forall i :: 0 <= i < |ops| && ops[i].Load? ==> ops[i].port < ports
    ensures forall i :: 0 <= i < |LoadsIn(ops, n)| ==> LoadsIn(ops, n)[i].port < ports
  {
    if n > 0 {
      PortsInRange(ops, n - 1, ports);
    }
  }

  /** A load after position `m` is tagged with at least the stores before `m`. */
  lemma {:induction false} LaterLoadsLaterTags(ops: seq<Op>, m: nat, n: nat)
    requires m <= n <= |ops|
    ensures |StoresIn(ops, m)| <= |StoresIn(ops, n)|
    ensures forall i :: |LoadsIn(ops, m)| <= i < |LoadsIn(ops, n)| ==> |StoresIn(ops, m)| <= LoadsIn(ops, n)[i].tag
  {
    if m < n {
      LaterLoadsLaterTags(ops, m, n - 1);
    }
  }

  lemma {:induction false} ValuesAreValid(k: Kernel, n: nat)
    requires InBounds(k) && n <= |k.ops| && forall i, h :: k.compute(i, h).valid
    ensures forall i :: 0 <= i < |Exec(k, n).stored| ==> Exec(k, n).stored[i].valid
  {
    if n > 0 {
      ValuesAreValid(k, n - 1);
    }
  }
}
