module DramBursts {
  // A kernel that can jam only while the compute unit waits to write a store value: some stores,
  // and loads of other addresses behind them, all on one port.

  import opened Lanes
  import opened Traces
  import opened Kernels
  import opened DramSystem
  import opened DramPipes
  import opened DramProgress

  /** `stores` stores to address 0, then `loads` loads of other addresses on port 0. */
  function Burst(stores: nat, loads: nat): Kernel
  {
    Kernel(seq(loads + 1, _ => 0), seq(stores, _ => Store(0)) + seq(loads, i => Load(i + 1, 0)),
      (_, _) => StoreVal(1, true))
  }

  lemma {:induction false} BurstStores(stores: nat, loads: nat, n: nat)
    requires n <= stores + loads
    ensures |Burst(stores, loads).ops| == stores + loads
    ensures |StoresIn(Burst(stores, loads).ops, n)| == if n < stores then n else stores
    ensures forall i :: 0 <= i < |StoresIn(Burst(stores, loads).ops, n)| ==>
      StoresIn(Burst(stores, loads).ops, n)[i] == StoreReq(0, i + 1)
  {
    if n > 0 {
      BurstStores(stores, loads, n - 1);
    }
  }

  lemma {:induction false} BurstLoads(stores: nat, loads: nat, n: nat)
    requires n <= stores + loads
    ensures |Burst(stores, loads).ops| == stores + loads
    ensures |LoadsIn(Burst(stores, loads).ops, n)| == if n < stores then 0 else n - stores
    ensures forall i :: 0 <= i < |LoadsIn(Burst(stores, loads).ops, n)| ==>
      LoadsIn(Burst(stores, loads).ops, n)[i] == LoadReq(i + 1, stores, 0)
  {
    if n > 0 {
      BurstLoads(stores, loads, n - 1);
      BurstStores(stores, loads, n - 1);
    }
  }

  lemma {:induction false} BurstInBounds(stores: nat, loads: nat)
    ensures InBounds(Burst(stores, loads))
  {
  }

  /** All loads of a trace use port 0. */
  lemma {:induction false} CountsOfOnePort(t: Trace, m: nat, q: nat)
    requires |t.loads| == |t.results| && m <= |t.loads| && forall i :: 0 <= i < |t.loads| ==> t.loads[i].port == 0
    ensures PortCount(t, m, q) == if q == 0 then m else 0
  {
    if m == 0 {
      assert Jobs(t)[..0] == [];
    } else {
      CountsOfOnePort(t, m - 1, q);
      PortAdvances(t, m - 1, q);
    }
  }

  lemma {:induction false} BurstCounts(stores: nat, loads: nat, n: nat, q: nat)
    requires n <= stores + loads
    ensures InBounds(Burst(stores, loads)) && n <= |Burst(stores, loads).ops|
    ensures Before(Burst(stores, loads), n, q) == if q == 0 && n >= stores then n - stores else 0
  {
    var k := Burst(stores, loads);
    BurstInBounds(stores, loads);
    BurstLoads(stores, loads, n);
    BurstLoads(stores, loads, stores + loads);
    TraceIsRegular(k);
    CountsOfOnePort(TraceOf(k), |LoadsIn(k.ops, n)|, q);
  }

  /** Every load follows all stores, and none goes to its address. */
  lemma {:induction false} BurstJobs(stores: nat, loads: nat, i: nat)
    requires InBounds(Burst(stores, loads)) && |TraceOf(Burst(stores, loads)).loads| == |TraceOf(Burst(stores, loads)).results|
    requires i < |PortJobs(TraceOf(Burst(stores, loads)), 0)|
    ensures var j := PortJobs(TraceOf(Burst(stores, loads)), 0)[i]; j.tag == stores && j.addr > 0
  {
    BurstLoads(stores, loads, stores + loads);
    var h := LaneMember(Jobs(TraceOf(Burst(stores, loads))), 0, i);
  }

  lemma {:induction false} BurstGoes(stores: nat, loads: nat, n: nat, slots: nat, i: nat)
    requires InBounds(Burst(stores, loads)) && |TraceOf(Burst(stores, loads)).loads| == |TraceOf(Burst(stores, loads)).results|
    requires i < |PortJobs(TraceOf(Burst(stores, loads)), 0)|
    ensures Goes(TraceOf(Burst(stores, loads)), n, slots, PortJobs(TraceOf(Burst(stores, loads)), 0)[i]) <==> stores <= n + slots
  {
    BurstJobs(stores, loads, i);
    BurstStores(stores, loads, stores + loads);
  }

  /** It jams if and only if the value pipe fills up before the last store, the allocation queue
      takes all stores whose values are then not consumed, and the loads fill up the port. */
  lemma {:induction false} BurstJamsIffFull(stores: nat, loads: nat, d: Depths, slots: nat)
    ensures InBounds(Burst(stores, loads))
    ensures Jams(Burst(stores, loads), d, slots) <==>
      stores > d.storeVals && slots > d.storeVals && loads >= Filling(d)
  {
    var k := Burst(stores, loads);
    BurstCounts(stores, loads, stores + loads, 0);
    if x: nat, q: nat :| JamsAt(k, d, slots, x, q, |k.ops|) {
      BurstJamIsFull(stores, loads, d, slots, x, q);
    }
    if stores > d.storeVals && slots > d.storeVals && loads >= Filling(d) {
      FullBurstJams(stores, loads, d, slots);
    }
  }

  lemma {:induction false} BurstJamIsFull(stores: nat, loads: nat, d: Depths, slots: nat, x: nat, q: nat)
    requires InBounds(Burst(stores, loads)) && JamsAt(Burst(stores, loads), d, slots, x, q, |Burst(stores, loads).ops|)
    ensures stores > d.storeVals && slots > d.storeVals && loads >= Filling(d)
  {
    var k := Burst(stores, loads);
    BurstStores(stores, loads, x);
    BurstCounts(stores, loads, x, q);
    BurstCounts(stores, loads, stores + loads, q);
    assert q == 0 && k.ops[x].Store? && x < stores;
    BurstGoes(stores, loads, x - d.storeVals, slots, 0);
  }

  lemma {:induction false} FullBurstJams(stores: nat, loads: nat, d: Depths, slots: nat)
    requires stores > d.storeVals && slots > d.storeVals && loads >= Filling(d)
    ensures InBounds(Burst(stores, loads)) && Jams(Burst(stores, loads), d, slots)
  {
    var k, x := Burst(stores, loads), stores - 1;
    BurstStores(stores, loads, x);
    BurstLoads(stores, loads, x);
    BurstCounts(stores, loads, x, 0);
    BurstCounts(stores, loads, stores + loads, 0);
    forall i: nat | i < Filling(d)
      ensures Goes(TraceOf(k), x - d.storeVals, slots, PortJobs(TraceOf(k), 0)[i])
    {
      BurstGoes(stores, loads, x - d.storeVals, slots, i);
    }
    assert JamsAt(k, d, slots, x, 0, |k.ops|);
  }

  /** With the depths of the source: 17 stores, 17 slots, 26 loads. */
  lemma {:induction false} LeastBurst(stores: nat, loads: nat, slots: nat)
    ensures InBounds(Burst(stores, loads))
    ensures Jams(Burst(stores, loads), COMPILED, slots) <==> stores >= 17 && slots >= 17 && loads >= 26
  {
    BurstJamsIffFull(stores, loads, COMPILED, slots);
  }
}
