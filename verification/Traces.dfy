/**
 What a kernel sends to a load-store queue, and the sequential memory it stands for: store
 requests, store values and load requests in program order, the memory after the first stores
 have been applied, and what it means that a load is not disturbed by the stores before it that
 have not been applied yet.
 */
module Traces {

  datatype StoreReq = StoreReq(addr: int, tag: nat)
  datatype LoadReq = LoadReq(addr: int, tag: nat, port: nat)
  /** A store value; a speculated store that must not happen has `valid == false`. */
  datatype StoreVal = StoreVal(value: int, valid: bool)

  /** Store requests and store values in program order, load requests in program order, and
      the value each load must return. */
  datatype Trace = Trace(
    memory: seq<int>,
    stores: seq<StoreReq>, values: seq<StoreVal>,
    loads: seq<LoadReq>, results: seq<int>)

  ghost predicate Regular(t: Trace)
  {
    && |t.values| == |t.stores| && |t.results| == |t.loads|
    && (forall i :: 0 <= i < |t.stores| ==> t.stores[i].tag == i + 1 && 0 <= t.stores[i].addr < |t.memory|)
    && (forall i :: 0 <= i < |t.loads| ==> t.loads[i].tag <= |t.stores| && 0 <= t.loads[i].addr < |t.memory|)
  }

  /** Memory after the first `n` stores, skipping the poisoned ones. */
  ghost function MemoryAfter(t: Trace, n: nat): (m: seq<int>)
    requires Regular(t) && n <= |t.stores|
    ensures |m| == |t.memory|
  {
    if n == 0 then t.memory
    else if t.values[n - 1].valid then MemoryAfter(t, n - 1)[t.stores[n - 1].addr := t.values[n - 1].value]
    else MemoryAfter(t, n - 1)
  }

  /** Each load must see exactly the stores that precede it. */
  ghost predicate Sequential(t: Trace)
    requires Regular(t)
  {
    forall i :: 0 <= i < |t.loads| ==> t.results[i] == MemoryAfter(t, t.loads[i].tag)[t.loads[i].addr]
  }

  /** No store that precedes a load with this tag, and is still to come, hits `addr`. */
  ghost predicate Clear(t: Trace, n: nat, addr: int, tag: nat)
  {
    forall i :: n <= i < tag && i < |t.stores| ==> t.stores[i].addr != addr
  }

  lemma {:induction false} ClearKeepsCell(t: Trace, n: nat, addr: int, tag: nat)
    requires Regular(t) && n <= tag <= |t.stores| && Clear(t, n, addr, tag) && 0 <= addr < |t.memory|
    ensures MemoryAfter(t, n)[addr] == MemoryAfter(t, tag)[addr]
  {
    if n < tag {
      ClearKeepsCell(t, n, addr, tag - 1);
      assert t.stores[tag - 1].addr != addr;
    }
  }

  /** The premise on the compute unit: a store value is sent only once every load that
      precedes the store has been answered. */
  ghost predicate NoValueEarly(t: Trace, n: nat, answered: nat)
  {
    forall i :: answered <= i < |t.loads| ==> n <= t.loads[i].tag
  }
}
