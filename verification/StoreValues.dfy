/**
 The store values of main kernel and PEs, tagged by each kernel for itself, on their way
 through the mux: they come out in program order.
 */
module StoreValues {
  import opened Wrappers
  import opened Lanes
  import opened StoreTags
  import opened TagMux
  import Traces

  /** A mark with the value of the store with that number. */
  function WithValue(mark: Mark, value: nat -> int): Item<Traces.StoreVal>
  {
    Item(mark.tag, Traces.StoreVal(value(mark.tag), mark.valid))
  }

  /** What a kernel sends. */
  function Sent(marks: seq<Mark>, value: nat -> int): seq<Item<Traces.StoreVal>>
  {
    if marks == [] then [] else [WithValue(marks[0], value)] + Sent(marks[1..], value)
  }

  function Items(s: seq<Laned<Mark>>, value: nat -> int): (r: seq<Laned<Item<Traces.StoreVal>>>)
    ensures |r| == |s|
    ensures forall i :: 0 <= i < |s| ==> r[i] == Laned(s[i].port, WithValue(s[i].item, value))
  {
    if s == [] then [] else [Laned(s[0].port, WithValue(s[0].item, value))] + Items(s[1..], value)
  }

  lemma {:induction false} LaneOfItems(s: seq<Laned<Mark>>, value: nat -> int, k: nat)
    ensures Lane<Item<Traces.StoreVal>>(Items(s, value), k) == Sent(Lane<Mark>(s, k), value)
  {
    if s != [] {
      LaneOfItems(s[1..], value, k);
      assert Items(s, value)[1..] == Items(s[1..], value);
      if s[0].port == k {
        assert Lane<Mark>(s, k)[1..] == Lane<Mark>(s[1..], k);
      }
    }
  }

  lemma {:induction false} NumberedPorts(events: seq<Event>, sizes: seq<nat>, n: nat)
    requires n <= |events| && Regular(events, sizes) && |sizes| > 0
    ensures forall i :: 0 <= i < |Numbered(events, sizes, n)| ==> Numbered(events, sizes, n)[i].port < |sizes|
  {
    if n > 0 {
      NumberedPorts(events, sizes, n - 1);
    }
  }

  /** For every sequence of events, every timing of the pipes and every number of cycles: with
      the marks that the kernels put on their values, the i-th value the mux passes on is that
      of the i-th store in program order, and it is valid exactly if that store is executed. */
  lemma ValuesLeaveInProgramOrder(events: seq<Event>, sizes: seq<nat>, value: nat -> int, ports: seq<seq<Mark>>,
      states: seq<State<Traces.StoreVal>>, rests: seq<seq<seq<Item<Traces.StoreVal>>>>, readies: seq<seq<bool>>)
    requires Regular(events, sizes) && |ports| == |sizes| > 0
    requires forall k :: 0 <= k < |ports| ==> ports[k] == Lane<Mark>(Numbered(events, sizes, |events|), k)
    requires Run(states, rests, readies) && states[0].nextTag == 1 && |states[0].held| == |rests[0]| == |ports|
    requires forall k :: 0 <= k < |ports| ==> states[0].held[k] == None && rests[0][k] == Sent(ports[k], value)
    ensures var out, numbered := Output(states, |states| - 1), Numbered(events, sizes, |events|);
      && |out| <= |numbered|
      && forall i :: 0 <= i < |out| ==> out[i].item == Item(i + 1, Traces.StoreVal(value(i + 1), numbered[i].item.valid))
  {
    var numbered := Numbered(events, sizes, |events|);
    var all := Items(numbered, value);
    NumberedPorts(events, sizes, |events|);
    forall k | 0 <= k < |ports|
      ensures rests[0][k] == Lane<Item<Traces.StoreVal>>(all, k)
    {
      LaneOfItems(numbered, value, k);
    }
    OutputIsMerge(all, 1, states, rests, readies);
  }

  /** The value of store `j` of event `n` comes out after those of all earlier events, and is
      valid exactly if the event is executed. */
  lemma {:induction false} ValueOfEvent(events: seq<Event>, sizes: seq<nat>, value: nat -> int, ports: seq<seq<Mark>>,
      states: seq<State<Traces.StoreVal>>, rests: seq<seq<seq<Item<Traces.StoreVal>>>>, readies: seq<seq<bool>>, n: nat, j: nat)
    requires Regular(events, sizes) && |ports| == |sizes| > 0
    requires forall k :: 0 <= k < |ports| ==> ports[k] == Lane<Mark>(Numbered(events, sizes, |events|), k)
    requires Run(states, rests, readies) && states[0].nextTag == 1 && |states[0].held| == |rests[0]| == |ports|
    requires forall k :: 0 <= k < |ports| ==> states[0].held[k] == None && rests[0][k] == Sent(ports[k], value)
    requires n < |events| && j < SizeOf(events[n], sizes)
    ensures var out, i := Output(states, |states| - 1), Stores(events, sizes, n) + j;
      i < |out| ==> out[i].item == Item(i + 1, Traces.StoreVal(value(i + 1), !events[n].poisoned))
  {
    ValuesLeaveInProgramOrder(events, sizes, value, ports, states, rests, readies);
    MarksOfEvent(events, sizes, n, j);
  }
}
