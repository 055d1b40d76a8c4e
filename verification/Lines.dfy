/**
 A mux with the port pipes before it and the pipe behind it, as one ordered stream: what has been
 sent on the ports and not yet been taken from behind the mux, in the order of the tags.
 */
module Lines {
  import opened Wrappers
  import opened Slices
  import opened Lanes
  import TagMux

  /** The port pipes, the mux, and the pipe behind it. */
  datatype Line<+V> = Line(pipes: seq<seq<TagMux.Item<V>>>, mux: TagMux.State<V>, out: seq<V>)

  /** Items sent so far, each with its port, are tagged `first`, `first` + 1, ... */
  function Numbered<V>(all: seq<Laned<V>>, first: nat): (r: seq<Laned<TagMux.Item<V>>>)
    ensures |r| == |all| && forall i :: 0 <= i < |all| ==> r[i] == Laned(all[i].port, TagMux.Item(first + i, all[i].item))
  {
    seq(|all|, i requires 0 <= i < |all| => Laned(all[i].port, TagMux.Item(first + i, all[i].item)))
  }

  ghost predicate OutHolds<V>(all: seq<Laned<V>>, attach: (nat, V) -> V, out: seq<V>, taken: nat)
  {
    taken + |out| <= |all| && forall i: nat {:trigger OutAt(all, attach, out, taken, i)} :: i < |out| ==> OutAt(all, attach, out, taken, i)
  }

  ghost predicate OutAt<V>(all: seq<Laned<V>>, attach: (nat, V) -> V, out: seq<V>, taken: nat, i: nat)
    requires i < |out| && taken + |out| <= |all|
  {
    out[i] == attach(all[taken + i].port, all[taken + i].item)
  }

  lemma OutGrows<V>(all: seq<Laned<V>>, attach: (nat, V) -> V, out: seq<V>, taken: nat, v: V)
    requires OutHolds(all, attach, out, taken) && taken + |out| < |all|
    requires v == attach(all[taken + |out|].port, all[taken + |out|].item)
    ensures OutHolds(all, attach, out + [v], taken)
  {
    forall i: nat | i < |out + [v]|
      ensures OutAt(all, attach, out + [v], taken, i)
    {
      assert i < |out| ==> OutAt(all, attach, out, taken, i);
    }
  }

  lemma OutFalls<V>(all: seq<Laned<V>>, attach: (nat, V) -> V, out: seq<V>, taken: nat)
    requires OutHolds(all, attach, out, taken) && out != []
    ensures OutHolds(all, attach, out[1..], taken + 1) && out[0] == attach(all[taken].port, all[taken].item)
  {
    var less, more := out[1..], taken + 1;
    assert OutAt(all, attach, out, taken, 0);
    forall i: nat | i < |less|
      ensures OutAt(all, attach, less, more, i)
    {
      assert OutAt(all, attach, out, taken, i + 1);
    }
  }

  lemma OutStays<V>(all: seq<Laned<V>>, attach: (nat, V) -> V, out: seq<V>, taken: nat, x: Laned<V>)
    requires OutHolds(all, attach, out, taken)
    ensures OutHolds(all + [x], attach, out, taken)
  {
    forall i: nat | i < |out|
      ensures OutAt(all + [x], attach, out, taken, i)
    {
      assert OutAt(all, attach, out, taken, i);
    }
  }

  /** Behind the mux lie the items from `taken` up to the next tag, and the rest is in it or
      before it. */
  ghost predicate LineHolds<V>(all: seq<Laned<V>>, first: nat, attach: (nat, V) -> V, line: Line<V>, taken: nat)
  {
    var done := line.mux.nextTag - first;
    && 0 <= taken <= done <= |all| && |line.out| == done - taken && OutHolds(all, attach, line.out, taken)
    && TagMux.Invariant(Numbered(all, first), first, line.mux, line.pipes, done)
  }

  function Send<V>(line: Line<V>, port: nat, tag: nat, v: V): Line<V>
    requires port < |line.pipes|
  {
    line.(pipes := line.pipes[port := line.pipes[port] + [TagMux.Item(tag, v)]])
  }

  /** A mux writes only if there is room behind it. */
  predicate MuxReady<V>(line: Line<V>, room: nat)
  {
    TagMux.Passed(line.mux.held, line.mux.nextTag).None? || |line.out| < room
  }

  ghost function MuxStep<V>(line: Line<V>, attach: (nat, V) -> V, ready: seq<bool>): Line<V>
    requires |ready| == |line.pipes| == |line.mux.held|
  {
    Line(
      TagMux.RestNext(line.mux, line.pipes, ready),
      TagMux.Cycle(line.mux, TagMux.Offers(line.pipes, ready)),
      match TagMux.Passed(line.mux.held, line.mux.nextTag)
      case None => line.out
      case Some(x) => line.out + [attach(x.port, x.item.payload)])
  }

  function Taken<V>(line: Line<V>, take: bool): Line<V>
  {
    line.(out := Rest(line.out, take))
  }

  lemma LineStarts<V>(ports: nat, first: nat, attach: (nat, V) -> V, line: Line<V>)
    requires |line.pipes| == |line.mux.held| == ports && line.mux.nextTag == first && line.out == []
    requires forall p :: 0 <= p < ports ==> line.pipes[p] == [] && line.mux.held[p] == None
    ensures LineHolds([], first, attach, line, 0)
  {
  }

  lemma SendHolds<V>(all: seq<Laned<V>>, first: nat, attach: (nat, V) -> V, line: Line<V>, taken: nat, port: nat, v: V)
    requires LineHolds(all, first, attach, line, taken) && port < |line.pipes|
    ensures LineHolds(all + [Laned(port, v)], first, attach, Send(line, port, first + |all|, v), taken)
  {
    var item := TagMux.Item(first + |all|, v);
    assert Numbered(all + [Laned(port, v)], first) == Numbered(all, first) + [Laned(port, item)];
    TagMux.SendKeeps(Numbered(all, first), first, line.mux, line.pipes, line.mux.nextTag - first, port, item);
    OutStays(all, attach, line.out, taken, Laned(port, v));
  }

  lemma MuxHolds<V>(all: seq<Laned<V>>, first: nat, attach: (nat, V) -> V, line: Line<V>, taken: nat, ready: seq<bool>)
    requires LineHolds(all, first, attach, line, taken) && |ready| == |line.pipes|
    ensures LineHolds(all, first, attach, MuxStep(line, attach, ready), taken)
  {
    var done := line.mux.nextTag - first;
    var z, rest := TagMux.Cycle(line.mux, TagMux.Offers(line.pipes, ready)), TagMux.RestNext(line.mux, line.pipes, ready);
    assert TagMux.Invariant(Numbered(all, first), first, z, rest, z.nextTag - first) by {
      TagMux.CycleKeeps(Numbered(all, first), first, line.mux, line.pipes, done, ready);
    }
    PassedIsNumbered(Numbered(all, first), first, line.mux, line.pipes, done, ready);
    PassedIsNext(all, first, attach, line.out, taken, TagMux.Passed(line.mux.held, line.mux.nextTag));
  }

  lemma PassedIsNumbered<V>(all: seq<Laned<TagMux.Item<V>>>, first: nat, s: TagMux.State<V>, rest: seq<seq<TagMux.Item<V>>>,
      done: nat, ready: seq<bool>)
    requires TagMux.Invariant(all, first, s, rest, done) && |ready| == |rest|
    ensures var out := TagMux.Passed(s.held, s.nextTag);
      out.Some? ==> done < |all| && out.value == all[done]
  {
    TagMux.CycleKeeps(all, first, s, rest, done, ready);
  }

  /** What the mux passes is what comes next behind it. */
  lemma PassedIsNext<V>(all: seq<Laned<V>>, first: nat, attach: (nat, V) -> V, out: seq<V>, taken: nat,
      passed: Option<Laned<TagMux.Item<V>>>)
    requires OutHolds(all, attach, out, taken)
    requires passed.Some? ==> taken + |out| < |all| && passed.value == Numbered(all, first)[taken + |out|]
    ensures OutHolds(all, attach,
      match passed case None => out case Some(x) => out + [attach(x.port, x.item.payload)], taken)
  {
    if passed.Some? {
      OutGrows(all, attach, out, taken, attach(passed.value.port, passed.value.item.payload));
    }
  }

  lemma TakeHolds<V>(all: seq<Laned<V>>, first: nat, attach: (nat, V) -> V, line: Line<V>, taken: nat, take: bool)
    requires LineHolds(all, first, attach, line, taken) && (take ==> line.out != [])
    ensures LineHolds(all, first, attach, Taken(line, take), taken + if take then 1 else 0)
    ensures line.out != [] ==> taken < |all| && line.out[0] == attach(all[taken].port, all[taken].item)
  {
    if line.out != [] {
      OutFalls(all, attach, line.out, taken);
    }
  }
}
