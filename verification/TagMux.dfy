module TagMux {
  // The muxes in front of the load-store queues: several ports carry tagged items, and one
  // item a cycle is passed on, always the one with the next tag.  StoreReqInMux and
  // StoreValInMux count from 1, LoadReqInMux from 0; the latter also writes the port number
  // into the request it passes on.

  import opened Wrappers
  import opened Slices
  import opened Lanes

  /** A request or a store value, with the tag the mux goes by. */
  datatype Item<+V> = Item(tag: nat, payload: V)

  /** Per port, the item read and not yet passed on. */
  datatype State<+V> = State(held: seq<Option<Item<V>>>, nextTag: nat)

  // ------------------------------------------------------------------------ one cycle

  predicate Matches<V>(slot: Option<Item<V>>, tag: nat)
  {
    slot.Some? && slot.value.tag == tag
  }

  /** A port passes its item on, keeps it, or reads the next one. */
  function SlotNext<V>(slot: Option<Item<V>>, tag: nat, offer: Option<Item<V>>): Option<Item<V>>
  {
    if Matches(slot, tag) then None else if slot.Some? then slot else offer
  }

  /** Ports are visited in order; a later match overwrites an earlier one. */
  function Passed<V>(held: seq<Option<Item<V>>>, tag: nat): Option<Laned<Item<V>>>
  {
    if held == [] then None
    else if Matches(held[|held| - 1], tag) then Some(Laned(|held| - 1, held[|held| - 1].value))
    else Passed(held[..|held| - 1], tag)
  }

  function Cycle<V>(s: State<V>, offers: seq<Option<Item<V>>>): State<V>
    requires |offers| == |s.held|
  {
    State(
      seq(|s.held|, k requires 0 <= k < |s.held| => SlotNext(s.held[k], s.nextTag, offers[k])),
      s.nextTag + if Passed(s.held, s.nextTag).Some? then 1 else 0)
  }

  class Mux<V> {
    const held: array<Option<Item<V>>>
    var nextTag: nat

    constructor (ports: nat, firstTag: nat)
      ensures fresh(held) && held.Length == ports && nextTag == firstTag
      ensures forall k :: 0 <= k < ports ==> held[k] == None
    {
      held := new Option<Item<V>>[ports](_ => None);
      nextTag := firstTag;
    }

    ghost function View(): State<V>
      reads this, held
    {
      State(held[..], nextTag)
    }

    /** One iteration of the mux kernel's loop. */
    method Step(offers: seq<Option<Item<V>>>) returns (out: Option<Laned<Item<V>>>)
      requires |offers| == held.Length
      modifies this, held
      ensures View() == Cycle(old(View()), offers) && out == Passed(old(held[..]), old(nextTag))
    {
      out := None;
      ghost var was := held[..];
      for k := 0 to held.Length
        modifies held
        invariant out == Passed(was[..k], nextTag)
        invariant forall h :: 0 <= h < k ==> held[h] == SlotNext(was[h], nextTag, offers[h])
        invariant forall h :: k <= h < held.Length ==> held[h] == was[h]
      {
        assert was[..k + 1][..k] == was[..k];
        if held[k].Some? {
          if held[k].value.tag == nextTag {
            out := Some(Laned(k, held[k].value));
            held[k] := None;
          }
        } else {
          held[k] := offers[k];
        }
      }
      assert was[..held.Length] == was;
      if out.Some? {
        nextTag := nextTag + 1;
      }
    }
  }

  // ---------------------------------------------------------------------- the invariant

  /** The streams on the ports partition the items with tags `first`, `first` + 1, ... */
  ghost predicate Consecutive<V>(all: seq<Laned<Item<V>>>, first: nat, ports: nat)
  {
    forall i :: 0 <= i < |all| ==> all[i].item.tag == first + i && all[i].port < ports
  }

  function AsSeq<V>(slot: Option<Item<V>>): seq<Item<V>>
  {
    if slot.Some? then [slot.value] else []
  }

  /** After `done` items: what a port holds, and what its pipe still has to deliver, are its
      share of the remaining items. */
  ghost predicate Invariant<V>(all: seq<Laned<Item<V>>>, first: nat, s: State<V>, rest: seq<seq<Item<V>>>, done: nat)
  {
    && Consecutive(all, first, |s.held|) && |rest| == |s.held|
    && done <= |all| && s.nextTag == first + done
    && forall k: nat {:trigger PortHolds(all[done..], s, rest, k)} :: k < |s.held| ==> PortHolds(all[done..], s, rest, k)
  }

  ghost predicate PortHolds<V>(left: seq<Laned<Item<V>>>, s: State<V>, rest: seq<seq<Item<V>>>, k: nat)
    requires k < |s.held| == |rest|
  {
    AsSeq(s.held[k]) + rest[k] == Lane(left, k)
  }

  ghost function Offers<V>(rest: seq<seq<Item<V>>>, ready: seq<bool>): seq<Option<Item<V>>>
    requires |ready| == |rest|
  {
    seq(|rest|, k requires 0 <= k < |rest| => Front(rest[k], ready[k]))
  }

  ghost function RestNext<V>(s: State<V>, rest: seq<seq<Item<V>>>, ready: seq<bool>): seq<seq<Item<V>>>
    requires |ready| == |rest| == |s.held|
  {
    seq(|rest|, k requires 0 <= k < |rest| => Rest(rest[k], s.held[k].None? && ready[k]))
  }

  /** Whatever a port holds, it matches the next tag only if it is the next item. */
  lemma HeldMatch<V>(all: seq<Laned<Item<V>>>, first: nat, s: State<V>, rest: seq<seq<Item<V>>>, done: nat, k: nat)
    requires Invariant(all, first, s, rest, done) && k < |s.held| && Matches(s.held[k], s.nextTag)
    ensures done < |all| && all[done] == Laned(k, s.held[k].value)
  {
    assert PortHolds(all[done..], s, rest, k);
    assert Lane(all[done..], k)[0] == s.held[k].value;
    var i := LaneMember(all[done..], k, 0);
    assert all[done..][i] == all[done + i];
  }

  lemma {:induction false} PassedIsMatch<V>(held: seq<Option<Item<V>>>, tag: nat)
    ensures match Passed(held, tag)
      case Some(x) => x.port < |held| && held[x.port] == Some(x.item) && x.item.tag == tag
      case None => forall k :: 0 <= k < |held| ==> !Matches(held[k], tag)
  {
    if held != [] && !Matches(held[|held| - 1], tag) {
      PassedIsMatch(held[..|held| - 1], tag);
    }
  }

  /** The next item is never held back behind another one on its port. */
  lemma NextAtFront<V>(all: seq<Laned<Item<V>>>, first: nat, s: State<V>, rest: seq<seq<Item<V>>>, done: nat)
    requires Invariant(all, first, s, rest, done) && done < |all|
    ensures var p, x := all[done].port, all[done].item;
      if s.held[p].Some? then s.held[p].value == x && Passed(s.held, s.nextTag).Some?
      else rest[p] != [] && rest[p][0] == x
  {
    var p := all[done].port;
    assert PortHolds(all[done..], s, rest, p);
    assert all[done..][0] == all[done];
    assert Lane(all[done..], p)[0] == all[done].item;
    assert (AsSeq(s.held[p]) + rest[p])[0] == all[done].item;
    PassedIsMatch(s.held, s.nextTag);
  }

  /** A cycle passes on exactly the next item, with the port it came from, or nothing; and
      nothing is lost or repeated on any port. */
  lemma CycleKeeps<V>(all: seq<Laned<Item<V>>>, first: nat, s: State<V>, rest: seq<seq<Item<V>>>, done: nat, ready: seq<bool>)
    requires Invariant(all, first, s, rest, done) && |ready| == |rest|
    ensures var out := Passed(s.held, s.nextTag);
      && (out.Some? ==> done < |all| && out.value == all[done])
      && Invariant(all, first, Cycle(s, Offers(rest, ready)), RestNext(s, rest, ready), done + if out.Some? then 1 else 0)
  {
    var out := Passed(s.held, s.nextTag);
    PassedIsMatch(s.held, s.nextTag);
    if out.Some? {
      HeldMatch(all, first, s, rest, done, out.value.port);
      assert all[done..][1..] == all[done + 1..];
    }
    var done' := done + if out.Some? then 1 else 0;
    var z, rest' := Cycle(s, Offers(rest, ready)), RestNext(s, rest, ready);
    forall k: nat | k < |s.held|
      ensures PortHolds(all[done'..], z, rest', k)
    {
      assert PortHolds(all[done..], s, rest, k);
      if Matches(s.held[k], s.nextTag) {
        HeldMatch(all, first, s, rest, done, k);
        assert (AsSeq(s.held[k]) + rest[k])[1..] == rest[k];
      } else if s.held[k].None? && ready[k] && rest[k] != [] {
        assert rest[k] == [rest[k][0]] + rest[k][1..];
      }
      assert out.Some? && k != out.value.port ==> Lane(all[done'..], k) == Lane(all[done..], k);
    }
  }

  /** One more item is sent, with the next tag, on some port. */
  lemma SendKeeps<V>(all: seq<Laned<Item<V>>>, first: nat, s: State<V>, rest: seq<seq<Item<V>>>, done: nat, port: nat, item: Item<V>)
    requires Invariant(all, first, s, rest, done) && port < |rest| && item.tag == first + |all|
    ensures Invariant(all + [Laned(port, item)], first, s, rest[port := rest[port] + [item]], done)
  {
    var more, rest' := all + [Laned(port, item)], rest[port := rest[port] + [item]];
    assert more[done..] == all[done..] + [Laned(port, item)];
    forall k: nat | k < |s.held|
      ensures PortHolds(more[done..], s, rest', k)
    {
      LaneAppend(all[done..], Laned(port, item), k);
      assert PortHolds(all[done..], s, rest, k);
    }
  }

  // --------------------------------------------------------------------------- all runs

  /** Cycle `i` of a run: some of the pipes respond. */
  ghost predicate StepAt<V>(states: seq<State<V>>, rests: seq<seq<seq<Item<V>>>>, readies: seq<seq<bool>>, i: nat)
    requires |states| == |rests| == |readies| + 1 && i < |readies|
  {
    && |readies[i]| == |rests[i]| == |states[i].held|
    && states[i + 1] == Cycle(states[i], Offers(rests[i], readies[i]))
    && rests[i + 1] == RestNext(states[i], rests[i], readies[i])
  }

  ghost predicate Run<V>(states: seq<State<V>>, rests: seq<seq<seq<Item<V>>>>, readies: seq<seq<bool>>)
  {
    && |states| == |rests| == |readies| + 1
    && forall i :: 0 <= i < |readies| ==> StepAt(states, rests, readies, i)
  }

  /** Everything passed on in the first `n` cycles. */
  ghost function Output<V>(states: seq<State<V>>, n: nat): (r: seq<Laned<Item<V>>>)
    requires n <= |states|
  {
    if n == 0 then []
    else
      match Passed(states[n - 1].held, states[n - 1].nextTag)
      case Some(x) => Output(states, n - 1) + [x]
      case None => Output(states, n - 1)
  }

  ghost predicate Start<V>(all: seq<Laned<Item<V>>>, first: nat, s: State<V>, rest: seq<seq<Item<V>>>)
  {
    && Consecutive(all, first, |s.held|) && |rest| == |s.held| && s.nextTag == first
    && forall k :: 0 <= k < |s.held| ==> s.held[k] == None && rest[k] == Lane(all, k)
  }

  /** The output so far is the first `done` items, and the mux stands at the next one. */
  ghost predicate Position<V>(all: seq<Laned<Item<V>>>, first: nat, states: seq<State<V>>, rests: seq<seq<seq<Item<V>>>>, n: nat, done: nat)
    requires n < |states| == |rests|
  {
    && done <= |all| && Output(states, n) == all[..done]
    && Invariant(all, first, states[n], rests[n], done)
  }

  lemma StepKeeps<V>(all: seq<Laned<Item<V>>>, first: nat, states: seq<State<V>>, rests: seq<seq<seq<Item<V>>>>,
                  readies: seq<seq<bool>>, n: nat, done: nat)
    requires |states| == |rests| == |readies| + 1 && n < |readies| && StepAt(states, rests, readies, n)
    requires Position(all, first, states, rests, n, done)
    ensures Position(all, first, states, rests, n + 1, done + if Passed(states[n].held, states[n].nextTag).Some? then 1 else 0)
  {
    CycleKeeps(all, first, states[n], rests[n], done, readies[n]);
  }

  lemma {:induction false} StartKeeps<V>(all: seq<Laned<Item<V>>>, first: nat, states: seq<State<V>>, rests: seq<seq<seq<Item<V>>>>)
    requires 0 < |states| == |rests| && Start(all, first, states[0], rests[0])
    ensures Position(all, first, states, rests, 0, 0)
  {
    assert all[0..] == all;
  }

  lemma {:induction false} RunKeeps<V>(all: seq<Laned<Item<V>>>, first: nat, states: seq<State<V>>, rests: seq<seq<seq<Item<V>>>>,
                                    readies: seq<seq<bool>>, n: nat) returns (done: nat)
    requires Run(states, rests, readies) && Start(all, first, states[0], rests[0]) && n < |states|
    ensures Position(all, first, states, rests, n, done)
  {
    if n == 0 {
      done := 0;
      StartKeeps(all, first, states, rests);
    } else {
      done := RunKeeps(all, first, states, rests, readies, n - 1);
      assert StepAt(states, rests, readies, n - 1);
      StepKeeps(all, first, states, rests, readies, n - 1, done);
      done := done + if Passed(states[n - 1].held, states[n - 1].nextTag).Some? then 1 else 0;
    }
  }

  /** Whatever the ports do, the mux emits the tag-ordered merge of the port streams. */
  lemma OutputIsMerge<V>(all: seq<Laned<Item<V>>>, first: nat, states: seq<State<V>>, rests: seq<seq<seq<Item<V>>>>,
                      readies: seq<seq<bool>>)
    requires Run(states, rests, readies) && Start(all, first, states[0], rests[0])
    ensures Output(states, |states| - 1) <= all
  {
    var done := RunKeeps(all, first, states, rests, readies, |states| - 1);
  }

  /** An item that a responding port holds or delivers is passed on now or in the next cycle. */
  lemma {:induction false} PassedWithinTwo<V>(all: seq<Laned<Item<V>>>, first: nat, states: seq<State<V>>, rests: seq<seq<seq<Item<V>>>>,
                                           readies: seq<seq<bool>>, n: nat, done: nat)
    requires |states| == |rests| == |readies| + 1 && n < |readies| && StepAt(states, rests, readies, n)
    requires Position(all, first, states, rests, n, done) && done < |all|
    requires forall k :: 0 <= k < |readies[n]| ==> readies[n][k]
    ensures Passed(states[n].held, states[n].nextTag).Some? || Passed(states[n + 1].held, states[n + 1].nextTag).Some?
  {
    NextAtFront(all, first, states[n], rests[n], done);
    if Passed(states[n].held, states[n].nextTag).None? {
      StepKeeps(all, first, states, rests, readies, n, done);
      var p := all[done].port;
      assert states[n + 1].held[p] == SlotNext(states[n].held[p], states[n].nextTag, Offers(rests[n], readies[n])[p]);
      NextAtFront(all, first, states[n + 1], rests[n + 1], done);
    }
  }

  lemma {:induction false} OutputGrows<V>(states: seq<State<V>>, n: nat)
    requires n + 1 < |states|
    ensures |Output(states, n + 1)| == |Output(states, n)| + if Passed(states[n].held, states[n].nextTag).Some? then 1 else 0
  {
  }

  /** If the ports respond, the next item comes out within two cycles. */
  lemma {:induction false} EmitsWithinTwo<V>(all: seq<Laned<Item<V>>>, first: nat, states: seq<State<V>>, rests: seq<seq<seq<Item<V>>>>,
                                          readies: seq<seq<bool>>, n: nat)
    requires Run(states, rests, readies) && Start(all, first, states[0], rests[0]) && n + 2 < |states|
    requires forall k :: 0 <= k < |readies[n]| ==> readies[n][k]
    requires |Output(states, n)| < |all|
    ensures |Output(states, n + 2)| > |Output(states, n)|
  {
    var done := RunKeeps(all, first, states, rests, readies, n);
    assert StepAt(states, rests, readies, n);
    PassedWithinTwo(all, first, states, rests, readies, n, done);
    OutputGrows(states, n);
    OutputGrows(states, n + 1);
  }
}
