/**
 Tags and valid bits on store values when the stores are spread over the main kernel and
 block PEs.

 The main kernel counts all stores in program order.  When a block runs in a PE, or is
 poisoned there, the main kernel hands over its current tag and skips as many tags as the
 block has stores; the PE continues from the tag it was handed, in its block or in its
 poison block.
 */
module StoreTags {
  import opened Lanes

  /** What happens in program order: a store of the main kernel, or the block of PE `pe`, each
      executed or poisoned.  Port 0 is the main kernel. */
  datatype Event = Own(poisoned: bool) | Block(pe: nat, poisoned: bool)

  /** What a PE reads for a block: the predicate and the tag. */
  datatype Command = Command(poisoned: bool, tag: nat)

  /** What travels with a store value. */
  datatype Mark = Mark(tag: nat, valid: bool)

  ghost predicate Regular(events: seq<Event>, sizes: seq<nat>)
  {
    forall i :: 0 <= i < |events| && events[i].Block? ==> 0 < events[i].pe < |sizes|
  }

  function PortOf(e: Event): nat
  {
    if e.Own? then 0 else e.pe
  }

  function SizeOf(e: Event, sizes: seq<nat>): nat
  {
    if e.Own? then 1 else if e.pe < |sizes| then sizes[e.pe] else 0
  }

  /** Consecutive tags starting after `tag`. */
  function Upward(tag: nat, n: nat, valid: bool): (r: seq<Mark>)
    ensures |r| == n && forall i :: 0 <= i < n ==> r[i] == Mark(tag + 1 + i, valid)
  {
    if n == 0 then [] else Upward(tag, n - 1, valid) + [Mark(tag + n, valid)]
  }

  /** The same, all on one port. */
  function Burst(port: nat, tag: nat, n: nat, valid: bool): (r: seq<Laned<Mark>>)
    ensures |r| == n && forall i :: 0 <= i < n ==> r[i] == Laned(port, Mark(tag + 1 + i, valid))
  {
    if n == 0 then [] else Burst(port, tag, n - 1, valid) + [Laned(port, Mark(tag + n, valid))]
  }

  /** All store values of the first `n` events in program order: numbered from 1, and valid if
      the event they belong to is executed. */
  function Numbered(events: seq<Event>, sizes: seq<nat>, n: nat): (r: seq<Laned<Mark>>)
    requires n <= |events|
    ensures forall i :: 0 <= i < |r| ==> r[i].item.tag == i + 1
  {
    if n == 0 then []
    else
      var earlier, e := Numbered(events, sizes, n - 1), events[n - 1];
      earlier + Burst(PortOf(e), |earlier|, SizeOf(e, sizes), !e.poisoned)
  }

  /** How many stores the first `n` events have. */
  function Stores(events: seq<Event>, sizes: seq<nat>, n: nat): nat
    requires n <= |events|
  {
    if n == 0 then 0 else Stores(events, sizes, n - 1) + SizeOf(events[n - 1], sizes)
  }

  lemma {:induction false} StoresAreNumbered(events: seq<Event>, sizes: seq<nat>, n: nat)
    requires n <= |events|
    ensures |Numbered(events, sizes, n)| == Stores(events, sizes, n)
  {
    if n > 0 {
      StoresAreNumbered(events, sizes, n - 1);
    }
  }

  /** What PE `k` is told about the first `n` events: for each execution or poisoning of its block,
      which of the two, and how many stores come before. */
  function CommandsOf(events: seq<Event>, sizes: seq<nat>, n: nat, k: nat): seq<Command>
    requires n <= |events|
  {
    if n == 0 then []
    else
      var e := events[n - 1];
      CommandsOf(events, sizes, n - 1, k) +
        if e.Block? && e.pe == k then [Command(e.poisoned, Stores(events, sizes, n - 1))] else []
  }

  /** What a PE makes of the commands it reads. */
  function Continued(commands: seq<Command>, size: nat): seq<Mark>
  {
    if commands == [] then []
    else
      var last := commands[|commands| - 1];
      Continued(commands[..|commands| - 1], size) + Upward(last.tag, size, !last.poisoned)
  }

  lemma {:induction false} BurstLane(port: nat, tag: nat, n: nat, valid: bool, k: nat)
    ensures Lane(Burst(port, tag, n, valid), k) == if k == port then Upward(tag, n, valid) else []
    decreases n
  {
    if n > 0 {
      var before, mark := Burst(port, tag, n - 1, valid), Mark(tag + n, valid);
      BurstLane(port, tag, n - 1, valid, k);
      LaneAppend<Mark>(before, Laned(port, mark), k);
      assert Burst(port, tag, n, valid) == before + [Laned(port, mark)];
      assert Upward(tag, n, valid) == Upward(tag, n - 1, valid) + [mark];
    }
  }

  /** One more event on every port. */
  lemma {:induction false} LaneOfNext(events: seq<Event>, sizes: seq<nat>, n: nat, k: nat)
    requires n < |events|
    ensures var earlier, e := Numbered(events, sizes, n), events[n];
      Lane(Numbered(events, sizes, n + 1), k) == Lane(earlier, k) +
        if k == PortOf(e) then Upward(|earlier|, SizeOf(e, sizes), !e.poisoned) else []
  {
    var earlier, e := Numbered(events, sizes, n), events[n];
    LaneConcat<Mark>(earlier, Burst(PortOf(e), |earlier|, SizeOf(e, sizes), !e.poisoned), k);
    BurstLane(PortOf(e), |earlier|, SizeOf(e, sizes), !e.poisoned, k);
  }

  lemma ContinuedGrows(commands: seq<Command>, command: Command, size: nat)
    ensures Continued(commands + [command], size) == Continued(commands, size) + Upward(command.tag, size, !command.poisoned)
  {
    assert (commands + [command])[..|commands|] == commands;
  }

  /** A PE that continues the tags it is told sends its share of all numbers. */
  lemma {:induction false} CommandsGiveShare(events: seq<Event>, sizes: seq<nat>, n: nat, k: nat)
    requires n <= |events| && 0 < k < |sizes|
    ensures Continued(CommandsOf(events, sizes, n, k), sizes[k]) == Lane(Numbered(events, sizes, n), k)
  {
    if n > 0 {
      CommandsGiveShare(events, sizes, n - 1, k);
      ShareGrows(events, sizes, n - 1, k, CommandsOf(events, sizes, n - 1, k), Lane(Numbered(events, sizes, n - 1), k));
    }
  }

  /** One more event. */
  lemma {:induction false} ShareGrows(events: seq<Event>, sizes: seq<nat>, n: nat, k: nat, commands: seq<Command>, share: seq<Mark>)
    requires n < |events| && 0 < k < |sizes|
    requires commands == CommandsOf(events, sizes, n, k) && share == Lane(Numbered(events, sizes, n), k)
    requires Continued(commands, sizes[k]) == share
    ensures Continued(CommandsOf(events, sizes, n + 1, k), sizes[k]) == Lane(Numbered(events, sizes, n + 1), k)
  {
    var e := events[n];
    LaneOfNext(events, sizes, n, k);
    StoresAreNumbered(events, sizes, n);
    if k == PortOf(e) {
      ContinuedGrows(commands, Command(e.poisoned, Stores(events, sizes, n)), sizes[k]);
    } else {
      assert commands + [] == commands && share + [] == share;
    }
  }

  /** What the main kernel has sent and handed over after `n` events. */
  ghost predicate Shared(events: seq<Event>, sizes: seq<nat>, n: nat, own: seq<Mark>, handed: seq<seq<Command>>)
    requires n <= |events|
  {
    && own == Lane(Numbered(events, sizes, n), 0) && |handed| == |sizes|
    && forall k :: 0 < k < |sizes| ==> handed[k] == CommandsOf(events, sizes, n, k)
  }

  lemma {:induction false} OwnShared(events: seq<Event>, sizes: seq<nat>, n: nat, own: seq<Mark>, handed: seq<seq<Command>>, mark: Mark)
    requires n < |events| && Shared(events, sizes, n, own, handed) && events[n].Own?
    requires mark == Mark(Stores(events, sizes, n) + 1, !events[n].poisoned)
    ensures Shared(events, sizes, n + 1, own + [mark], handed)
  {
    StoresAreNumbered(events, sizes, n);
    assert Upward(Stores(events, sizes, n), 1, !events[n].poisoned) == [mark];
    LaneOfNext(events, sizes, n, 0);
    forall k | 0 < k < |sizes|
      ensures handed[k] == CommandsOf(events, sizes, n + 1, k)
    {
      assert CommandsOf(events, sizes, n, k) + [] == CommandsOf(events, sizes, n, k);
    }
  }

  lemma {:induction false} BlockShared(events: seq<Event>, sizes: seq<nat>, n: nat, own: seq<Mark>, handed: seq<seq<Command>>, command: Command)
    requires n < |events| && Shared(events, sizes, n, own, handed)
    requires events[n].Block? && 0 < events[n].pe < |sizes|
    requires command == Command(events[n].poisoned, Stores(events, sizes, n))
    ensures var pe := events[n].pe; Shared(events, sizes, n + 1, own, handed[pe := handed[pe] + [command]])
  {
    var pe := events[n].pe;
    var more := handed[pe := handed[pe] + [command]];
    LaneOfNext(events, sizes, n, 0);
    forall k | 0 < k < |sizes|
      ensures more[k] == CommandsOf(events, sizes, n + 1, k)
    {
      assert CommandsOf(events, sizes, n, k) + [] == CommandsOf(events, sizes, n, k);
    }
  }

  /** The main kernel: the marks on its own store values, and what it hands to the PEs. */
  method MainKernel(events: seq<Event>, sizes: seq<nat>) returns (own: seq<Mark>, handed: seq<seq<Command>>)
    requires Regular(events, sizes)
    ensures own == Lane(Numbered(events, sizes, |events|), 0)
    ensures |handed| == |sizes|
    ensures forall k :: 0 < k < |sizes| ==> handed[k] == CommandsOf(events, sizes, |events|, k)
    ensures forall k :: 0 < k < |sizes| ==>
      Continued(handed[k], sizes[k]) == Lane(Numbered(events, sizes, |events|), k)
  {
    own, handed := [], seq(|sizes|, _ => []);
    var stTag: nat := 0;
    for n := 0 to |events|
      invariant stTag == Stores(events, sizes, n)
      invariant Shared(events, sizes, n, own, handed)
    {
      match events[n]
      case Own(poisoned) =>
        var mark := Mark(stTag + 1, !poisoned);
        OwnShared(events, sizes, n, own, handed, mark);
        stTag := stTag + 1;
        own := own + [mark];
      case Block(pe, poisoned) =>
        var command := Command(poisoned, stTag);
        BlockShared(events, sizes, n, own, handed, command);
        handed := handed[pe := handed[pe] + [command]];
        stTag := stTag + sizes[pe];
    }
    forall k | 0 < k < |sizes|
      ensures Continued(handed[k], sizes[k]) == Lane(Numbered(events, sizes, |events|), k)
    {
      CommandsGiveShare(events, sizes, |events|, k);
    }
  }

  /** The block of a PE: its stores, one after the other. */
  method ExecuteBlock(tag: nat, size: nat) returns (marks: seq<Mark>)
    ensures marks == Upward(tag, size, true)
  {
    marks := [];
    var stTag := tag;
    for i := 0 to size
      invariant stTag == tag + i && marks == Upward(tag, i, true)
    {
      stTag := stTag + 1;
      marks := marks + [Mark(stTag, true)];
    }
  }

  /** The poison block of a PE: nothing is stored, but every store takes its tag. */
  method PoisonBlock(tag: nat, size: nat) returns (marks: seq<Mark>)
    ensures marks == Upward(tag, size, false)
  {
    marks := [];
    var stTag := tag;
    for i := 0 to size
      invariant stTag == tag + i && marks == Upward(tag, i, false)
    {
      stTag := stTag + 1;
      marks := marks + [Mark(stTag, false)];
    }
  }

  /** A PE: it reads predicate and tag and goes to its block or to its poison block. */
  method BlockKernel(commands: seq<Command>, size: nat) returns (marks: seq<Mark>)
    ensures marks == Continued(commands, size)
  {
    marks := [];
    for n := 0 to |commands|
      invariant marks == Continued(commands[..n], size)
    {
      var burst;
      if commands[n].poisoned {
        burst := PoisonBlock(commands[n].tag, size);
      } else {
        burst := ExecuteBlock(commands[n].tag, size);
      }
      marks := marks + burst;
      assert commands[..n + 1][..n] == commands[..n];
    }
    assert commands[..|commands|] == commands;
  }

  /** The whole system: main kernel and PEs tag the store values 1, 2, 3, ... in program
      order, each port with its share, and the values of poisoned events, and no others, are
      not valid. */
  method AllKernels(events: seq<Event>, sizes: seq<nat>) returns (ports: seq<seq<Mark>>)
    requires Regular(events, sizes) && |sizes| > 0
    ensures |ports| == |sizes|
    ensures forall k :: 0 <= k < |ports| ==> ports[k] == Lane(Numbered(events, sizes, |events|), k)
    ensures forall i :: 0 <= i < |Numbered(events, sizes, |events|)| ==>
      Numbered(events, sizes, |events|)[i].item.tag == i + 1
  {
    var own, handed := MainKernel(events, sizes);
    ports := [own];
    for k := 1 to |sizes|
      invariant |ports| == k
      invariant forall h :: 0 <= h < k ==> ports[h] == Lane(Numbered(events, sizes, |events|), h)
    {
      var marks := BlockKernel(handed[k], sizes[k]);
      ports := ports + [marks];
    }
  }

  // --------------------------------------------------------------- where a value comes from

  lemma {:induction false} NumberedGrows(events: seq<Event>, sizes: seq<nat>, n: nat, m: nat)
    requires n <= m <= |events|
    ensures Numbered(events, sizes, n) <= Numbered(events, sizes, m)
    decreases m
  {
    if n < m {
      NumberedGrows(events, sizes, n, m - 1);
    }
  }

  /** Event `n` has the numbers after those of the earlier events, on its own port, valid if
      and only if it is executed. */
  lemma {:induction false} MarksOfEvent(events: seq<Event>, sizes: seq<nat>, n: nat, j: nat)
    requires n < |events| && j < SizeOf(events[n], sizes)
    ensures var i := Stores(events, sizes, n) + j;
      && i < |Numbered(events, sizes, |events|)|
      && Numbered(events, sizes, |events|)[i] == Laned(PortOf(events[n]), Mark(i + 1, !events[n].poisoned))
  {
    StoresAreNumbered(events, sizes, n);
    NumberedGrows(events, sizes, n + 1, |events|);
    var e, i := events[n], Stores(events, sizes, n) + j;
    assert Numbered(events, sizes, n + 1)[i] == Burst(PortOf(e), i - j, SizeOf(e, sizes), !e.poisoned)[j];
  }
}
