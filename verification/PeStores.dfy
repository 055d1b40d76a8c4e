module PeStores {
  // The blocks a PE enters and the store values it sends.
  //
  // `BlockPe` follows a block through the iterations of its loops, `StoreTags` through the events
  // of the whole kernel in program order.  Here the two are one: every entry of the PE into its
  // block or its poison block meets the command, predicate and tag, of one event, and the marks
  // sent from there are the PE's share of the numbers of all stores.

  import opened Lanes
  import opened BlockPe
  import opened StoreTags

  /** One after the other. */
  function Flat<T>(parts: seq<seq<T>>): seq<T>
  {
    if parts == [] then [] else Flat(parts[..|parts| - 1]) + parts[|parts| - 1]
  }

  predicate OfPe(e: Event, k: nat)
  {
    e.Block? && e.pe == k
  }

  /** The block of PE `k` occurs once among these events. */
  predicate OnlyOnce(events: seq<Event>, k: nat, poisoned: bool)
  {
    exists i :: 0 <= i < |events| && events[i] == Block(k, poisoned) &&
      forall h :: 0 <= h < |events| && h != i ==> !OfPe(events[h], k)
  }

  /** The events of one iteration: the block is executed, poisoned or not there. */
  predicate IterationShows(events: seq<Event>, k: nat, iteration: Iteration)
  {
    match iteration
    case Runs => OnlyOnce(events, k, false)
    case Poisons => OnlyOnce(events, k, true)
    case Skips => forall h :: 0 <= h < |events| ==> !OfPe(events[h], k)
  }

  predicate ShowsIn(iterations: seq<Iteration>, k: nat, parts: seq<seq<Event>>, tail: seq<Event>)
  {
    && |parts| == |iterations|
    && (forall i :: 0 <= i < |parts| ==> IterationShows(parts[i], k, iterations[i]))
    && forall h :: 0 <= h < |tail| ==> !OfPe(tail[h], k)
  }

  /** In program order the events are those of the iterations of all loop runs, one iteration after
      the other, with any events of the main kernel and of other PEs. */
  ghost predicate Shows(p: Program, events: seq<Event>, k: nat)
  {
    exists parts, tail :: events == Flat(parts) + tail && ShowsIn(Flat(p.runs), k, parts, tail)
  }

  function EntryFor(poisoned: bool): Entry
  {
    if poisoned then IntoPoison else IntoBody
  }

  /** The entries of PE `k` that a list of events asks for. */
  function Asked(events: seq<Event>, k: nat): seq<Entry>
  {
    if events == [] then []
    else
      var e := events[|events| - 1];
      Asked(events[..|events| - 1], k) + if OfPe(e, k) then [EntryFor(e.poisoned)] else []
  }

  // ----------------------------------------------------------- iterations and their events

  lemma {:induction false} AskedConcat(s: seq<Event>, t: seq<Event>, k: nat)
    ensures Asked(s + t, k) == Asked(s, k) + Asked(t, k)
  {
    if t == [] {
      assert s + t == s;
    } else {
      AskedConcat(s, t[..|t| - 1], k);
      assert (s + t)[..|s + t| - 1] == s + t[..|t| - 1];
    }
  }

  lemma {:induction false} NoneAsked(events: seq<Event>, k: nat)
    requires forall h :: 0 <= h < |events| ==> !OfPe(events[h], k)
    ensures Asked(events, k) == []
  {
    if events != [] {
      NoneAsked(events[..|events| - 1], k);
    }
  }

  lemma {:induction false} OnceAsked(events: seq<Event>, k: nat, poisoned: bool)
    requires OnlyOnce(events, k, poisoned)
    ensures Asked(events, k) == [EntryFor(poisoned)]
  {
    var i :| 0 <= i < |events| && events[i] == Block(k, poisoned) &&
      forall h :: 0 <= h < |events| && h != i ==> !OfPe(events[h], k);
    var before, at, behind := events[..i], [events[i]], events[i + 1..];
    assert events == (before + at) + behind;
    NoneAsked(before, k);
    NoneAsked(behind, k);
    AskedConcat(before + at, behind, k);
    AskedConcat(before, at, k);
    assert at[..0] == [];
  }

  lemma {:induction false} IterationAsks(events: seq<Event>, k: nat, iteration: Iteration)
    requires IterationShows(events, k, iteration)
    ensures Asked(events, k) == EntriesOf(iteration)
  {
    match iteration
    case Runs => OnceAsked(events, k, false);
    case Poisons => OnceAsked(events, k, true);
    case Skips => NoneAsked(events, k);
  }

  lemma {:induction false} SameBehind(s: seq<Iteration>, i: nat, t: seq<Iteration>, j: nat)
    requires i <= |s| && j <= |t| && s[i..] == t[j..]
    ensures EntriesFrom(s, i) == EntriesFrom(t, j)
    decreases |s| - i
  {
    assert |s[i..]| == |t[j..]|;
    if i < |s| {
      assert s[i] == s[i..][0] && t[j] == t[j..][0];
      assert s[i + 1..] == s[i..][1..] && t[j + 1..] == t[j..][1..];
      SameBehind(s, i + 1, t, j + 1);
    }
  }

  lemma {:induction false} EntriesConcat(s: seq<Iteration>, t: seq<Iteration>, i: nat)
    requires i <= |s|
    ensures EntriesFrom(s + t, i) == EntriesFrom(s, i) + EntriesFrom(t, 0)
    decreases |s| - i
  {
    if i < |s| {
      EntriesConcat(s, t, i + 1);
    } else {
      assert (s + t)[i..] == t[0..];
      SameBehind(s + t, i, t, 0);
    }
  }

  lemma {:induction false} FlatEntries(p: Program, j: nat)
    requires j <= |p.runs|
    ensures EntriesUpTo(p, j) == EntriesFrom(Flat(p.runs[..j]), 0)
  {
    if j > 0 {
      FlatEntries(p, j - 1);
      assert p.runs[..j][..j - 1] == p.runs[..j - 1];
      EntriesConcat(Flat(p.runs[..j - 1]), p.runs[j - 1], 0);
    }
  }

  lemma {:induction false} PartsAsk(iterations: seq<Iteration>, k: nat, parts: seq<seq<Event>>)
    requires ShowsIn(iterations, k, parts, [])
    ensures Asked(Flat(parts), k) == EntriesFrom(iterations, 0)
    decreases |parts|
  {
    if parts != [] {
      var n := |parts| - 1;
      assert ShowsIn(iterations[..n], k, parts[..n], []);
      PartsAsk(iterations[..n], k, parts[..n]);
      OnePartMore(iterations[..n], k, Flat(parts[..n]), parts[n], iterations[n]);
      assert iterations == iterations[..n] + [iterations[n]];
    }
  }

  lemma {:induction false} OnePartMore(iterations: seq<Iteration>, k: nat, events: seq<Event>, part: seq<Event>, iteration: Iteration)
    requires Asked(events, k) == EntriesFrom(iterations, 0) && IterationShows(part, k, iteration)
    ensures Asked(events + part, k) == EntriesFrom(iterations + [iteration], 0)
  {
    IterationAsks(part, k, iteration);
    AskedConcat(events, part, k);
    EntriesConcat(iterations, [iteration], 0);
    OneEntry(iteration);
  }

  lemma OneEntry(iteration: Iteration)
    ensures EntriesFrom([iteration], 0) == EntriesOf(iteration)
  {
    assert EntriesFrom([iteration], 1) == [];
  }

  /** The iterations ask for the same entries as the events. */
  lemma {:induction false} EventsAskForEntries(p: Program, events: seq<Event>, k: nat)
    requires Shows(p, events, k)
    ensures Asked(events, k) == EntriesUpTo(p, |p.runs|)
  {
    var parts, tail :| events == Flat(parts) + tail && ShowsIn(Flat(p.runs), k, parts, tail);
    PartsAsk(Flat(p.runs), k, parts);
    AskedConcat(Flat(parts), tail, k);
    NoneAsked(tail, k);
    FlatEntries(p, |p.runs|);
    assert p.runs[..|p.runs|] == p.runs;
  }

  lemma {:induction false} CommandsAsk(events: seq<Event>, sizes: seq<nat>, n: nat, k: nat)
    requires n <= |events|
    ensures |CommandsOf(events, sizes, n, k)| == |Asked(events[..n], k)|
    ensures forall i :: 0 <= i < |Asked(events[..n], k)| ==>
      Asked(events[..n], k)[i] == EntryFor(CommandsOf(events, sizes, n, k)[i].poisoned)
  {
    if n > 0 {
      CommandsAsk(events, sizes, n - 1, k);
      assert events[..n][..n - 1] == events[..n - 1];
    }
  }

  // ------------------------------------------------------------------------ whole runs

  /** What the PE has written: in each block entered, a mark for every store of the block, with the
      tag it was told, valid in its own block. */
  function Written(entered: seq<Entry>, commands: seq<Command>, size: nat): seq<Mark>
    requires |entered| <= |commands|
  {
    if entered == [] then []
    else
      var n := |entered| - 1;
      Written(entered[..n], commands, size) + Upward(commands[n].tag, size, entered[n].IntoBody?)
  }

  lemma {:induction false} WrittenContinues(entered: seq<Entry>, commands: seq<Command>, size: nat)
    requires |entered| <= |commands| && forall i :: 0 <= i < |entered| ==> entered[i] == EntryFor(commands[i].poisoned)
    ensures Written(entered, commands, size) == Continued(commands[..|entered|], size)
  {
    if entered != [] {
      var n := |entered| - 1;
      WrittenContinues(entered[..n], commands, size);
      assert commands[..n + 1][..n] == commands[..n];
    }
  }

  lemma {:induction false} ContinuedPrefix(commands: seq<Command>, n: nat, size: nat)
    requires n <= |commands|
    ensures Continued(commands[..n], size) <= Continued(commands, size)
    decreases |commands|
  {
    if n < |commands| {
      var less := commands[..|commands| - 1];
      ContinuedPrefix(less, n, size);
      assert less[..n] == commands[..n];
    } else {
      assert commands[..n] == commands;
    }
  }

  /** Each entry meets one command of the main kernel, in order: its block for an executed event,
      its poison block for a poisoned one. */
  ghost predicate Matched(entered: seq<Entry>, commands: seq<Command>)
  {
    && |entered| <= |commands|
    && forall i :: 0 <= i < |entered| ==> (entered[i].IntoPoison? <==> commands[i].poisoned)
  }

  /** In every interleaving the blocks the PE has entered match the commands of the events so far,
      and what it has written is the beginning of its share of all store numbers; a run that cannot
      go on has entered a block for every command and written its whole share. */
  lemma {:induction false} EntriesMatchCommands(p: Program, c: Capacity, run: seq<System>, events: seq<Event>,
      sizes: seq<nat>, k: nat)
    requires c.input >= 1 && c.predicates >= 1 && c.operands >= 1 && c.output >= 1
    requires Allowed(p) && Run(p, c, run) && Shows(p, events, k) && 0 < k < |sizes|
    ensures var y, commands, share := run[|run| - 1], CommandsOf(events, sizes, |events|, k),
        Lane(Numbered(events, sizes, |events|), k);
      && Matched(y.entered, commands) && Written(y.entered, commands, sizes[k]) <= share
      && (!(exists z :: Next(p, c, y, z)) ==>
            |y.entered| == |commands| && Written(y.entered, commands, sizes[k]) == share)
  {
    var y, commands := run[|run| - 1], CommandsOf(events, sizes, |events|, k);
    RunsAgree(p, c, run);
    EventsAskForEntries(p, events, k);
    CommandsAsk(events, sizes, |events|, k);
    assert events[..|events|] == events;
    WrittenContinues(y.entered, commands, sizes[k]);
    ContinuedPrefix(commands, |y.entered|, sizes[k]);
    CommandsGiveShare(events, sizes, |events|, k);
    assert |y.entered| == |commands| ==> commands[..|y.entered|] == commands;
  }
}
