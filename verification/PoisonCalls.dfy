module PoisonCalls {
  // Where the poison calls end up.  The call for a collected edge goes into a new block on the
  // edge if control can also get from the true block to the end of the edge, and else to the
  // start of the block at the end of the edge, where every path that enters the block runs it.

  import opened Cfg
  import opened Poison

  /** The call for an edge that ends in `s` is put at the start of `s`. */
  ghost predicate AtStart(r: Region, j: nat, s: nat)
    requires j < |r.order|
  {
    !ReachableWithinLoop(r.g, r.order[j], s, r.stop)
  }

  /** What settles a request at run time: its true block, or the call placed for an edge. */
  datatype Event = Visit | Call(e: Arc)

  /** Step `i` of `p` runs the event. */
  ghost predicate Runs(r: Region, j: nat, p: seq<nat>, i: nat, event: Event)
    requires j < |r.order|
  {
    && 1 <= i < |p|
    && match event
       case Visit => p[i] == r.order[j]
       case Call(e) => PoisonEdge(r, j, e) && if AtStart(r, j, e.1) then p[i] == e.1 else (p[i - 1], p[i]) == e
  }

  ghost predicate RunsOnly(r: Region, j: nat, p: seq<nat>, i: nat, event: Event)
    requires j < |r.order|
  {
    Runs(r, j, p, i, event) && forall k: nat, other :: Runs(r, j, p, k, other) ==> k == i && other == event
  }

  /** Every path to the latch runs exactly one event for the requests of true block `j`. */
  ghost predicate RunsOnce(r: Region, j: nat)
    requires j < |r.order|
  {
    forall p :: Path(r, p) ==> exists i: nat, event :: RunsOnly(r, j, p, i, event)
  }

  /** Where the true block cannot get to the end of a collected edge before the back edge, this
      edge is the only way in. */
  ghost predicate SoleEntry(r: Region, j: nat)
    requires j < |r.order|
  {
    forall a, s, b :: PoisonEdge(r, j, (a, s)) && s != r.stop && !Reaches(r.g, r.order[j], s, r.stop) && Enters(r, b, s)
      ==> b == a
  }

  /** Control can get from the speculation block to `b`, and from there to `s`, before the back
      edge. */
  ghost predicate Enters(r: Region, b: nat, s: nat)
  {
    Reaches(r.g, r.start, b, r.stop) && b != r.stop && Edge(r.g, b, s)
  }

  lemma PoisonedIsGivenUp(r: Region, j: nat, a: nat, s: nat)
    requires j < |r.order| && PoisonEdge(r, j, (a, s))
    ensures s != r.order[j] && !Keeps(r, j, s)
  {
    var p, i: nat :| Path(r, p) && PoisonedBy(r, j, p, i, (a, s));
  }

  /** With sole entries, a call runs exactly where its edge is crossed. */
  lemma CallCrosses(r: Region, j: nat, p: seq<nat>, i: nat, e: Arc)
    requires j < |r.order| && SoleEntry(r, j) && Path(r, p) && Runs(r, j, p, i, Call(e))
    ensures (p[i - 1], p[i]) == e && Settles(r, j, p, i) && p[i] != r.order[j]
  {
    if AtStart(r, j, e.1) {
      ReachesAlong(r, p, 0, i - 1);
      assert Edge(r.g, p[i - 1], p[i - 1 + 1]);
      assert Enters(r, p[i - 1], p[i]);
      assert PoisonEdge(r, j, (e.0, e.1));
    }
    PoisonedIsGivenUp(r, j, e.0, e.1);
  }

  lemma SettlesRuns(r: Region, j: nat, p: seq<nat>, i: nat) returns (event: Event)
    requires j < |r.order| && Settles(r, j, p, i)
    ensures Runs(r, j, p, i, event) && event == if p[i] == r.order[j] then Visit else Call((p[i - 1], p[i]))
  {
    event := if p[i] == r.order[j] then Visit else Call((p[i - 1], p[i]));
  }

  lemma OnceFromSoleEntry(r: Region, j: nat, p: seq<nat>, i: nat)
    requires j < |r.order| && SoleEntry(r, j) && Path(r, p) && SettledAt(r, j, p, i)
    ensures exists event :: RunsOnly(r, j, p, i, event)
  {
    var event := SettlesRuns(r, j, p, i);
    forall k: nat, other | Runs(r, j, p, k, other)
      ensures k == i && other == event
    {
      if other.Call? {
        CallCrosses(r, j, p, k, other.e);
      } else {
        assert Settles(r, j, p, k);
      }
    }
    assert RunsOnly(r, j, p, i, event);
  }

  /** A path that runs one event settles the requests once. */
  lemma OnceIsSettled(r: Region, j: nat, p: seq<nat>, i: nat, event: Event)
    requires j < |r.order| && Path(r, p) && RunsOnly(r, j, p, i, event)
    ensures exists k: nat :: SettledAt(r, j, p, k)
  {
    var k := SomeSettles(r, j, p, i, event);
    var seen := SettlesRuns(r, j, p, k);
    forall m: nat | Settles(r, j, p, m)
      ensures m == k
    {
      var other := SettlesRuns(r, j, p, m);
    }
    assert SettledAt(r, j, p, k);
  }

  lemma SomeSettles(r: Region, j: nat, p: seq<nat>, i: nat, event: Event) returns (k: nat)
    requires j < |r.order| && Path(r, p) && Runs(r, j, p, i, event)
    ensures Settles(r, j, p, k)
  {
    match event {
      case Visit =>
        k := i;
      case Call(e) =>
        PoisonedIsGivenUp(r, j, e.0, e.1);
        if AtStart(r, j, e.1) {
          k := FirstGivenUp(r, j, p, i);
          GivenUpSettles(r, j, p, k);
        } else {
          k := i;
        }
    }
  }

  /** Going to `b` on any way, and along a path from the block behind it. */
  lemma Detour(r: Region, rank: nat -> nat, b: nat, q: seq<nat>, i: nat) returns (w: seq<nat>, m: nat)
    requires Plain(r, rank) && Path(r, q) && 1 <= i < |q| && Enters(r, b, q[i])
    ensures Path(r, w) && 1 <= m < |w| && w[m - 1] == b && w[m] == q[i]
  {
    var p :| Avoiding(r.g, p, r.start, b, r.stop);
    w, m := p + q[i..], |p|;
    forall h | 0 <= h < |w| - 1
      ensures Edge(r.g, w[h], w[h + 1]) && w[h] != r.stop
    {
      if h < |p| - 1 {
        assert w[h] == p[h] && w[h + 1] == p[h + 1];
      } else if h >= |p| {
        assert w[h] == q[h - |p| + i] && w[h + 1] == q[h - |p| + i + 1];
      }
    }
    forall h | 1 <= h < |w|
      ensures w[h] !in r.g.headers
    {
      if h < |p| {
        WayStays(r, p, b, h - 1);
        assert Edge(r.g, p[h - 1], p[h - 1 + 1]);
      }
    }
  }

  lemma WayStays(r: Region, p: seq<nat>, b: nat, h: nat)
    requires Avoiding(r.g, p, r.start, b, r.stop) && h < |p|
    ensures Reaches(r.g, r.start, p[h], r.stop)
  {
    var w := p[..h + 1];
    forall i | 0 <= i < |w| - 1
      ensures Edge(r.g, w[i], w[i + 1]) && w[i] != r.stop
    {
      assert w[i] == p[i] && w[i + 1] == p[i + 1];
    }
    assert Avoiding(r.g, w, r.start, p[h], r.stop);
  }

  /** Another way into a block with a call at its start: some path runs two events. */
  lemma SecondEntryRunsTwice(r: Region, rank: nat -> nat, j: nat, a: nat, s: nat, b: nat)
    requires Plain(r, rank) && j < |r.order| && PoisonEdge(r, j, (a, s)) && AtStart(r, j, s) && Enters(r, b, s) && b != a
    ensures !RunsOnce(r, j)
  {
    var q, i: nat :| Path(r, q) && PoisonedBy(r, j, q, i, (a, s));
    var w, m := Detour(r, rank, b, q, i);
    PoisonedIsGivenUp(r, j, a, s);
    var k := FirstGivenUp(r, j, w, m);
    GivenUpSettles(r, j, w, k);
    var event := SettlesRuns(r, j, w, k);
    assert Runs(r, j, w, m, Call((a, s)));
    assert forall n: nat, only :: !RunsOnly(r, j, w, n, only);
  }

  /** The exact condition, in a loop body without inner loops: with the calls placed, every path
      settles a request exactly once if and only if it does so with the collected edges, and
      every block with a call at its start is entered by the edge of that call only. */
  lemma RunsOnceIffSoleEntry(r: Region, rank: nat -> nat, j: nat)
    requires Plain(r, rank) && Listed(r) && j < |r.order|
    ensures RunsOnce(r, j) <==> ExactlyOnce(r, j) && SoleEntry(r, j)
  {
    if ExactlyOnce(r, j) && SoleEntry(r, j) {
      forall p | Path(r, p)
        ensures exists i: nat, event :: RunsOnly(r, j, p, i, event)
      {
        var i: nat :| SettledAt(r, j, p, i);
        OnceFromSoleEntry(r, j, p, i);
      }
    }
    if RunsOnce(r, j) {
      forall p | Path(r, p)
        ensures exists i: nat :: SettledAt(r, j, p, i)
      {
        var i: nat, event :| RunsOnly(r, j, p, i, event);
        OnceIsSettled(r, j, p, i, event);
      }
      forall a, s, b | PoisonEdge(r, j, (a, s)) && AtStart(r, j, s) && Enters(r, b, s)
        ensures b == a
      {
        if b != a {
          SecondEntryRunsTwice(r, rank, j, a, s, b);
        }
      }
    }
  }

  /** A call at the start of a block is not on the way from the true block, nor on the way to it:
      a path that visits the true block runs the calls of the edges it crosses and no others. */
  lemma VisitRunsCrossedCalls(r: Region, j: nat, p: seq<nat>, h: nat, i: nat, e: Arc)
    requires j < |r.order| && Path(r, p) && 1 <= h < |p| && p[h] == r.order[j]
    ensures Runs(r, j, p, i, Call(e)) <==> 1 <= i < |p| && e == (p[i - 1], p[i]) && PoisonEdge(r, j, e)
  {
    if PoisonEdge(r, j, e) && 1 <= i < |p| && p[i] == e.1 {
      PoisonedIsGivenUp(r, j, e.0, e.1);
      if i < h {
        LiveBefore(r, p, i, h);
      } else {
        ReachesAlong(r, p, h, i);
      }
    }
  }

  /** Where the collected edges settle a request exactly once, no path that visits its true block
      runs a call for it. */
  lemma VisitRunsNoCall(r: Region, j: nat, p: seq<nat>, h: nat, i: nat, e: Arc)
    requires j < |r.order| && ExactlyOnce(r, j) && Path(r, p) && 1 <= h < |p| && p[h] == r.order[j]
    ensures !Runs(r, j, p, i, Call(e))
  {
    VisitRunsCrossedCalls(r, j, p, h, i, e);
    assert Settles(r, j, p, h) && (Runs(r, j, p, i, Call(e)) ==> Settles(r, j, p, i));
    if PoisonEdge(r, j, e) {
      PoisonedIsGivenUp(r, j, e.0, e.1);
    }
  }

  /** If control can get from the true block to the end of every collected edge, placing the calls
      changes nothing in how often a request is settled. */
  lemma ReachedEdgesRunOnce(r: Region, j: nat)
    requires j < |r.order|
    requires forall a, s :: PoisonEdge(r, j, (a, s)) ==> s == r.stop || Reaches(r.g, r.order[j], s, r.stop)
    ensures RunsOnce(r, j) <==> ExactlyOnce(r, j)
  {
    if ExactlyOnce(r, j) {
      forall p | Path(r, p)
        ensures exists i: nat, event :: RunsOnly(r, j, p, i, event)
      {
        var i: nat :| SettledAt(r, j, p, i);
        OnceFromSoleEntry(r, j, p, i);
      }
    }
    if RunsOnce(r, j) {
      forall p | Path(r, p)
        ensures exists i: nat :: SettledAt(r, j, p, i)
      {
        var i: nat, event :| RunsOnly(r, j, p, i, event);
        OnceIsSettled(r, j, p, i, event);
      }
    }
  }

  /** One condition: the true block 1 is run or not, and block 2 follows. */
  const TRIANGLE := Region(Graph(map[0 := [1, 2], 1 := [2], 2 := [3], 3 := []], {}), 0, 3, [1])

  /** The call for the edge (0, 2) gets a block of its own, and every path settles the request
      once; the path over the true block runs no call. */
  lemma TriangleRunsOnce()
    ensures PoisonEdge(TRIANGLE, 0, (0, 2)) && Runs(TRIANGLE, 0, [0, 2, 3], 1, Call((0, 2)))
    ensures Path(TRIANGLE, [0, 1, 2, 3]) && forall i: nat, e :: !Runs(TRIANGLE, 0, [0, 1, 2, 3], i, Call(e))
    ensures RunsOnce(TRIANGLE, 0)
  {
    OneTrueBlock(TRIANGLE, b => if b <= 3 then 3 - b else 0);
    TrianglePoisons();
    var p := [0, 1, 2, 3];
    assert Path(TRIANGLE, p);
    forall i: nat, e
      ensures !Runs(TRIANGLE, 0, p, i, Call(e))
    {
      VisitRunsNoCall(TRIANGLE, 0, p, 1, i, e);
    }
    ReachedEdgesRunOnce(TRIANGLE, 0);
  }

  lemma TrianglePoisons()
    ensures PoisonEdge(TRIANGLE, 0, (0, 2)) && Reaches(TRIANGLE.g, 1, 2, 3)
    ensures forall a, s :: PoisonEdge(TRIANGLE, 0, (a, s)) ==> s == 2 || s == 3
  {
    assert Avoiding(TRIANGLE.g, [1, 2], 1, 2, 3);
    forall p
      ensures !Avoiding(TRIANGLE.g, p, 2, 1, 3)
    {
      if Avoiding(TRIANGLE.g, p, 2, 1, 3) {
        StaysInside(TRIANGLE.g, {2, 3}, p, 2, 1, 3);
      }
    }
    var p := [0, 2, 3];
    assert Path(TRIANGLE, p) && PoisonedBy(TRIANGLE, 0, p, 1, (0, 2));
    forall a, s | PoisonEdge(TRIANGLE, 0, (a, s))
      ensures s == 2 || s == 3
    {
      var q, i: nat :| Path(TRIANGLE, q) && PoisonedBy(TRIANGLE, 0, q, i, (a, s));
      assert Edge(TRIANGLE.g, q[i - 1], q[i - 1 + 1]);
    }
  }

  /** Two conditions in a row: the true block 2 is run if both hold, block 3 otherwise. */
  const BOTH := Region(Graph(map[0 := [1, 3], 1 := [2, 3], 2 := [4], 3 := [4], 4 := []], {}), 0, 4, [2])

  /** The edges (0, 3) and (1, 3) settle the request once on every path; but both calls are put at
      the start of block 3, where each of these paths runs both. */
  lemma BothPoisonsTwice()
    ensures ExactlyOnce(BOTH, 0) && PoisonEdge(BOTH, 0, (0, 3)) && PoisonEdge(BOTH, 0, (1, 3))
    ensures Path(BOTH, [0, 3, 4]) && Runs(BOTH, 0, [0, 3, 4], 1, Call((0, 3))) && Runs(BOTH, 0, [0, 3, 4], 1, Call((1, 3)))
    ensures !RunsOnce(BOTH, 0)
  {
    OneTrueBlock(BOTH, b => if b <= 4 then 4 - b else 0);
    BothPoisons();
    assert Runs(BOTH, 0, [0, 3, 4], 1, Call((0, 3))) && Runs(BOTH, 0, [0, 3, 4], 1, Call((1, 3)));
    TwoAreNotOne(BOTH, 0, [0, 3, 4], 1, Call((0, 3)), 1, Call((1, 3)));
  }

  lemma TwoAreNotOne(r: Region, j: nat, p: seq<nat>, i: nat, event: Event, k: nat, other: Event)
    requires j < |r.order| && Path(r, p) && Runs(r, j, p, i, event) && Runs(r, j, p, k, other) && event != other
    ensures !RunsOnce(r, j)
  {
    assert forall n: nat, only :: !RunsOnly(r, j, p, n, only);
  }

  lemma BothPoisons()
    ensures Path(BOTH, [0, 3, 4]) && AtStart(BOTH, 0, 3)
    ensures PoisonEdge(BOTH, 0, (0, 3)) && PoisonEdge(BOTH, 0, (1, 3))
  {
    BothReach();
    var p, q := [0, 3, 4], [0, 1, 3, 4];
    assert Path(BOTH, p) && Path(BOTH, q);
    assert PoisonedBy(BOTH, 0, p, 1, (0, 3));
    assert Keeps(BOTH, 0, q[1]);
    assert PoisonedBy(BOTH, 0, q, 2, (1, 3));
  }

  lemma BothReach()
    ensures Live(BOTH, 1, 2) && !Live(BOTH, 3, 2) && AtStart(BOTH, 0, 3)
  {
    assert Avoiding(BOTH.g, [1, 2], 1, 2, 4);
    forall p
      ensures !Avoiding(BOTH.g, p, 3, 2, 4) && !Avoiding(BOTH.g, p, 2, 3, 4)
    {
      if Avoiding(BOTH.g, p, 3, 2, 4) {
        StaysInside(BOTH.g, {3, 4}, p, 3, 2, 4);
      }
      if Avoiding(BOTH.g, p, 2, 3, 4) {
        StaysInside(BOTH.g, {2, 4}, p, 2, 3, 4);
      }
    }
  }
}
