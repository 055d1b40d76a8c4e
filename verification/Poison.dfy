module Poison {
  // Placement of poison calls.  Requests hoisted to a speculation block keep their original, true
  // block.  On every path from the speculation block to the loop latch a request must be settled
  // exactly once: by its true block, or by a poison call on an edge from which the true block can
  // no longer be reached.  Edges are collected path by path and united over all paths.

  import opened Cfg

  /** A speculation block, the latch of its loop, and the true blocks of its requests in the
      order in which they are examined. */
  datatype Region = Region(g: Graph, start: nat, stop: nat, order: seq<nat>)

  type Arc = (nat, nat)

  /** The graph is acyclic apart from headers, which is what the enumeration of paths needs. */
  ghost predicate Layered(r: Region, rank: nat -> nat)
  {
    Closed(r.g) && r.start in r.g.succ && Ranked(r.g, r.stop, rank)
  }

  /** Moreover no block reachable from the speculation block without taking the back edge leads
      to a header: there are no inner loops, and the body is not left into an outer loop. */
  ghost predicate Plain(r: Region, rank: nat -> nat)
  {
    && Layered(r, rank)
    && forall b, s :: Reaches(r.g, r.start, b, r.stop) && b != r.stop && Edge(r.g, b, s) ==> s !in r.g.headers
  }

  /** True blocks are examined once each, and requests whose true block is the speculation
      block itself are not speculated. */
  predicate Listed(r: Region)
  {
    && (forall i, j :: 0 <= i < j < |r.order| ==> r.order[i] != r.order[j])
    && r.start !in r.order
  }

  ghost predicate Path(r: Region, p: seq<nat>)
  {
    Complete(r.g, p, r.start, r.stop)
  }

  // ------------------------------------------------------------------ what one path does

  ghost predicate Live(r: Region, v: nat, trueBlock: nat)
  {
    ReachableWithinLoop(r.g, v, trueBlock, r.stop)
  }

  /** Entering `v` leaves the requests of true block number `j` alone: the block is still
      reachable, or `v` is a true block examined earlier, whose `break` ends the examination. */
  ghost predicate Keeps(r: Region, j: nat, v: nat)
    requires j < |r.order|
  {
    v != r.order[j] && (Live(r, v, r.order[j]) || v in r.order[..j])
  }

  ghost predicate Pending(r: Region, j: nat, p: seq<nat>, i: nat)
    requires j < |r.order| && i < |p|
  {
    forall k :: 1 <= k <= i ==> Keeps(r, j, p[k])
  }

  ghost predicate PoisonedAt(r: Region, j: nat, p: seq<nat>, i: nat)
    requires j < |r.order|
  {
    1 <= i < |p| && Pending(r, j, p, i - 1) && p[i] != r.order[j] && !Keeps(r, j, p[i])
  }

  ghost predicate PoisonedBy(r: Region, j: nat, p: seq<nat>, i: nat, e: Arc)
    requires j < |r.order|
  {
    PoisonedAt(r, j, p, i) && e == (p[i - 1], p[i])
  }

  /** The edges collected for one true block, over all paths. */
  ghost predicate PoisonEdge(r: Region, j: nat, e: Arc)
    requires j < |r.order|
  {
    exists p, i: nat :: Path(r, p) && PoisonedBy(r, j, p, i, e)
  }

  // ----------------------------------------------------------------- facts about paths

  lemma {:induction false} RankFalls(r: Region, rank: nat -> nat, p: seq<nat>, i: nat, k: nat)
    requires Layered(r, rank) && Path(r, p) && i < k < |p|
    ensures rank(p[k]) < rank(p[i])
  {
    assert Edge(r.g, p[k - 1], p[k - 1 + 1]);
    if i < k - 1 {
      RankFalls(r, rank, p, i, k - 1);
    }
  }

  lemma ReachesAlong(r: Region, p: seq<nat>, i: nat, k: nat)
    requires Path(r, p) && i <= k < |p|
    ensures Reaches(r.g, p[i], p[k], r.stop)
  {
    var q := p[i..k + 1];
    forall h | 0 <= h < |q| - 1
      ensures Edge(r.g, q[h], q[h + 1]) && q[h] != r.stop
    {
      assert q[h] == p[i + h] && q[h + 1] == p[i + h + 1];
    }
    assert Avoiding(r.g, q, p[i], p[k], r.stop);
  }

  lemma ReachesChain(r: Region, a: nat, b: nat, c: nat)
    requires Reaches(r.g, a, b, r.stop) && Reaches(r.g, b, c, r.stop)
    ensures Reaches(r.g, a, c, r.stop)
  {
    var p :| Avoiding(r.g, p, a, b, r.stop);
    var q :| Avoiding(r.g, q, b, c, r.stop);
    var w := p[..|p| - 1] + q;
    forall h | 0 <= h < |w| - 1
      ensures Edge(r.g, w[h], w[h + 1]) && w[h] != r.stop
    {
      if h < |p| - 1 {
        assert w[h] == p[h] && w[h + 1] == p[h + 1];
      } else {
        assert w[h] == q[h - (|p| - 1)] && w[h + 1] == q[h - (|p| - 1) + 1];
      }
    }
    assert Avoiding(r.g, w, a, c, r.stop);
  }

  /** Inside the region rank goes down along every path that avoids the back edge. */
  lemma {:induction false} ReachingFalls(r: Region, rank: nat -> nat, a: nat, b: nat, p: seq<nat>)
    requires Plain(r, rank) && Reaches(r.g, r.start, a, r.stop)
    requires Avoiding(r.g, p, a, b, r.stop) && a != b
    ensures rank(b) < rank(a)
    decreases |p|
  {
    assert Edge(r.g, p[0], p[0 + 1]);
    ReachesExtends(r.g, r.start, a, p[1], r.stop);
    if p[1] != b {
      var rest := p[1..];
      forall i | 0 <= i < |rest| - 1
        ensures Edge(r.g, rest[i], rest[i + 1]) && rest[i] != r.stop
      {
        assert rest[i] == p[i + 1] && rest[i + 1] == p[i + 1 + 1];
      }
      ReachingFalls(r, rank, p[1], b, rest);
    }
  }

  /** Once passed, a block is not reachable any more before the back edge. */
  lemma NoReturn(r: Region, rank: nat -> nat, p: seq<nat>, i: nat, k: nat)
    requires Plain(r, rank) && Path(r, p) && i < k < |p|
    ensures !Live(r, p[k], p[i])
  {
    RankFalls(r, rank, p, i, k);
    if Reaches(r.g, p[k], p[i], r.stop) {
      var q :| Avoiding(r.g, q, p[k], p[i], r.stop);
      ReachesAlong(r, p, 0, k);
      ReachingFalls(r, rank, p[k], p[i], q);
      assert false;
    }
  }

  /** On the way to a block, that block is live. */
  lemma LiveBefore(r: Region, p: seq<nat>, i: nat, k: nat)
    requires Path(r, p) && i <= k < |p|
    ensures Live(r, p[i], p[k])
  {
    ReachesAlong(r, p, i, k);
  }

  lemma LiveEarlier(r: Region, p: seq<nat>, i: nat, k: nat, trueBlock: nat)
    requires Path(r, p) && i <= k < |p| && Live(r, p[k], trueBlock)
    ensures Live(r, p[i], trueBlock)
  {
    if trueBlock != r.stop {
      ReachesAlong(r, p, i, k);
      ReachesChain(r, p[i], p[k], trueBlock);
    }
  }

  lemma StopIsFinal(r: Region, trueBlock: nat)
    requires trueBlock != r.stop
    ensures !Live(r, r.stop, trueBlock)
  {
    forall p
      ensures !Avoiding(r.g, p, r.stop, trueBlock, r.stop)
    {
      assert |p| > 1 && p[0] == r.stop ==> !Avoiding(r.g, p, r.stop, trueBlock, r.stop);
    }
  }

  /** A true block is still pending when a path comes to it, so that entering it breaks off
      the examination. */
  lemma VisitedIsPending(r: Region, rank: nat -> nat, j: nat, p: seq<nat>, i: nat)
    requires Layered(r, rank) && Path(r, p) && j < |r.order| && 1 <= i < |p| && p[i] == r.order[j]
    ensures Pending(r, j, p, i - 1)
  {
    forall k | 1 <= k <= i - 1
      ensures Keeps(r, j, p[k])
    {
      RankFalls(r, rank, p, k, i);
      LiveBefore(r, p, k, i);
    }
  }

  // -------------------------------------------------------------------- the placement

  /** The pending true blocks after `i` edges of `p`, of which those before `j` have also been
      examined at the next edge. */
  ghost predicate PendingSet(r: Region, p: seq<nat>, i: nat, j: nat, pending: set<nat>)
    requires 1 <= i < |p| && j <= |r.order|
  {
    forall h :: 0 <= h < |r.order| ==>
      (r.order[h] in pending <==> Pending(r, h, p, if h < j then i else i - 1))
  }

  /** The edges collected so far for each true block. */
  type Places = map<nat, set<Arc>>

  predicate Has(places: Places, trueBlock: nat, e: Arc)
  {
    trueBlock in places && e in places[trueBlock]
  }

  function Insert(places: Places, trueBlock: nat, e: Arc): (more: Places)
    ensures forall t, x :: Has(more, t, x) <==> Has(places, t, x) || (t == trueBlock && x == e)
  {
    places[trueBlock := (if trueBlock in places then places[trueBlock] else {}) + {e}]
  }

  /** `now` holds what `was` held and what edge `i` of `p` poisons for the first `n` true blocks. */
  ghost predicate EdgePlaced(r: Region, was: Places, now: Places, p: seq<nat>, i: nat, n: nat)
  {
    forall h: nat, e :: h < |r.order| ==>
      (Has(now, r.order[h], e) <==> Has(was, r.order[h], e) || (h < n && PoisonedBy(r, h, p, i, e)))
  }

  lemma {:induction false} PendingGrows(r: Region, j: nat, p: seq<nat>, i: nat)
    requires j < |r.order| && 1 <= i < |p|
    ensures Pending(r, j, p, i) <==> Pending(r, j, p, i - 1) && Keeps(r, j, p[i])
  {
  }

  /** The path enters a true block whose requests are pending: all later ones stay pending. */
  lemma {:induction false} Met(r: Region, p: seq<nat>, i: nat, j: nat, left: set<nat>, places: Places, placed: Places)
    requires Listed(r) && 1 <= i < |p| && j < |r.order| && p[i] == r.order[j] && p[i] !in r.order[..j]
    requires PendingSet(r, p, i, j, left) && EdgePlaced(r, places, placed, p, i, j)
    ensures PendingSet(r, p, i, |r.order|, left - {r.order[j]})
    ensures EdgePlaced(r, places, placed, p, i, |r.order|)
  {
    forall h: nat | j <= h < |r.order|
      ensures (Pending(r, h, p, i) <==> Pending(r, h, p, i - 1) && h != j) && !PoisonedAt(r, h, p, i)
    {
      PendingGrows(r, h, p, i);
    }
  }

  /** A true block that can no longer be reached: the edge is poisoned. */
  lemma {:induction false} LeftBehind(r: Region, p: seq<nat>, i: nat, j: nat, left: set<nat>, places: Places, placed: Places)
    requires Listed(r) && 1 <= i < |p| && j < |r.order| && p[i] !in r.order[..j + 1] && r.order[j] in left
    requires PendingSet(r, p, i, j, left) && EdgePlaced(r, places, placed, p, i, j) && !Live(r, p[i], r.order[j])
    ensures PendingSet(r, p, i, j + 1, left - {r.order[j]})
    ensures EdgePlaced(r, places, Insert(placed, r.order[j], (p[i - 1], p[i])), p, i, j + 1)
  {
    PendingGrows(r, j, p, i);
    assert p[i] != r.order[j];
    assert PoisonedAt(r, j, p, i);
  }

  lemma {:induction false} StillAhead(r: Region, p: seq<nat>, i: nat, j: nat, left: set<nat>, places: Places, placed: Places)
    requires Listed(r) && 1 <= i < |p| && j < |r.order| && p[i] != r.order[j]
    requires PendingSet(r, p, i, j, left) && EdgePlaced(r, places, placed, p, i, j) && Live(r, p[i], r.order[j])
    ensures PendingSet(r, p, i, j + 1, left)
    ensures EdgePlaced(r, places, placed, p, i, j + 1)
  {
    PendingGrows(r, j, p, i);
    assert Keeps(r, j, p[i]);
  }

  /** One edge of one path: examine the pending true blocks in order. */
  method ExamineEdge(r: Region, ghost rank: nat -> nat, p: seq<nat>, i: nat, pending: set<nat>, places: Places)
    returns (left: set<nat>, placed: Places)
    requires Layered(r, rank) && Listed(r) && Path(r, p) && 1 <= i < |p| && p[i] in r.g.succ
    requires PendingSet(r, p, i, 0, pending)
    ensures PendingSet(r, p, i, |r.order|, left)
    ensures EdgePlaced(r, places, placed, p, i, |r.order|)
  {
    left, placed := pending, places;
    for j := 0 to |r.order|
      invariant p[i] !in r.order[..j]
      invariant PendingSet(r, p, i, j, left)
      invariant EdgePlaced(r, places, placed, p, i, j)
    {
      var trueBlock := r.order[j];
      if trueBlock in left {
        if p[i] == trueBlock {
          Met(r, p, i, j, left, places, placed);
          left := left - {trueBlock};
          break;
        }
        var reachable := IsReachableWithinLoop(r.g, p[i], trueBlock, r.stop);
        if !reachable {
          LeftBehind(r, p, i, j, left, places, placed);
          placed := Insert(placed, trueBlock, (p[i - 1], p[i]));
          left := left - {trueBlock};
        } else {
          StillAhead(r, p, i, j, left, places, placed);
        }
      } else {
        if p[i] == trueBlock {
          VisitedIsPending(r, rank, j, p, i);
        }
        Settled(r, p, i, j, left, places, placed);
      }
    }
  }

  lemma Settled(r: Region, p: seq<nat>, i: nat, j: nat, left: set<nat>, places: Places, placed: Places)
    requires Listed(r) && 1 <= i < |p| && j < |r.order| && r.order[j] !in left
    requires PendingSet(r, p, i, j, left) && EdgePlaced(r, places, placed, p, i, j)
    ensures PendingSet(r, p, i, j + 1, left)
    ensures EdgePlaced(r, places, placed, p, i, j + 1)
  {
    assert !Pending(r, j, p, i - 1) && !Pending(r, j, p, i);
  }

  ghost predicate PoisonedOn(r: Region, h: nat, p: seq<nat>, n: nat, e: Arc)
    requires h < |r.order|
  {
    exists i: nat :: i <= n && PoisonedBy(r, h, p, i, e)
  }

  /** `now` holds what `was` held and what the first `n` edges of `p` poison. */
  ghost predicate PathPlaced(r: Region, was: Places, now: Places, p: seq<nat>, n: nat)
  {
    forall h: nat, e :: h < |r.order| ==>
      (Has(now, r.order[h], e) <==> Has(was, r.order[h], e) || PoisonedOn(r, h, p, n, e))
  }

  lemma {:induction false} PathStaysInGraph(r: Region, p: seq<nat>, i: nat)
    requires Closed(r.g) && r.start in r.g.succ && Path(r, p) && i < |p|
    ensures p[i] in r.g.succ
  {
    if i > 0 {
      PathStaysInGraph(r, p, i - 1);
      assert Edge(r.g, p[i - 1], p[i - 1 + 1]);
    }
  }

  /** One path: all requests are pending at first, and its edges are examined in turn. */
  method ExaminePath(r: Region, ghost rank: nat -> nat, p: seq<nat>, places: Places) returns (placed: Places)
    requires Layered(r, rank) && Listed(r) && Path(r, p)
    ensures PathPlaced(r, places, placed, p, |p|)
  {
    placed := places;
    var pending := set b | b in r.order;
    for i := 1 to |p|
      invariant PendingBefore(r, p, i, pending)
      invariant PathPlaced(r, places, placed, p, i - 1)
    {
      PathStaysInGraph(r, p, i);
      ghost var was := placed;
      pending, placed := ExamineEdge(r, rank, p, i, pending, placed);
    }
    assert forall h: nat, e :: h < |r.order| ==> (PoisonedOn(r, h, p, |p| - 1, e) <==> PoisonedOn(r, h, p, |p|, e));
  }

  ghost predicate PendingBefore(r: Region, p: seq<nat>, i: nat, pending: set<nat>)
    requires 1 <= i <= |p|
  {
    forall h :: 0 <= h < |r.order| ==> (r.order[h] in pending <==> Pending(r, h, p, i - 1))
  }

  ghost predicate PoisonedByPaths(r: Region, h: nat, paths: seq<seq<nat>>, n: nat, e: Arc)
    requires h < |r.order| && n <= |paths|
  {
    exists m: nat :: m < n && PoisonedOn(r, h, paths[m], |paths[m]|, e)
  }

  /** The placement for one speculation block: the union over all paths to the latch. */
  method CalculatePoisonBlocks(r: Region, ghost rank: nat -> nat) returns (places: Places)
    requires Layered(r, rank) && Listed(r)
    ensures forall h: nat, e :: h < |r.order| ==> (Has(places, r.order[h], e) <==> PoisonEdge(r, h, e))
  {
    var paths := AllBlockPaths(r.g, r.start, r.stop, rank);
    places := map[];
    for n := 0 to |paths|
      invariant forall h: nat, e :: h < |r.order| ==>
        (Has(places, r.order[h], e) <==> PoisonedByPaths(r, h, paths, n, e))
    {
      assert paths[n] in paths;
      ghost var was := places;
      places := ExaminePath(r, rank, paths[n], places);
      forall h: nat, e | h < |r.order|
        ensures PoisonedByPaths(r, h, paths, n + 1, e) <==>
          PoisonedByPaths(r, h, paths, n, e) || PoisonedOn(r, h, paths[n], |paths[n]|, e)
      {
      }
    }
    forall h: nat, e | h < |r.order|
      ensures PoisonedByPaths(r, h, paths, |paths|, e) <==> PoisonEdge(r, h, e)
    {
    }
  }

  // -------------------------------------------------------------------- exactly once

  /** Step `i` of `p` settles the requests of true block `j`: it enters the block or crosses a
      poisoned edge. */
  ghost predicate Settles(r: Region, j: nat, p: seq<nat>, i: nat)
    requires j < |r.order|
  {
    1 <= i < |p| && (p[i] == r.order[j] || PoisonEdge(r, j, (p[i - 1], p[i])))
  }

  ghost predicate SettledAt(r: Region, j: nat, p: seq<nat>, i: nat)
    requires j < |r.order|
  {
    Settles(r, j, p, i) && forall k: nat :: Settles(r, j, p, k) ==> k == i
  }

  /** Every path to the latch settles the requests of true block `j` exactly once. */
  ghost predicate ExactlyOnce(r: Region, j: nat)
    requires j < |r.order|
  {
    forall p :: Path(r, p) ==> exists i: nat :: SettledAt(r, j, p, i)
  }

  ghost predicate EntersPending(r: Region, j: nat, p: seq<nat>, i: nat, u: nat)
    requires j < |r.order|
  {
    Path(r, p) && 1 <= i < |p| && p[i] == u && Pending(r, j, p, i)
  }

  ghost predicate EntersSettled(r: Region, j: nat, p: seq<nat>, i: nat, u: nat)
    requires j < |r.order|
  {
    Path(r, p) && 1 <= i < |p| && p[i] == u && !Pending(r, j, p, i)
  }

  ghost predicate PendingSomewhere(r: Region, j: nat, u: nat)
    requires j < |r.order|
  {
    exists p, i: nat :: EntersPending(r, j, p, i, u)
  }

  ghost predicate SettledSomewhere(r: Region, j: nat, u: nat)
    requires j < |r.order|
  {
    exists p, i: nat :: EntersSettled(r, j, p, i, u)
  }

  /** No block is entered with the requests pending on one path and settled on another, and
      the latch is not entered with them pending. */
  ghost predicate Unmixed(r: Region, j: nat)
    requires j < |r.order|
  {
    forall u :: PendingSomewhere(r, j, u) ==> u != r.stop && !SettledSomewhere(r, j, u)
  }

  /** A poisoned edge starts at the speculation block or at a block entered pending. */
  lemma PoisonSource(r: Region, rank: nat -> nat, j: nat, p: seq<nat>, m: nat)
    requires Layered(r, rank) && j < |r.order| && Path(r, p) && 1 < m < |p|
    requires PoisonEdge(r, j, (p[m - 1], p[m]))
    ensures PendingSomewhere(r, j, p[m - 1])
  {
    var q, i: nat :| Path(r, q) && PoisonedBy(r, j, q, i, (p[m - 1], p[m]));
    RankFalls(r, rank, p, 0, m - 1);
    assert i - 1 > 0;
    assert EntersPending(r, j, q, i - 1, p[m - 1]);
  }

  /** Behind a settled point no poisoned edge follows. */
  lemma NoPoisonBehind(r: Region, rank: nat -> nat, j: nat, p: seq<nat>, k: nat, m: nat)
    requires Layered(r, rank) && j < |r.order| && Unmixed(r, j) && Path(r, p) && 1 <= k < m < |p|
    requires !Keeps(r, j, p[k])
    ensures !PoisonEdge(r, j, (p[m - 1], p[m]))
  {
    if PoisonEdge(r, j, (p[m - 1], p[m])) {
      PoisonSource(r, rank, j, p, m);
      assert EntersSettled(r, j, p, m - 1, p[m - 1]);
      assert false;
    }
  }

  /** On a path that visits the true block, nothing else settles its requests. */
  lemma VisitSettlesOnce(r: Region, rank: nat -> nat, j: nat, p: seq<nat>, k: nat)
    requires Layered(r, rank) && j < |r.order| && Unmixed(r, j) && Path(r, p)
    requires 1 <= k < |p| && p[k] == r.order[j]
    ensures SettledAt(r, j, p, k)
  {
    forall m: nat | m != k
      ensures !Settles(r, j, p, m)
    {
      if 1 <= m < k {
        LiveBefore(r, p, m, k);
        RankFalls(r, rank, p, m, k);
      } else if k < m < |p| {
        RankFalls(r, rank, p, k, m);
        NoPoisonBehind(r, rank, j, p, k, m);
      }
    }
  }

  /** On a path that does not visit the true block, the first block that gives up the
      requests is reached by the only poisoned edge. */
  lemma PoisonSettlesOnce(r: Region, rank: nat -> nat, j: nat, p: seq<nat>, k: nat)
    requires Layered(r, rank) && j < |r.order| && Unmixed(r, j) && Path(r, p)
    requires PoisonedAt(r, j, p, k) && forall h :: 1 <= h < |p| ==> p[h] != r.order[j]
    ensures SettledAt(r, j, p, k)
  {
    assert PoisonedBy(r, j, p, k, (p[k - 1], p[k]));
    assert PoisonEdge(r, j, (p[k - 1], p[k]));
    forall m: nat | m != k
      ensures !Settles(r, j, p, m)
    {
      if 1 <= m < k {
        assert Keeps(r, j, p[m]);
      } else if k < m < |p| {
        NoPoisonBehind(r, rank, j, p, k, m);
      }
    }
  }

  lemma {:induction false} FirstGivenUp(r: Region, j: nat, p: seq<nat>, n: nat) returns (k: nat)
    requires j < |r.order| && n < |p| && !Pending(r, j, p, n)
    ensures 1 <= k <= n && Pending(r, j, p, k - 1) && !Keeps(r, j, p[k])
  {
    if Pending(r, j, p, n - 1) {
      k := n;
    } else {
      k := FirstGivenUp(r, j, p, n - 1);
    }
  }

  /** A path that stays pending to its end ends in a latch that is an earlier true block. */
  lemma PendingToTheEnd(r: Region, j: nat, p: seq<nat>)
    requires Listed(r) && j < |r.order| && Path(r, p) && |p| > 1 && Pending(r, j, p, |p| - 1)
    ensures r.stop in r.order[..j] && PendingSomewhere(r, j, r.stop)
  {
    assert Keeps(r, j, p[|p| - 1]);
    StopIsFinal(r, r.order[j]);
    assert EntersPending(r, j, p, |p| - 1, r.stop);
  }

  lemma UnmixedSettlesOnce(r: Region, rank: nat -> nat, j: nat)
    requires Layered(r, rank) && Listed(r) && j < |r.order| && Unmixed(r, j) && r.start != r.stop
    ensures ExactlyOnce(r, j)
  {
    forall p | Path(r, p)
      ensures exists i: nat :: SettledAt(r, j, p, i)
    {
      if k :| 1 <= k < |p| && p[k] == r.order[j] {
        VisitSettlesOnce(r, rank, j, p, k);
      } else {
        if Pending(r, j, p, |p| - 1) {
          PendingToTheEnd(r, j, p);
        }
        var k := FirstGivenUp(r, j, p, |p| - 1);
        PoisonSettlesOnce(r, rank, j, p, k);
      }
    }
  }

  // ---------------------------------------------------------- and the other direction

  /** Going along one path to a block and along another from there. */
  lemma Spliced(r: Region, p: seq<nat>, i: nat, q: seq<nat>, k: nat)
    requires Path(r, p) && Path(r, q) && i < |p| && k < |q| && p[i] == q[k] && (k < |q| - 1 || i == |p| - 1)
    ensures Path(r, p[..i] + q[k..])
  {
    var w := p[..i] + q[k..];
    forall h | 0 <= h < |w| - 1
      ensures Edge(r.g, w[h], w[h + 1]) && w[h] != r.stop
    {
      if h < i {
        assert w[h] == p[h] && w[h + 1] == p[h + 1];
      } else {
        assert w[h] == q[h - i + k] && w[h + 1] == q[h - i + k + 1];
      }
    }
  }

  /** The first block of `p` that gives the requests up settles them on every path with that
      beginning. */
  lemma GivenUpSettles(r: Region, j: nat, p: seq<nat>, k: nat)
    requires j < |r.order| && Path(r, p) && 1 <= k < |p| && Pending(r, j, p, k - 1) && !Keeps(r, j, p[k])
    ensures Settles(r, j, p, k)
  {
    if p[k] != r.order[j] {
      assert PoisonedBy(r, j, p, k, (p[k - 1], p[k]));
    }
  }

  /** A block entered pending on `q` and settled on `p`: the path that enters it along `p` and
      leaves it along `q` settles the requests twice. */
  lemma MixedSettlesTwice(r: Region, rank: nat -> nat, j: nat, p: seq<nat>, i: nat, q: seq<nat>, k: nat, u: nat)
    requires Layered(r, rank) && j < |r.order| && u != r.stop
    requires EntersSettled(r, j, p, i, u) && EntersPending(r, j, q, k, u)
    ensures !ExactlyOnce(r, j)
  {
    var first := FirstGivenUp(r, j, p, i);
    if n: nat :| SettledAt(r, j, q, n) {
      var w := p[..i] + q[k..];
      Spliced(r, p, i, q, k);
      forall h | 0 <= h <= first
        ensures w[h] == p[h]
      {
      }
      assert Pending(r, j, w, first - 1);
      GivenUpSettles(r, j, w, first);
      SpliceSettles(r, j, p, i, q, k, n);
      assert forall only: nat :: !SettledAt(r, j, w, only);
    }
  }

  lemma SpliceSettles(r: Region, j: nat, p: seq<nat>, i: nat, q: seq<nat>, k: nat, n: nat)
    requires j < |r.order| && i < |p| && k < n < |q| && p[i] == q[k] && Settles(r, j, q, n)
    ensures Settles(r, j, p[..i] + q[k..], n - k + i) && n - k + i > i
  {
    var w := p[..i] + q[k..];
    assert w[n - k + i] == q[n] && w[n - k + i - 1] == q[n - 1];
  }

  /** The exact condition, for every graph on which the paths can be enumerated: every path
      from the speculation block to the latch settles each request exactly once if and only if
      the speculation block is not the latch itself, no block is entered both pending and
      settled, and the latch is never entered pending. */
  lemma ExactlyOnceIffUnmixed(r: Region, rank: nat -> nat, j: nat)
    requires Layered(r, rank) && Listed(r) && j < |r.order|
    ensures ExactlyOnce(r, j) <==> r.start != r.stop && Unmixed(r, j)
  {
    if r.start == r.stop {
      assert Path(r, [r.start]);
      assert forall i: nat :: !Settles(r, j, [r.start], i);
    } else if Unmixed(r, j) {
      UnmixedSettlesOnce(r, rank, j);
    } else {
      var u :| PendingSomewhere(r, j, u) && (u == r.stop || SettledSomewhere(r, j, u));
      var q, k: nat :| EntersPending(r, j, q, k, u);
      if u == r.stop {
        assert k == |q| - 1;
        forall n: nat
          ensures !Settles(r, j, q, n)
        {
        }
      } else {
        var p, i: nat :| EntersSettled(r, j, p, i, u);
        MixedSettlesTwice(r, rank, j, p, i, q, k, u);
      }
    }
  }

  /** In a body without inner loops and without a way into an outer one, only a true block
      examined earlier, from which the true block cannot be reached any more, is entered both
      pending and settled or is a latch entered pending. */
  lemma PlainMixesOnlyEarlier(r: Region, rank: nat -> nat, j: nat, u: nat)
    requires Plain(r, rank) && Listed(r) && j < |r.order| && PendingSomewhere(r, j, u)
    requires u == r.stop || SettledSomewhere(r, j, u)
    ensures u in r.order[..j] && !Live(r, u, r.order[j])
  {
    if u == r.stop {
      StopIsFinal(r, r.order[j]);
    } else {
      var p, i: nat :| EntersSettled(r, j, p, i, u);
      var k := FirstGivenUp(r, j, p, i);
      if p[k] == r.order[j] {
        NoReturn(r, rank, p, k, i);
      } else if Live(r, u, r.order[j]) {
        LiveEarlier(r, p, k, i, r.order[j]);
      }
    }
  }

  ghost predicate UnmixedEarlier(r: Region, j: nat)
    requires j < |r.order|
  {
    forall u :: u in r.order[..j] && PendingSomewhere(r, j, u) ==> u != r.stop && !SettledSomewhere(r, j, u)
  }

  /** There the exact condition speaks of earlier true blocks only. */
  lemma ExactlyOnceInPlainBody(r: Region, rank: nat -> nat, j: nat)
    requires Plain(r, rank) && Listed(r) && j < |r.order|
    ensures ExactlyOnce(r, j) <==> r.start != r.stop && UnmixedEarlier(r, j)
  {
    ExactlyOnceIffUnmixed(r, rank, j);
    forall u | PendingSomewhere(r, j, u) && (u == r.stop || SettledSomewhere(r, j, u))
      ensures u in r.order[..j]
    {
      PlainMixesOnlyEarlier(r, rank, j, u);
    }
  }

  /** One true block in such a body: always exactly once. */
  lemma OneTrueBlock(r: Region, rank: nat -> nat)
    requires Plain(r, rank) && Listed(r) && |r.order| == 1
    ensures ExactlyOnce(r, 0) <==> r.start != r.stop
  {
    ExactlyOnceInPlainBody(r, rank, 0);
  }

  /** Several true blocks: exactly once if each is reachable from those examined before it. */
  lemma ProgramOrderIsSafe(r: Region, rank: nat -> nat, j: nat)
    requires Plain(r, rank) && Listed(r) && j < |r.order|
    requires forall i :: 0 <= i < j ==> Live(r, r.order[i], r.order[j])
    ensures ExactlyOnce(r, j) <==> r.start != r.stop
  {
    ExactlyOnceIffUnmixed(r, rank, j);
    forall u | PendingSomewhere(r, j, u)
      ensures u != r.stop && !SettledSomewhere(r, j, u)
    {
      if u == r.stop || SettledSomewhere(r, j, u) {
        PlainMixesOnlyEarlier(r, rank, j, u);
        assert false;
      }
    }
  }

  ghost predicate Visits(r: Region, j: nat, p: seq<nat>)
    requires j < |r.order|
  {
    exists h :: 1 <= h < |p| && p[h] == r.order[j]
  }

  /** What one path does by itself: it poisons none of its own edges if it visits the true
      block or stays pending to its end, and else exactly one; and it stays pending only if it
      has no edge or ends in a latch examined earlier. */
  lemma PathLocal(r: Region, rank: nat -> nat, j: nat, p: seq<nat>)
    requires Layered(r, rank) && Listed(r) && j < |r.order| && Path(r, p)
    ensures Visits(r, j, p) || Pending(r, j, p, |p| - 1) ==> forall m: nat :: !PoisonedAt(r, j, p, m)
    ensures !Visits(r, j, p) && !Pending(r, j, p, |p| - 1) ==>
      exists k: nat :: PoisonedAt(r, j, p, k) && forall m: nat :: PoisonedAt(r, j, p, m) ==> m == k
    ensures Pending(r, j, p, |p| - 1) ==> r.start == r.stop || r.stop in r.order[..j]
  {
    if Pending(r, j, p, |p| - 1) {
      if |p| > 1 {
        PendingToTheEnd(r, j, p);
      }
    } else {
      var k := FirstGivenUp(r, j, p, |p| - 1);
      if h :| 1 <= h < |p| && p[h] == r.order[j] {
        VisitedIsPending(r, rank, j, p, h);
        assert k == h;
      } else {
        assert PoisonedAt(r, j, p, k);
      }
    }
  }

  // --------------------------------------------------------------- places where it fails

  /** Blocks 3 and 4 are true blocks, the latch is 5; block 3 is examined first. */
  const FORK := Region(Graph(map[0 := [1, 2], 1 := [3, 4], 2 := [3], 3 := [5], 4 := [5], 5 := []], {}), 0, 5, [3, 4])

  /** Entering block 3 breaks off the examination of the requests of block 4.  They stay
      pending on 0-1-3 and are poisoned behind 3; on 0-2-3 they are poisoned at (0, 2), and
      then again behind 3. */
  lemma ForkPoisonsTwice()
    ensures Path(FORK, [0, 2, 3, 5])
    ensures PoisonEdge(FORK, 1, (0, 2)) && PoisonEdge(FORK, 1, (3, 5))
    ensures !ExactlyOnce(FORK, 1)
  {
    var early, late := [0, 2, 3, 5], [0, 1, 3, 5];
    assert Path(FORK, early) && Path(FORK, late);
    ForkReach();
    assert PoisonedBy(FORK, 1, early, 1, (0, 2));
    assert FORK.order[..1] == [3];
    assert Keeps(FORK, 1, late[1]) && Keeps(FORK, 1, late[2]);
    assert PoisonedBy(FORK, 1, late, 3, (3, 5));
    assert Settles(FORK, 1, early, 1) && Settles(FORK, 1, early, 3);
    assert forall i: nat :: !SettledAt(FORK, 1, early, i);
  }

  lemma ForkIsPlain()
    ensures Plain(FORK, b => if b <= 5 then 5 - b else 0) && Listed(FORK)
  {
  }

  lemma ForkReach()
    ensures Live(FORK, 1, 4) && !Live(FORK, 2, 4) && !Live(FORK, 3, 4) && !Live(FORK, 5, 4)
  {
    assert Avoiding(FORK.g, [1, 4], 1, 4, 5);
    forall v, p | v in {2, 3, 5}
      ensures !Avoiding(FORK.g, p, v, 4, 5)
    {
      if Avoiding(FORK.g, p, v, 4, 5) {
        StaysInside(FORK.g, {2, 3, 5}, p, v, 4, 5);
      }
    }
  }

  /** A loop with header 0 and latch 4 inside a loop with header 9: block 1 speculates the
      request of block 2, and block 3 may leave the inner loop by way of 5. */
  const NEST := Region(
    Graph(map[0 := [1], 1 := [2, 3], 2 := [3], 3 := [4, 5], 4 := [0], 5 := [9], 9 := [0, 8], 8 := []], {0, 9}),
    1, 4, [2])

  function NestRank(b: nat): nat
  {
    if b == 0 then 5 else if b == 1 then 4 else if b == 2 then 3 else if b == 3 then 2 else if b == 8 then 0 else 1
  }

  lemma NestIsLayered()
    ensures Layered(NEST, NestRank) && Listed(NEST)
  {
  }

  /** The search for block 2 leaves the loop at block 3 and comes back through both headers, so
      that the edge (1, 3) is not poisoned but (3, 4) is; the path through block 2 crosses it
      too. */
  lemma NestExecutesAndPoisons()
    ensures Path(NEST, [1, 2, 3, 4]) && PoisonEdge(NEST, 0, (3, 4))
    ensures !ExactlyOnce(NEST, 0)
  {
    var direct, visiting := [1, 3, 4], [1, 2, 3, 4];
    assert Path(NEST, direct) && Path(NEST, visiting);
    NestReach();
    assert Keeps(NEST, 0, direct[1]);
    StopIsFinal(NEST, 2);
    assert PoisonedBy(NEST, 0, direct, 2, (3, 4));
    assert Settles(NEST, 0, visiting, 1) && Settles(NEST, 0, visiting, 3);
    assert forall i: nat :: !SettledAt(NEST, 0, visiting, i);
  }

  lemma NestReach()
    ensures Live(NEST, 3, 2)
  {
    assert Avoiding(NEST.g, [3, 5, 9, 0, 1, 2], 3, 2, 4);
  }
}
