/**
 When no sum of the shortest-path kernel wraps around, as a condition on the costs and the
 start node.  It speaks of true distances: nodes are taken in the order of their distance,
 and among equally distant nodes that an edge from an earlier node reaches at that distance
 the one with the least number comes first.  With positive costs that is the order by
 distance and then by number, and the condition is one on pairs of nodes.
 */
module DijkstraOrder {
  import opened Walks
  import opened Dijkstra

  // ------------------------------------------------------------------------ the condition

  ghost predicate Right(cost: seq<int>, n: nat, start: nat, d: seq<int>, i: nat)
  {
    i < |d| && IsDistance(cost, n, start, i, d[i])
  }

  ghost predicate Distances(cost: seq<int>, n: nat, start: nat, d: seq<int>)
  {
    |d| == n && forall i: nat {:trigger Right(cost, n, start, d, i)} :: i < n ==> Right(cost, n, start, d, i)
  }

  ghost predicate Outside(n: nat, o: seq<nat>, x: nat)
  {
    x < n && x !in o
  }

  /** An edge from a node of `o` leads to `x` at its distance. */
  ghost predicate Tight(cost: seq<int>, n: nat, d: seq<int>, o: seq<nat>, x: nat)
  {
    x < |d| && exists v :: v in o && v < |d| && d[v] + Cell(cost, n, v, x) == d[x]
  }

  /** `u` comes after the nodes of `o`. */
  ghost predicate NextNode(cost: seq<int>, n: nat, d: seq<int>, o: seq<nat>, u: nat)
    requires |d| == n
  {
    && u < n && u !in o && d[u] < INT_MAX && Tight(cost, n, d, o, u)
    && forall x: nat {:trigger Outside(n, o, x)} :: Outside(n, o, x) ==> d[u] <= d[x] && (d[x] == d[u] && Tight(cost, n, d, o, x) ==> u <= x)
  }

  ghost predicate InOrder(cost: seq<int>, n: nat, start: nat, d: seq<int>, o: seq<nat>)
    requires |d| == n
  {
    o != [] && o[0] == start && forall k: nat {:trigger NextAt(cost, n, d, o, k)} :: 1 <= k < |o| ==> NextAt(cost, n, d, o, k)
  }

  ghost predicate NextAt(cost: seq<int>, n: nat, d: seq<int>, o: seq<nat>, k: nat)
    requires |d| == n && k < |o|
  {
    NextNode(cost, n, d, o[..k], o[k])
  }

  /** All nodes but one, or all below the greatest number. */
  ghost predicate ReachesAll(n: nat, d: seq<int>, o: seq<nat>)
    requires |d| == n
  {
    |o| + 1 >= n || ReachesFar(n, d, o)
  }

  /** From each node but the first, the edges to all later nodes can be added to its distance. */
  ghost predicate EdgesFit(cost: seq<int>, n: nat, d: seq<int>, o: seq<nat>)
    requires |d| == n
  {
    forall k: nat {:trigger EdgesAt(cost, n, d, o, k)} :: 1 <= k < |o| ==> EdgesAt(cost, n, d, o, k)
  }

  ghost predicate EdgesAt(cost: seq<int>, n: nat, d: seq<int>, o: seq<nat>, k: nat)
    requires |d| == n && k < |o|
  {
    o[k] < n ==> EdgesFitFrom(cost, n, d, o[..k + 1], o[k])
  }

  ghost predicate EdgesFitFrom(cost: seq<int>, n: nat, d: seq<int>, o: seq<nat>, u: nat)
    requires |d| == n && u < n
  {
    forall i: nat {:trigger Outside(n, o, i)} :: Outside(n, o, i) ==> d[u] + Cell(cost, n, u, i) <= INT_MAX
  }

  /** If the search finds nothing any more while two nodes or more are open, it goes on from
      node 0 with the greatest number. */
  ghost predicate ExhaustedFits(cost: seq<int>, n: nat, o: seq<nat>)
  {
    |o| + 1 < n ==> ZeroEdges(cost, n, o)
  }

  ghost predicate FitsAlong(cost: seq<int>, n: nat, start: nat, d: seq<int>, o: seq<nat>)
  {
    && Distances(cost, n, start, d) && InOrder(cost, n, start, d, o) && |o| <= (if n < 2 then 1 else n - 1)
    && ReachesAll(n, d, o) && EdgesFit(cost, n, d, o) && ExhaustedFits(cost, n, o)
  }

  ghost predicate Fits(cost: seq<int>, n: nat, start: nat)
  {
    exists d, o :: FitsAlong(cost, n, start, d, o)
  }

  // ------------------------------------------------------- what a state knows of distances

  ghost predicate VisitedAre(s: State, n: nat, o: seq<nat>)
    requires Shaped(s, n)
  {
    forall x: nat :: x < n ==> (s.visited[x] <==> x in o)
  }

  lemma VisitedAreRight(s: State, cost: seq<int>, n: nat, start: nat, d: seq<int>, v: nat)
    requires Invariant(s, cost, n, start) && Distances(cost, n, start, d) && v < n && s.visited[v]
    ensures s.distance[v] == d[v]
  {
    assert Right(cost, n, start, d, v) && SettledAt(s, cost, n, start, v);
    SameDistance(cost, n, start, v, s.distance[v], d[v]);
  }

  lemma SameDistance(cost: seq<int>, n: nat, a: nat, b: nat, x: int, y: int)
    requires IsDistance(cost, n, a, b, x) && IsDistance(cost, n, a, b, y)
    ensures x == y
  {
    var p :| Walk(n, p, a, b) && Weight(cost, n, p) == x;
    var q :| Walk(n, q, a, b) && Weight(cost, n, q) == y;
  }

  /** No entry is below the distance, and one that an edge from a visited node reaches at its
      distance is right. */
  lemma OpenAreAbove(s: State, cost: seq<int>, n: nat, start: nat, d: seq<int>, x: nat)
    requires Invariant(s, cost, n, start) && Distances(cost, n, start, d) && x < n
    ensures d[x] <= s.distance[x]
  {
    assert ValueAt(s, cost, n, start, x);
    var w :| Walk(n, w, start, x) && Weight(cost, n, w) == s.distance[x];
    assert Right(cost, n, start, d, x);
  }

  lemma TightIsRight(s: State, cost: seq<int>, n: nat, start: nat, d: seq<int>, o: seq<nat>, x: nat)
    requires Invariant(s, cost, n, start) && Distances(cost, n, start, d) && VisitedAre(s, n, o)
    requires x < n && !s.visited[x] && Tight(cost, n, d, o, x)
    ensures s.distance[x] == d[x]
  {
    var v :| v in o && v < |d| && d[v] + Cell(cost, n, v, x) == d[x];
    VisitedAreRight(s, cost, n, start, d, v);
    OpenAreAbove(s, cost, n, start, d, x);
  }

  lemma RightIsTight(s: State, cost: seq<int>, n: nat, start: nat, d: seq<int>, o: seq<nat>, x: nat)
    requires Invariant(s, cost, n, start) && Distances(cost, n, start, d) && VisitedAre(s, n, o)
    requires x < n && !s.visited[x] && s.distance[x] == d[x]
    ensures Tight(cost, n, d, o, x)
  {
    var v := s.pred[x];
    assert TreeEdge(s, cost, n, x);
    VisitedAreRight(s, cost, n, start, d, v);
    assert v in o;
  }

  /** No open node is nearer than the one the search returns. */
  lemma OpenAreFarther(s: State, cost: seq<int>, n: nat, start: nat, d: seq<int>, x: nat)
    requires Costs(cost, n) && Invariant(s, cost, n, start) && Distances(cost, n, start, d)
    requires x < n && !s.visited[x]
    ensures Nearest(s, n).0 <= d[x]
  {
    assert Right(cost, n, start, d, x);
    var w :| Walk(n, w, start, x) && Weight(cost, n, w) == d[x];
    var h := FirstOpen(s, n, w, start, x);
    WalkOverFrontier(s, cost, n, start, x, w, h);
    NearestIsLeast(s, cost, n, start);
  }

  /** The search returns the node that comes next. */
  lemma NextIsNearest(s: State, cost: seq<int>, n: nat, start: nat, d: seq<int>, o: seq<nat>, u: nat)
    requires Costs(cost, n) && Invariant(s, cost, n, start) && Distances(cost, n, start, d) && VisitedAre(s, n, o)
    requires NextNode(cost, n, d, o, u)
    ensures Nearest(s, n) == (d[u], u)
  {
    NearestIsNode(s, n, n);
    assert Outside(n, o, u);
    TightIsRight(s, cost, n, start, d, o, u);
    var (m, w) := Nearest(s, n);
    assert Outside(n, o, w);
    OpenAreFarther(s, cost, n, start, d, u);
    OpenAreAbove(s, cost, n, start, d, w);
    assert d[u] <= d[w] <= m <= d[u];
    RightIsTight(s, cost, n, start, d, o, w);
  }

  lemma NearestIsFirst(s: State, cost: seq<int>, n: nat, start: nat, d: seq<int>, o: seq<nat>, x: nat)
    requires Costs(cost, n) && Invariant(s, cost, n, start) && Distances(cost, n, start, d) && VisitedAre(s, n, o)
    requires Outside(n, o, x)
    ensures Nearest(s, n).0 <= d[x]
    ensures d[x] == Nearest(s, n).0 < INT_MAX && Tight(cost, n, d, o, x) ==> Nearest(s, n).1 <= x
  {
    OpenAreFarther(s, cost, n, start, d, x);
    NearestIsNode(s, n, n);
    if Tight(cost, n, d, o, x) {
      TightIsRight(s, cost, n, start, d, o, x);
    }
  }

  /** The node the search returns has its distance already. */
  lemma NearestIsRight(s: State, cost: seq<int>, n: nat, start: nat, d: seq<int>, o: seq<nat>)
    requires Costs(cost, n) && Invariant(s, cost, n, start) && Distances(cost, n, start, d) && VisitedAre(s, n, o)
    requires !Exhausted(s, n)
    ensures Nearest(s, n).0 < INT_MAX && Outside(n, o, Nearest(s, n).1)
    ensures d[Nearest(s, n).1] == Nearest(s, n).0 && Tight(cost, n, d, o, Nearest(s, n).1)
  {
    EntriesInRange(s, cost, n, start);
    NearestIsNode(s, n, n);
    var u := Nearest(s, n).1;
    OpenAreFarther(s, cost, n, start, d, u);
    OpenAreAbove(s, cost, n, start, d, u);
    RightIsTight(s, cost, n, start, d, o, u);
  }

  lemma NearestIsNext(s: State, cost: seq<int>, n: nat, start: nat, d: seq<int>, o: seq<nat>)
    requires Costs(cost, n) && Invariant(s, cost, n, start) && Distances(cost, n, start, d) && VisitedAre(s, n, o)
    requires !Exhausted(s, n)
    ensures NextNode(cost, n, d, o, Nearest(s, n).1) && Nearest(s, n).0 == d[Nearest(s, n).1]
  {
    NearestIsRight(s, cost, n, start, d, o);
    var u := Nearest(s, n).1;
    forall x: nat {:trigger Outside(n, o, x)} | Outside(n, o, x)
      ensures d[u] <= d[x] && (d[x] == d[u] && Tight(cost, n, d, o, x) ==> u <= x)
    {
      NearestIsFirst(s, cost, n, start, d, o, x);
    }
  }

  lemma ExhaustedAreFar(s: State, cost: seq<int>, n: nat, start: nat, d: seq<int>, x: nat)
    requires Costs(cost, n) && Invariant(s, cost, n, start) && Distances(cost, n, start, d)
    requires Exhausted(s, n) && x < n && !s.visited[x]
    ensures d[x] == INT_MAX
  {
    assert Right(cost, n, start, d, x);
    NearestIsSettled(s, cost, n, start, x);
    SameDistance(cost, n, start, x, s.distance[x], d[x]);
  }

  /** With every open node at the greatest number, the search is exhausted. */
  lemma FarAreExhausted(s: State, cost: seq<int>, n: nat, start: nat, d: seq<int>, o: seq<nat>)
    requires Invariant(s, cost, n, start) && Distances(cost, n, start, d) && VisitedAre(s, n, o)
    requires ReachesFar(n, d, o)
    ensures Exhausted(s, n)
  {
    forall x: nat | x < n && !s.visited[x]
      ensures s.distance[x] == INT_MAX
    {
      assert Outside(n, o, x);
      OpenAreAbove(s, cost, n, start, d, x);
      EntriesInRange(s, cost, n, start);
    }
  }

  /** An exhausted search returns the greatest number and node 0. */
  lemma ExhaustedNearest(s: State, cost: seq<int>, n: nat, start: nat)
    requires Invariant(s, cost, n, start) && Exhausted(s, n)
    ensures Nearest(s, n) == (INT_MAX, 0)
  {
    NearestIsNode(s, n, n);
  }

  // ------------------------------------------------------------ the condition is sufficient

  /** What the state after `k` rounds knows of the order. */
  ghost predicate Follows(s: State, n: nat, o: seq<nat>, k: nat)
    requires Shaped(s, n)
  {
    if k < |o| then VisitedAre(s, n, o[..k + 1]) else Over(s, n, o)
  }

  /** All nodes of the order are visited, and the search is exhausted. */
  ghost predicate Over(s: State, n: nat, o: seq<nat>)
    requires Shaped(s, n)
  {
    Exhausted(s, n) && forall x: nat :: x < n && x in o ==> s.visited[x]
  }

  lemma {:induction false} NextVisits(s: State, cost: seq<int>, n: nat, o: seq<nat>, u: nat)
    requires Shaped(s, n) && VisitedAre(s, n, o) && u < n && Nearest(s, n).1 == u
    ensures VisitedAre(Next(s, cost, n), n, o + [u])
  {
  }

  lemma {:induction false} NoWrapFrom(s: State, cost: seq<int>, n: nat, o: seq<nat>, m: int, u: nat)
    requires Shaped(s, n) && VisitedAre(s, n, o) && n > 0 && Nearest(s, n) == (m, u)
    requires forall i: nat {:trigger Outside(n, o + [u], i)} :: Outside(n, o + [u], i) ==> m + Cell(cost, n, u, i) <= INT_MAX
    ensures !Wraps(s, cost, n)
  {
    forall i: nat | i < n && !s.visited[i] && i != u
      ensures m + Cell(cost, n, u, i) <= INT_MAX
    {
      assert Outside(n, o + [u], i);
    }
  }

  lemma {:induction false} FitsNextInOrder(s: State, cost: seq<int>, n: nat, start: nat, d: seq<int>, o: seq<nat>, u: nat)
    requires Costs(cost, n) && Invariant(s, cost, n, start) && Distances(cost, n, start, d)
    requires VisitedAre(s, n, o) && NextNode(cost, n, d, o, u)
    requires EdgesFitFrom(cost, n, d, o + [u], u)
    ensures !Wraps(s, cost, n) && VisitedAre(Next(s, cost, n), n, o + [u])
  {
    NextIsNearest(s, cost, n, start, d, o, u);
    NoWrapFrom(s, cost, n, o, d[u], u);
    NextVisits(s, cost, n, o, u);
  }

  lemma {:induction false} FitsNextExhausted(s: State, cost: seq<int>, n: nat, start: nat, o: seq<nat>)
    requires Costs(cost, n) && Invariant(s, cost, n, start) && Over(s, n, o) && ZeroEdges(cost, n, o)
    ensures !Wraps(s, cost, n) && Over(Next(s, cost, n), n, o)
  {
    ExhaustedNearest(s, cost, n, start);
    forall i: nat | i < n && !s.visited[i] && i != 0
      ensures Cell(cost, n, 0, i) == 0
    {
      assert Outside(n, o, i);
    }
    NextKeepsExhausted(s, cost, n, start);
  }

  lemma {:induction false} NextKeepsExhausted(s: State, cost: seq<int>, n: nat, start: nat)
    requires Costs(cost, n) && Invariant(s, cost, n, start) && !Wraps(s, cost, n) && Exhausted(s, n)
    ensures Exhausted(Next(s, cost, n), n)
    ensures forall x: nat :: x < n && s.visited[x] ==> Next(s, cost, n).visited[x]
  {
    NextKeeps(s, cost, n, start);
  }

  lemma {:induction false} OrderBeyond(cost: seq<int>, n: nat, start: nat, d: seq<int>, o: seq<nat>, k: nat)
    requires FitsAlong(cost, n, start, d, o) && |o| <= k + 1 && k + 2 < n
    ensures ReachesFar(n, d, o) && ZeroEdges(cost, n, o)
  {
  }

  ghost predicate FitsSoFar(cost: seq<int>, n: nat, start: nat, o: seq<nat>, k: nat)
    requires start < n
  {
    && NeverWraps(Prepared(cost, n, start), cost, n, k)
    && Follows(Run(Prepared(cost, n, start), cost, n, k), n, o, k)
  }

  lemma {:induction false} FitsStart(cost: seq<int>, n: nat, start: nat, o: seq<nat>)
    requires start < n && o != [] && o[0] == start
    ensures FitsSoFar(cost, n, start, o, 0)
  {
    assert o[..1] == [start];
  }

  lemma {:induction false} RoundInOrder(cost: seq<int>, n: nat, start: nat, d: seq<int>, o: seq<nat>, u: nat, k: nat)
    requires Costs(cost, n) && start < n && Distances(cost, n, start, d)
    requires NeverWraps(Prepared(cost, n, start), cost, n, k)
    requires VisitedAre(Run(Prepared(cost, n, start), cost, n, k), n, o) && NextNode(cost, n, d, o, u)
    requires EdgesFitFrom(cost, n, d, o + [u], u)
    ensures NeverWraps(Prepared(cost, n, start), cost, n, k + 1)
    ensures VisitedAre(Run(Prepared(cost, n, start), cost, n, k + 1), n, o + [u])
  {
    var s := Run(Prepared(cost, n, start), cost, n, k);
    assert !Wraps(s, cost, n) && VisitedAre(Next(s, cost, n), n, o + [u]) by {
      RunKeeps(cost, n, start, k);
      FitsNextInOrder(s, cost, n, start, d, o, u);
    }
    LastRound(Prepared(cost, n, start), cost, n, k + 1);
  }

  lemma {:induction false} RoundExhausted(cost: seq<int>, n: nat, start: nat, o: seq<nat>, k: nat)
    requires Costs(cost, n) && start < n && NeverWraps(Prepared(cost, n, start), cost, n, k) && ZeroEdges(cost, n, o)
    requires Over(Run(Prepared(cost, n, start), cost, n, k), n, o)
    ensures NeverWraps(Prepared(cost, n, start), cost, n, k + 1)
    ensures Over(Run(Prepared(cost, n, start), cost, n, k + 1), n, o)
  {
    RunKeeps(cost, n, start, k);
    FitsNextExhausted(Run(Prepared(cost, n, start), cost, n, k), cost, n, start, o);
    LastRound(Prepared(cost, n, start), cost, n, k + 1);
  }

  lemma {:induction false} RunIsOver(cost: seq<int>, n: nat, start: nat, d: seq<int>, o: seq<nat>, k: nat)
    requires Costs(cost, n) && start < n && Distances(cost, n, start, d)
    requires NeverWraps(Prepared(cost, n, start), cost, n, k) && ReachesFar(n, d, o)
    requires VisitedAre(Run(Prepared(cost, n, start), cost, n, k), n, o)
    ensures Over(Run(Prepared(cost, n, start), cost, n, k), n, o)
  {
    RunKeeps(cost, n, start, k);
    FarAreExhausted(Run(Prepared(cost, n, start), cost, n, k), cost, n, start, d, o);
  }

  lemma {:induction false} FitsRound(cost: seq<int>, n: nat, start: nat, d: seq<int>, o: seq<nat>, k: nat)
    requires Costs(cost, n) && start < n && FitsAlong(cost, n, start, d, o) && k + 2 < n
    requires FitsSoFar(cost, n, start, o, k)
    ensures FitsSoFar(cost, n, start, o, k + 1)
  {
    if k + 1 < |o| {
      assert NextAt(cost, n, d, o, k + 1) && EdgesAt(cost, n, d, o, k + 1);
      assert o[..k + 2] == o[..k + 1] + [o[k + 1]];
      RoundInOrder(cost, n, start, d, o[..k + 1], o[k + 1], k);
    } else {
      OrderBeyond(cost, n, start, d, o, k);
      if k < |o| {
        assert o[..k + 1] == o;
        RunIsOver(cost, n, start, d, o, k);
      }
      RoundExhausted(cost, n, start, o, k);
    }
  }

  lemma {:induction false} Upward(holds: nat -> bool, k: nat)
    requires holds(0) && forall h: nat :: h < k && holds(h) ==> holds(h + 1)
    ensures holds(k)
  {
    if k > 0 {
      Upward(holds, k - 1);
    }
  }

  lemma {:induction false} FitsRun(cost: seq<int>, n: nat, start: nat, d: seq<int>, o: seq<nat>, k: nat)
    requires Costs(cost, n) && start < n && FitsAlong(cost, n, start, d, o) && (k == 0 || k + 1 < n)
    ensures FitsSoFar(cost, n, start, o, k)
  {
    FitsStart(cost, n, start, o);
    var holds: nat -> bool := (h: nat) => FitsSoFar(cost, n, start, o, h);
    forall h: nat | h < k && holds(h)
      ensures holds(h + 1)
    {
      FitsRound(cost, n, start, d, o, h);
    }
    Upward(holds, k);
  }

  // ------------------------------------------------------------- the condition is necessary

  /** The order as far as `k` rounds have followed it: with all of their nodes, or, since the
      search was exhausted before, with all nodes below the greatest number. */
  ghost predicate Ordered(cost: seq<int>, n: nat, start: nat, d: seq<int>, o: seq<nat>, k: nat, all: bool)
    requires Costs(cost, n) && start < n
  {
    && |d| == n && InOrder(cost, n, start, d, o) && EdgesFit(cost, n, d, o)
    && if all then |o| == k + 1 && VisitedAre(Run(Prepared(cost, n, start), cost, n, k), n, o)
       else |o| <= k && ReachesFar(n, d, o) && ZeroEdges(cost, n, o)
  }

  ghost predicate ReachesFar(n: nat, d: seq<int>, o: seq<nat>)
    requires |d| == n
  {
    forall x: nat {:trigger Outside(n, o, x)} :: Outside(n, o, x) ==> d[x] == INT_MAX
  }

  ghost predicate ZeroEdges(cost: seq<int>, n: nat, o: seq<nat>)
  {
    forall i: nat {:trigger Outside(n, o, i)} :: Outside(n, o, i) && i != 0 ==> Cell(cost, n, 0, i) == 0
  }

  lemma InOrderGrows(cost: seq<int>, n: nat, start: nat, d: seq<int>, o: seq<nat>, u: nat)
    requires |d| == n && InOrder(cost, n, start, d, o) && NextNode(cost, n, d, o, u)
    ensures InOrder(cost, n, start, d, o + [u])
  {
    var p := o + [u];
    forall k: nat | 1 <= k < |p|
      ensures NextAt(cost, n, d, p, k)
    {
      if k < |o| {
        assert NextAt(cost, n, d, o, k);
        assert p[..k] == o[..k];
      } else {
        assert p[..k] == o;
      }
    }
  }

  lemma EdgesFitGrows(cost: seq<int>, n: nat, d: seq<int>, o: seq<nat>, u: nat)
    requires |d| == n && EdgesFit(cost, n, d, o) && u < n
    requires EdgesFitFrom(cost, n, d, o + [u], u)
    ensures EdgesFit(cost, n, d, o + [u])
  {
    var p := o + [u];
    forall k: nat | 1 <= k < |p|
      ensures EdgesAt(cost, n, d, p, k)
    {
      if k < |o| {
        assert EdgesAt(cost, n, d, o, k);
        assert p[..k + 1] == o[..k + 1];
      } else {
        assert p[..k + 1] == p;
      }
    }
  }

  lemma {:induction false} OrderGoesOn(s: State, cost: seq<int>, n: nat, start: nat, d: seq<int>, o: seq<nat>)
    requires Costs(cost, n) && Invariant(s, cost, n, start) && Distances(cost, n, start, d) && VisitedAre(s, n, o)
    requires InOrder(cost, n, start, d, o) && EdgesFit(cost, n, d, o) && !Wraps(s, cost, n) && !Exhausted(s, n)
    ensures InOrder(cost, n, start, d, o + [Nearest(s, n).1]) && EdgesFit(cost, n, d, o + [Nearest(s, n).1])
    ensures VisitedAre(Next(s, cost, n), n, o + [Nearest(s, n).1])
  {
    NearestIsNext(s, cost, n, start, d, o);
    InOrderGrows(cost, n, start, d, o, Nearest(s, n).1);
    EdgesFitGrows(cost, n, d, o, Nearest(s, n).1);
    NextVisits(s, cost, n, o, Nearest(s, n).1);
  }

  lemma {:induction false} OrderEnds(s: State, cost: seq<int>, n: nat, start: nat, d: seq<int>, o: seq<nat>)
    requires Costs(cost, n) && Invariant(s, cost, n, start) && Distances(cost, n, start, d) && VisitedAre(s, n, o)
    requires !Wraps(s, cost, n) && Exhausted(s, n)
    ensures ReachesFar(n, d, o) && ZeroEdges(cost, n, o)
  {
    ExhaustedNearest(s, cost, n, start);
    forall x: nat | Outside(n, o, x)
      ensures d[x] == INT_MAX
    {
      ExhaustedAreFar(s, cost, n, start, d, x);
    }
  }

  lemma {:induction false} OrderRound(cost: seq<int>, n: nat, start: nat, d: seq<int>, k: nat, o: seq<nat>)
    returns (p: seq<nat>, all: bool)
    requires Costs(cost, n) && start < n && Distances(cost, n, start, d)
    requires NeverWraps(Prepared(cost, n, start), cost, n, k)
    requires !Wraps(Run(Prepared(cost, n, start), cost, n, k), cost, n)
    requires Ordered(cost, n, start, d, o, k, true)
    ensures Ordered(cost, n, start, d, p, k + 1, all)
  {
    var s := Run(Prepared(cost, n, start), cost, n, k);
    RunKeeps(cost, n, start, k);
    if Exhausted(s, n) {
      OrderEnds(s, cost, n, start, d, o);
      p, all := o, false;
    } else {
      OrderGoesOn(s, cost, n, start, d, o);
      p, all := o + [Nearest(s, n).1], true;
    }
  }

  lemma {:induction false} OrderOfRun(cost: seq<int>, n: nat, start: nat, d: seq<int>, k: nat)
    returns (o: seq<nat>, all: bool)
    requires Costs(cost, n) && start < n && Distances(cost, n, start, d)
    requires NeverWraps(Prepared(cost, n, start), cost, n, k)
    ensures Ordered(cost, n, start, d, o, k, all)
  {
    if k == 0 {
      o, all := [start], true;
    } else {
      LastRound(Prepared(cost, n, start), cost, n, k);
      o, all := OrderOfRun(cost, n, start, d, k - 1);
      if all {
        o, all := OrderRound(cost, n, start, d, k - 1, o);
      }
    }
  }

  /** The exact condition on costs and start node under which no sum wraps. */
  lemma {:induction false} NeverWrapsIffFits(cost: seq<int>, n: nat, start: nat, rounds: nat)
    requires Costs(cost, n) && start < n && rounds == if n < 2 then 0 else n - 2
    ensures NeverWraps(Prepared(cost, n, start), cost, n, rounds) <==> Fits(cost, n, start)
  {
    if NeverWraps(Prepared(cost, n, start), cost, n, rounds) {
      var d := Run(Prepared(cost, n, start), cost, n, rounds).distance;
      CorrectIffNeverWraps(cost, n, start, rounds);
      assert Distances(cost, n, start, d);
      var o, all := OrderOfRun(cost, n, start, d, rounds);
      assert FitsAlong(cost, n, start, d, o);
    }
    if Fits(cost, n, start) {
      var d, o :| FitsAlong(cost, n, start, d, o);
      FitsRun(cost, n, start, d, o, rounds);
    }
  }

  /** The exact condition on costs and start node under which the kernel is right. */
  lemma {:induction false} CorrectIffFits(cost: seq<int>, n: nat, start: nat, rounds: nat)
    requires Costs(cost, n) && start < n && rounds == if n < 2 then 0 else n - 2
    ensures Correct(Run(Prepared(cost, n, start), cost, n, rounds), cost, n, start) <==> Fits(cost, n, start)
  {
    CorrectIffNeverWraps(cost, n, start, rounds);
    NeverWrapsIffFits(cost, n, start, rounds);
  }

  // ------------------------------------------------------------------------ positive costs

  /** Edges between different nodes cost something, as the host's do. */
  ghost predicate Positive(cost: seq<int>, n: nat)
  {
    forall i: nat, j: nat :: i < n && j < n && i != j ==> Cell(cost, n, i, j) > 0
  }

  ghost predicate Before(d: seq<int>, u: nat, i: nat)
    requires u < |d| && i < |d|
  {
    d[u] < d[i] || (d[u] == d[i] && u < i)
  }

  /** From each node but the start, the edges to all nodes behind it, by distance and then by
      number, can be added to its distance. */
  ghost predicate PairsFit(cost: seq<int>, n: nat, start: nat, d: seq<int>)
    requires |d| == n
  {
    forall u: nat, i: nat :: u < n && i < n && u != start && Before(d, u, i) ==> d[u] + Cell(cost, n, u, i) <= INT_MAX
  }

  /** The last step of a shortest walk. */
  lemma {:induction false} LastStep(cost: seq<int>, n: nat, start: nat, d: seq<int>, w: seq<nat>, x: nat) returns (v: nat)
    requires Costs(cost, n) && Distances(cost, n, start, d) && x < n && x != start
    requires Walk(n, w, start, x) && Weight(cost, n, w) <= d[x]
    ensures v < n && v != x && d[v] + Cell(cost, n, v, x) == d[x]
    decreases |w|
  {
    var h := |w| - 2;
    v := w[h];
    WeightOfParts(cost, n, w, start, x, h);
    assert w[h..] == [v, x] && [v, x][1..] == [x];
    assert Weight(cost, n, w[h..]) == Cell(cost, n, v, x);
    if v == x {
      v := LastStep(cost, n, start, d, w[..h + 1], x);
    } else {
      LastStepIsTight(cost, n, start, d, v, x, Weight(cost, n, w[..h + 1]));
    }
  }

  lemma LastStepIsTight(cost: seq<int>, n: nat, start: nat, d: seq<int>, v: nat, x: nat, weight: int)
    requires Distances(cost, n, start, d) && v < n && x < n && d[x] >= weight + Cell(cost, n, v, x)
    requires Achieved(cost, n, start, v, weight)
    ensures d[v] + Cell(cost, n, v, x) == d[x]
  {
    assert Right(cost, n, start, d, v) && Right(cost, n, start, d, x);
    var p :| Walk(n, p, start, v) && Weight(cost, n, p) == weight;
    AchievedByEdge(cost, n, v, x);
    AchievedByJoin(cost, n, start, v, x, d[v], Cell(cost, n, v, x));
    var q :| Walk(n, q, start, x) && Weight(cost, n, q) == d[v] + Cell(cost, n, v, x);
  }

  lemma PositiveStep(cost: seq<int>, n: nat, start: nat, d: seq<int>, x: nat) returns (v: nat)
    requires Costs(cost, n) && Positive(cost, n) && Distances(cost, n, start, d) && x < n && x != start
    ensures v < n && d[v] + Cell(cost, n, v, x) == d[x] && 0 <= d[v] < d[x]
  {
    assert Right(cost, n, start, d, x);
    var w :| Walk(n, w, start, x) && Weight(cost, n, w) == d[x];
    v := LastStep(cost, n, start, d, w, x);
    DistanceIsNonNegative(cost, n, start, d, v);
  }

  lemma DistanceIsNonNegative(cost: seq<int>, n: nat, start: nat, d: seq<int>, v: nat)
    requires Costs(cost, n) && Distances(cost, n, start, d) && v < n
    ensures d[v] >= 0
  {
    assert Right(cost, n, start, d, v);
    var p :| Walk(n, p, start, v) && Weight(cost, n, p) == d[v];
    WeightIsNonNegative(cost, n, p, start, v);
  }

  /** A node no farther than all others outside of `o` is reached from `o` at its distance. */
  lemma NearestIsTight(cost: seq<int>, n: nat, d: seq<int>, o: seq<nat>, x: nat, v: nat)
    requires |d| == n && x < n && v < n && d[v] + Cell(cost, n, v, x) == d[x] && d[v] < d[x]
    requires forall y: nat {:trigger Outside(n, o, y)} :: Outside(n, o, y) ==> d[x] <= d[y]
    ensures Tight(cost, n, d, o, x)
  {
    assert !Outside(n, o, v);
  }

  /** The next node lies before all others outside. */
  lemma NextIsBefore(cost: seq<int>, n: nat, d: seq<int>, o: seq<nat>, u: nat, x: nat, v: nat)
    requires |d| == n && NextNode(cost, n, d, o, u) && Outside(n, o, x) && x != u
    requires v < n && d[v] + Cell(cost, n, v, x) == d[x] && d[v] < d[x]
    ensures Before(d, u, x)
  {
    if d[x] == d[u] {
      NearestIsTight(cost, n, d, o, x, v);
    }
  }

  /** A node of the order lies before all nodes that come later or not at all. */
  lemma OrderIsBefore(cost: seq<int>, n: nat, start: nat, d: seq<int>, o: seq<nat>, j: nat, x: nat)
    requires Costs(cost, n) && Positive(cost, n) && Distances(cost, n, start, d) && InOrder(cost, n, start, d, o)
    requires start < n && j < |o| && Outside(n, o[..j], x) && x != o[j] && x != start
    ensures o[j] < n && Before(d, o[j], x)
  {
    var v := PositiveStep(cost, n, start, d, x);
    if j == 0 {
      StartIsAtZero(cost, n, start, d);
    } else {
      assert NextAt(cost, n, d, o, j);
      NextIsBefore(cost, n, d, o[..j], o[j], x, v);
    }
  }

  lemma StartIsAtZero(cost: seq<int>, n: nat, start: nat, d: seq<int>)
    requires Costs(cost, n) && Distances(cost, n, start, d) && start < n
    ensures d[start] == 0
  {
    assert Right(cost, n, start, d, start);
    assert Walk(n, [start], start, start) && Weight(cost, n, [start]) == 0;
    DistanceIsNonNegative(cost, n, start, d, start);
  }

  // The nodes of the order, and those outside.

  lemma {:induction false} NodesOf(cost: seq<int>, n: nat, start: nat, d: seq<int>, o: seq<nat>, k: nat) returns (nodes: set<nat>)
    requires |d| == n && start < n && InOrder(cost, n, start, d, o) && 1 <= k <= |o|
    ensures |nodes| == k && nodes <= Numbers(n) && forall x: nat :: x in nodes <==> x in o[..k]
  {
    if k == 1 {
      nodes := {start};
    } else {
      nodes := NodesOf(cost, n, start, d, o, k - 1);
      assert NextAt(cost, n, d, o, k - 1);
      nodes := nodes + {o[k - 1]};
      assert o[..k] == o[..k - 1] + [o[k - 1]];
    }
  }

  /** Two nodes outside leave room for no more than the others. */
  lemma TwoOutside(cost: seq<int>, n: nat, start: nat, d: seq<int>, o: seq<nat>, a: nat, b: nat)
    requires |d| == n && start < n && InOrder(cost, n, start, d, o)
    requires Outside(n, o, a) && Outside(n, o, b) && a != b
    ensures |o| + 2 <= n
  {
    var nodes := NodesOf(cost, n, start, d, o, |o|);
    assert o[..|o|] == o;
    SubsetIsSmaller(nodes, Numbers(n) - {a, b});
  }

  function Nodes(o: seq<nat>): (r: set<nat>)
    ensures |r| <= |o| && forall x: nat :: x in r <==> x in o
  {
    if o == [] then {} else Nodes(o[1..]) + {o[0]}
  }

  lemma {:induction false} SomeOutside(n: nat, o: seq<nat>) returns (x: nat)
    requires |o| < n
    ensures Outside(n, o, x)
  {
    if Numbers(n) <= Nodes(o) {
      SubsetIsSmaller(Numbers(n), Nodes(o));
      assert false;
    }
    x :| x in Numbers(n) && x !in Nodes(o);
  }

  /** Node `u` of the order, at a place before `i`. */
  lemma PairInOrder(cost: seq<int>, n: nat, start: nat, d: seq<int>, o: seq<nat>, j: nat, i: nat)
    requires Costs(cost, n) && Positive(cost, n) && Distances(cost, n, start, d) && start < n
    requires InOrder(cost, n, start, d, o) && EdgesFit(cost, n, d, o)
    requires 1 <= j < |o| && i < n && o[j] < n && Before(d, o[j], i)
    ensures d[o[j]] + Cell(cost, n, o[j], i) <= INT_MAX
  {
    assert NextAt(cost, n, d, o, j) && EdgesAt(cost, n, d, o, j);
    if i in o[..j] {
      var h :| 0 <= h < j && o[h] == i;
      NotBefore(cost, n, start, d, o, h, o[j]);
    }
    assert o[..j + 1] == o[..j] + [o[j]];
    assert Outside(n, o[..j + 1], i);
  }

  lemma NotBefore(cost: seq<int>, n: nat, start: nat, d: seq<int>, o: seq<nat>, h: nat, u: nat)
    requires Costs(cost, n) && Positive(cost, n) && Distances(cost, n, start, d) && start < n
    requires InOrder(cost, n, start, d, o) && h < |o| && u < n && u != start
    requires o[h] < n && u !in o[..h] && u != o[h]
    ensures !Before(d, u, o[h])
  {
    assert Outside(n, o[..h], u);
    OrderIsBefore(cost, n, start, d, o, h, u);
  }

  lemma OrderFitsPairs(cost: seq<int>, n: nat, start: nat, d: seq<int>, o: seq<nat>)
    requires Costs(cost, n) && Positive(cost, n) && Distances(cost, n, start, d) && start < n
    requires InOrder(cost, n, start, d, o) && EdgesFit(cost, n, d, o) && |o| + 1 >= n
    ensures PairsFit(cost, n, start, d)
  {
    forall u: nat, i: nat | u < n && i < n && u != start && Before(d, u, i)
      ensures d[u] + Cell(cost, n, u, i) <= INT_MAX
    {
      if u in o {
        var j: nat :| j < |o| && o[j] == u;
        PairInOrder(cost, n, start, d, o, j, i);
      } else {
        if i !in o {
          assert Outside(n, o, u) && Outside(n, o, i);
          TwoOutside(cost, n, start, d, o, u, i);
        }
        var h: nat :| h < |o| && o[h] == i;
        NotBefore(cost, n, start, d, o, h, u);
      }
    }
  }

  /** An exhausted search with two open nodes reads an edge of node 0 that costs something. */
  lemma NoZeroEdges(cost: seq<int>, n: nat, o: seq<nat>)
    requires Positive(cost, n) && |o| + 2 <= n
    ensures !ZeroEdges(cost, n, o)
  {
    var x := SomeOutside(n, o);
    if x == 0 {
      var y := SomeOutside(n, o + [0]);
      assert Outside(n, o, y);
    }
  }

  ghost predicate Pairs(cost: seq<int>, n: nat, start: nat)
  {
    exists d :: Distances(cost, n, start, d) && PairsFit(cost, n, start, d)
  }

  lemma FitsGivesPairs(cost: seq<int>, n: nat, start: nat)
    requires Costs(cost, n) && Positive(cost, n) && start < n && Fits(cost, n, start)
    ensures Pairs(cost, n, start)
  {
    var d, o :| FitsAlong(cost, n, start, d, o);
    if |o| + 1 < n {
      NoZeroEdges(cost, n, o);
    }
    OrderFitsPairs(cost, n, start, d, o);
  }

  /** A nearest open node lies before all other open nodes. */
  lemma NearestIsBefore(s: State, cost: seq<int>, n: nat, start: nat, d: seq<int>, i: nat)
    requires Costs(cost, n) && Positive(cost, n) && Invariant(s, cost, n, start) && Distances(cost, n, start, d)
    requires !Exhausted(s, n) && i < n && !s.visited[i] && i != Nearest(s, n).1
    ensures var u := Nearest(s, n).1; u < n && u != start && Nearest(s, n).0 == d[u] && Before(d, u, i)
  {
    EntriesInRange(s, cost, n, start);
    NearestIsNode(s, n, n);
    var u := Nearest(s, n).1;
    OpenAreFarther(s, cost, n, start, d, u);
    OpenAreAbove(s, cost, n, start, d, u);
    OpenAreFarther(s, cost, n, start, d, i);
    if d[i] == d[u] {
      var v := PositiveStep(cost, n, start, d, i);
      if !s.visited[v] {
        OpenAreFarther(s, cost, n, start, d, v);
      }
      VisitedAreRight(s, cost, n, start, d, v);
    }
  }

  lemma ExhaustedPair(s: State, cost: seq<int>, n: nat, start: nat, d: seq<int>, a: nat, b: nat)
    requires Costs(cost, n) && Positive(cost, n) && Invariant(s, cost, n, start) && Distances(cost, n, start, d)
    requires Exhausted(s, n) && a < b < n && !s.visited[a] && !s.visited[b]
    ensures !PairsFit(cost, n, start, d)
  {
    ExhaustedAreFar(s, cost, n, start, d, a);
    ExhaustedAreFar(s, cost, n, start, d, b);
    assert Before(d, a, b);
  }

  /** A round that starts with two open nodes or more does not wrap. */
  lemma {:induction false} PairsFitNext(s: State, cost: seq<int>, n: nat, start: nat, d: seq<int>, a: nat, b: nat)
    requires Costs(cost, n) && Positive(cost, n) && Invariant(s, cost, n, start) && Distances(cost, n, start, d)
    requires PairsFit(cost, n, start, d) && a < b < n && !s.visited[a] && !s.visited[b]
    ensures !Wraps(s, cost, n)
  {
    if Exhausted(s, n) {
      ExhaustedPair(s, cost, n, start, d, a, b);
    }
    var u := Nearest(s, n).1;
    forall i: nat | i < n && !s.visited[i] && i != u
      ensures Nearest(s, n).0 + Cell(cost, n, u, i) <= INT_MAX
    {
      NearestIsBefore(s, cost, n, start, d, i);
    }
  }

  lemma {:induction false} FewVisited(cost: seq<int>, n: nat, start: nat, k: nat)
    requires start < n
    ensures |VisitedNodes(Run(Prepared(cost, n, start), cost, n, k), n)| <= k + 1
  {
    if k == 0 {
      assert VisitedNodes(Prepared(cost, n, start), n) == {start};
    } else {
      FewVisited(cost, n, start, k - 1);
      NextVisitsOne(Run(Prepared(cost, n, start), cost, n, k - 1), cost, n);
    }
  }

  lemma {:induction false} NextVisitsOne(s: State, cost: seq<int>, n: nat)
    requires Shaped(s, n) && n > 0
    ensures |VisitedNodes(Next(s, cost, n), n)| <= |VisitedNodes(s, n)| + 1
  {
    NearestIsNode(s, n, n);
    assert VisitedNodes(Next(s, cost, n), n) == VisitedNodes(s, n) + {Nearest(s, n).1};
  }

  lemma OpenPair(s: State, n: nat) returns (a: nat, b: nat)
    requires Shaped(s, n) && |VisitedNodes(s, n)| + 2 <= n
    ensures a < b < n && !s.visited[a] && !s.visited[b]
  {
    a := OpenNode(s, n, n);
    b := OpenNode(s, n, a);
    if b < a {
      a, b := b, a;
    }
  }

  /** An open node other than `x`. */
  lemma OpenNode(s: State, n: nat, x: nat) returns (a: nat)
    requires Shaped(s, n) && |VisitedNodes(s, n)| + 2 <= n
    ensures a < n && a != x && !s.visited[a]
  {
    if forall y: nat :: y < n && y != x ==> s.visited[y] {
      assert Numbers(n) - {x} <= VisitedNodes(s, n);
      SubsetIsSmaller(Numbers(n) - {x}, VisitedNodes(s, n));
      assert false;
    }
    a :| a < n && a != x && !s.visited[a];
  }

  lemma {:induction false} PairsFitRound(cost: seq<int>, n: nat, start: nat, d: seq<int>, k: nat)
    requires Costs(cost, n) && Positive(cost, n) && start < n && Distances(cost, n, start, d)
    requires PairsFit(cost, n, start, d) && k + 2 < n && NeverWraps(Prepared(cost, n, start), cost, n, k)
    ensures !Wraps(Run(Prepared(cost, n, start), cost, n, k), cost, n)
  {
    var s := Run(Prepared(cost, n, start), cost, n, k);
    RunKeeps(cost, n, start, k);
    FewVisited(cost, n, start, k);
    var a, b := OpenPair(s, n);
    PairsFitNext(s, cost, n, start, d, a, b);
  }

  lemma {:induction false} PairsFitRun(cost: seq<int>, n: nat, start: nat, d: seq<int>, rounds: nat)
    requires Costs(cost, n) && Positive(cost, n) && start < n && Distances(cost, n, start, d)
    requires PairsFit(cost, n, start, d) && (rounds == 0 || rounds + 1 < n)
    ensures NeverWraps(Prepared(cost, n, start), cost, n, rounds)
  {
    if rounds > 0 {
      PairsFitRun(cost, n, start, d, rounds - 1);
      PairsFitRound(cost, n, start, d, rounds - 1);
      LastRound(Prepared(cost, n, start), cost, n, rounds);
    }
  }

  /** With positive costs the kernel is right if and only if, from each node but the start, the
      edges to all nodes behind it, by distance and then by number, can be added to its distance. */
  lemma {:induction false} CorrectIffPairsFit(cost: seq<int>, n: nat, start: nat, rounds: nat)
    requires Costs(cost, n) && Positive(cost, n) && start < n && rounds == if n < 2 then 0 else n - 2
    ensures Correct(Run(Prepared(cost, n, start), cost, n, rounds), cost, n, start) <==> Pairs(cost, n, start)
  {
    CorrectIffNeverWraps(cost, n, start, rounds);
    CorrectIffFits(cost, n, start, rounds);
    if Pairs(cost, n, start) {
      var d :| Distances(cost, n, start, d) && PairsFit(cost, n, start, d);
      PairsFitRun(cost, n, start, d, rounds);
    }
    if Fits(cost, n, start) {
      FitsGivesPairs(cost, n, start);
    }
  }
}
