/**
 Shortest distances from one node, by repeated search for the nearest open node.  Missing
 edges cost the greatest 32-bit number, and sums are 32-bit sums.
 */
module Dijkstra {
  import opened Walks

  datatype State = State(distance: seq<int>, visited: seq<bool>, pred: seq<nat>)

  predicate Shaped(s: State, n: nat)
  {
    |s.distance| == n && |s.visited| == n && |s.pred| == n
  }

  predicate Costs(cost: seq<int>, n: nat)
  {
    Square(cost, n) && forall i: nat, j: nat :: i < n && j < n ==> 0 <= Cell(cost, n, i, j) <= INT_MAX
  }

  // ------------------------------------------------------------------ one round on values

  /** The least distance of an open node among the first `k`, and the first node that has it;
      node 0 if none is below the greatest number. */
  function Nearest(s: State, k: nat): (r: (int, nat))
    requires k <= |s.distance| && k <= |s.visited|
  {
    if k == 0 then (INT_MAX, 0)
    else
      var r := Nearest(s, k - 1);
      if !s.visited[k - 1] && s.distance[k - 1] < r.0 then (s.distance[k - 1], k - 1) else r
  }

  function Offer(cost: seq<int>, n: nat, mindist: int, node: nat, i: nat): int
  {
    Plus(mindist, Cell(cost, n, node, i))
  }

  predicate Improves(s: State, cost: seq<int>, n: nat, mindist: int, node: nat, i: nat)
    requires Shaped(s, n) && i < n
  {
    !s.visited[i] && Offer(cost, n, mindist, node, i) < s.distance[i]
  }

  function Visit(s: State, node: nat): State
    requires node < |s.visited|
  {
    s.(visited := s.visited[node := true])
  }

  function Relax(s: State, cost: seq<int>, n: nat, mindist: int, node: nat): (r: State)
    requires Shaped(s, n)
    ensures Shaped(r, n) && r.visited == s.visited
  {
    State(
      seq(n, i requires 0 <= i < n =>
        if Improves(s, cost, n, mindist, node, i) then Offer(cost, n, mindist, node, i) else s.distance[i]),
      s.visited,
      seq(n, i requires 0 <= i < n => if Improves(s, cost, n, mindist, node, i) then node else s.pred[i]))
  }

  lemma {:induction false} NearestIsNode(s: State, n: nat, k: nat)
    requires Shaped(s, n) && k <= n
    ensures Nearest(s, k).1 < n || n == 0
    ensures Nearest(s, k).0 <= INT_MAX
    ensures forall i :: 0 <= i < k && !s.visited[i] ==> Nearest(s, k).0 <= s.distance[i] || s.distance[i] >= INT_MAX
    ensures Nearest(s, k).0 < INT_MAX ==>
      !s.visited[Nearest(s, k).1] && s.distance[Nearest(s, k).1] == Nearest(s, k).0
    ensures Nearest(s, k).0 < INT_MAX ==>
      Nearest(s, k).1 < k && forall i :: 0 <= i < Nearest(s, k).1 && !s.visited[i] ==> s.distance[i] > Nearest(s, k).0
    ensures Nearest(s, k).0 == INT_MAX ==> Nearest(s, k).1 == 0
  {
    if k > 0 {
      NearestIsNode(s, n, k - 1);
    }
  }

  /** `node` is open and has the least distance of all open nodes, and no earlier one has it. */
  predicate FirstNearest(s: State, n: nat, mindist: int, node: nat)
    requires Shaped(s, n)
  {
    && node < n && !s.visited[node] && s.distance[node] == mindist
    && (forall i :: 0 <= i < n && !s.visited[i] ==> mindist <= s.distance[i])
    && forall i :: 0 <= i < node && !s.visited[i] ==> mindist < s.distance[i]
  }

  function Next(s: State, cost: seq<int>, n: nat): (r: State)
    requires Shaped(s, n) && n > 0
    ensures Shaped(r, n)
  {
    var nearest := Nearest(s, n);
    NearestIsNode(s, n, n);
    Relax(Visit(s, nearest.1), cost, n, nearest.0, nearest.1)
  }

  function Run(s: State, cost: seq<int>, n: nat, rounds: nat): (r: State)
    requires Shaped(s, n) && n > 0
    ensures Shaped(r, n)
  {
    if rounds == 0 then s else Next(Run(s, cost, n, rounds - 1), cost, n)
  }

  /** Some sum of the next round does not fit. */
  ghost predicate Wraps(s: State, cost: seq<int>, n: nat)
    requires Shaped(s, n) && n > 0
  {
    exists i: nat :: i < n && !s.visited[i] && i != Nearest(s, n).1 &&
      Nearest(s, n).0 + Cell(cost, n, Nearest(s, n).1, i) > INT_MAX
  }

  ghost predicate NeverWraps(s: State, cost: seq<int>, n: nat, rounds: nat)
    requires Shaped(s, n) && n > 0
  {
    forall k: nat :: k < rounds ==> !Wraps(Run(s, cost, n, k), cost, n)
  }

  // ------------------------------------------------------------------------ the program

  /** The kernel: the loops over arrays compute `Run`. */
  method Kernel(cost: array<int>, distance: array<int>, visited: array<bool>, pred: array<nat>, n: nat)
    requires n > 0 && Square(cost[..], n)
    requires distance.Length == n && visited.Length == n && pred.Length == n && cost != distance
    modifies distance, visited, pred
    ensures State(distance[..], visited[..], pred[..]) ==
      Run(old(State(distance[..], visited[..], pred[..])), cost[..], n, if n < 2 then 0 else n - 2)
  {
    ghost var s := State(distance[..], visited[..], pred[..]);
    ghost var c := cost[..];
    var count := 1;
    while count < n - 1
      invariant 1 <= count && (count <= n - 1 || count == 1)
      invariant cost[..] == c
      invariant State(distance[..], visited[..], pred[..]) == Run(s, c, n, count - 1)
    {
      Round(cost, distance, visited, pred, n);
      count := count + 1;
    }
  }

  method Round(cost: array<int>, distance: array<int>, visited: array<bool>, pred: array<nat>, n: nat)
    requires n > 0 && Square(cost[..], n)
    requires distance.Length == n && visited.Length == n && pred.Length == n && cost != distance
    modifies distance, visited, pred
    ensures State(distance[..], visited[..], pred[..]) ==
      Next(old(State(distance[..], visited[..], pred[..])), cost[..], n)
  {
    ghost var s := State(distance[..], visited[..], pred[..]);
    var mindist, nextnode := FindNearest(distance, visited, n, s);
    NearestIsNode(s, n, n);
    visited[nextnode] := true;
    RelaxAll(cost, distance, visited, pred, n, mindist, nextnode);
  }

  method FindNearest(distance: array<int>, visited: array<bool>, n: nat, ghost s: State)
    returns (mindist: int, nextnode: nat)
    requires Shaped(s, n) && distance[..] == s.distance && visited[..] == s.visited
    ensures (mindist, nextnode) == Nearest(s, n)
    ensures if mindist < INT_MAX then FirstNearest(s, n, mindist, nextnode)
      else nextnode == 0 && forall i :: 0 <= i < n && !s.visited[i] ==> s.distance[i] >= INT_MAX
  {
    mindist, nextnode := INT_MAX, 0;
    for i := 0 to n
      invariant (mindist, nextnode) == Nearest(s, i)
    {
      if !visited[i] && distance[i] < mindist {
        mindist := distance[i];
        nextnode := i;
      }
    }
    NearestIsNode(s, n, n);
  }

  method RelaxAll(cost: array<int>, distance: array<int>, visited: array<bool>, pred: array<nat>, n: nat,
      mindist: int, nextnode: nat)
    requires Square(cost[..], n) && nextnode < n
    requires distance.Length == n && visited.Length == n && pred.Length == n && cost != distance
    modifies distance, pred
    ensures State(distance[..], visited[..], pred[..]) ==
      Relax(old(State(distance[..], visited[..], pred[..])), cost[..], n, mindist, nextnode)
  {
    ghost var s := State(distance[..], visited[..], pred[..]);
    ghost var r := Relax(s, cost[..], n, mindist, nextnode);
    for i := 0 to n
      invariant cost[..] == old(cost[..])
      invariant forall k :: 0 <= k < n ==> distance[k] == if k < i then r.distance[k] else s.distance[k]
      invariant forall k :: 0 <= k < n ==> pred[k] == if k < i then r.pred[k] else s.pred[k]
    {
      IndexInside(n, nextnode, i);
      var sum := Plus(mindist, cost[Index(n, nextnode, i)]);
      if !visited[i] && sum < distance[i] {
        distance[i] := sum;
        pred[i] := nextnode;
      }
    }
  }

  /** What the host prepares: costs from an adjacency matrix in which 0 stands for no edge,
      and the start node expanded. */
  function Prepared(cost: seq<int>, n: nat, start: nat): (s: State)
    requires start < n
    ensures Shaped(s, n)
  {
    State(
      seq(n, i requires 0 <= i < n => if i == start then 0 else Cell(cost, n, start, i)),
      seq(n, i requires 0 <= i < n => i == start),
      seq(n, i requires 0 <= i < n => start))
  }

  method InitData(g: array<int>, cost: array<int>, distance: array<int>, visited: array<bool>, pred: array<nat>,
      n: nat, start: nat)
    requires start < n && Square(g[..], n) && Square(cost[..], n) && g != cost && cost != distance && g != distance
    requires distance.Length == n && visited.Length == n && pred.Length == n
    modifies cost, distance, visited, pred
    ensures forall k :: 0 <= k < cost.Length ==> cost[k] == if g[k] == 0 then INT_MAX else g[k]
    ensures State(distance[..], visited[..], pred[..]) == Prepared(cost[..], n, start)
  {
    for i := 0 to n
      invariant forall k :: 0 <= k < Index(n, i, 0) && k < cost.Length ==> cost[k] == if g[k] == 0 then INT_MAX else g[k]
    {
      for j := 0 to n
        invariant forall k :: 0 <= k < Index(n, i, j) && k < cost.Length ==>
          cost[k] == if g[k] == 0 then INT_MAX else g[k]
      {
        IndexInside(n, i, j);
        cost[Index(n, i, j)] := if g[Index(n, i, j)] == 0 then INT_MAX else g[Index(n, i, j)];
      }
      assert Index(n, i, n) == Index(n, i + 1, 0);
    }
    assert Index(n, n, 0) == n * n;
    ghost var c := cost[..];
    for i := 0 to n
      invariant cost[..] == c
      invariant forall k :: 0 <= k < i ==> distance[k] == Cell(c, n, start, k) && pred[k] == start && !visited[k]
    {
      IndexInside(n, start, i);
      distance[i] := cost[Index(n, start, i)];
      pred[i] := start;
      visited[i] := false;
    }
    distance[start] := 0;
    visited[start] := true;
  }

  // ------------------------------------------------------------------------- correctness

  /** Every entry is the least weight of a walk from the start node. */
  ghost predicate Correct(s: State, cost: seq<int>, n: nat, start: nat)
    requires Shaped(s, n)
  {
    forall i: nat :: i < n ==> IsDistance(cost, n, start, i, s.distance[i])
  }

  predicate TreeEdge(s: State, cost: seq<int>, n: nat, i: nat)
    requires Shaped(s, n) && i < n
  {
    s.pred[i] < n && s.visited[s.pred[i]] && s.distance[i] == s.distance[s.pred[i]] + Cell(cost, n, s.pred[i], i)
  }

  /** Following `pred` leads to the start node over edges that make up the distance. */
  predicate Tree(s: State, cost: seq<int>, n: nat, start: nat)
    requires Shaped(s, n)
  {
    forall i: nat :: i < n && i != start ==> TreeEdge(s, cost, n, i)
  }

  ghost predicate Values(s: State, cost: seq<int>, n: nat, start: nat)
    requires Shaped(s, n)
  {
    forall i: nat :: i < n ==> ValueAt(s, cost, n, start, i)
  }

  /** The entry is the weight of some walk. */
  ghost predicate ValueAt(s: State, cost: seq<int>, n: nat, start: nat, i: nat)
    requires Shaped(s, n) && i < n
  {
    0 <= s.distance[i] <= INT_MAX && Achieved(cost, n, start, i, s.distance[i])
  }

  ghost predicate Settled(s: State, cost: seq<int>, n: nat, start: nat)
    requires Shaped(s, n)
  {
    forall v: nat :: v < n ==> SettledAt(s, cost, n, start, v)
  }

  ghost predicate SettledAt(s: State, cost: seq<int>, n: nat, start: nat, v: nat)
    requires Shaped(s, n) && v < n
  {
    s.visited[v] ==> IsDistance(cost, n, start, v, s.distance[v])
  }

  /** Open nodes are not nearer than visited ones, and every edge into them has been relaxed. */
  predicate Frontier(s: State, cost: seq<int>, n: nat)
    requires Shaped(s, n)
  {
    forall v: nat, u: nat :: v < n && u < n && s.visited[v] && !s.visited[u] ==>
      s.distance[v] <= s.distance[u] <= s.distance[v] + Cell(cost, n, v, u)
  }

  ghost predicate Invariant(s: State, cost: seq<int>, n: nat, start: nat)
  {
    && Shaped(s, n) && start < n && s.visited[start]
    && Values(s, cost, n, start) && Settled(s, cost, n, start) && Frontier(s, cost, n) && Tree(s, cost, n, start)
  }

  /** The open nodes are all at the greatest number: the search finds nothing any more. */
  predicate Exhausted(s: State, n: nat)
    requires Shaped(s, n)
  {
    forall i: nat :: i < n && !s.visited[i] ==> s.distance[i] == INT_MAX
  }

  lemma {:induction false} FirstOpen(s: State, n: nat, w: seq<nat>, a: nat, b: nat) returns (h: nat)
    requires Shaped(s, n) && Walk(n, w, a, b) && s.visited[a] && !s.visited[b]
    ensures 0 < h < |w| && s.visited[w[h - 1]] && !s.visited[w[h]]
  {
    h := 1;
    while s.visited[w[h]]
      invariant 0 < h < |w| && s.visited[w[h - 1]]
      decreases |w| - h
    {
      h := h + 1;
    }
  }

  /** The nearest open node is settled. */
  lemma NearestIsSettled(s: State, cost: seq<int>, n: nat, start: nat, i: nat)
    requires Costs(cost, n) && Invariant(s, cost, n, start) && i < n && !s.visited[i]
    requires forall x: nat :: x < n && !s.visited[x] ==> s.distance[i] <= s.distance[x]
    ensures IsDistance(cost, n, start, i, s.distance[i])
  {
    assert ValueAt(s, cost, n, start, i);
    forall w | Walk(n, w, start, i)
      ensures s.distance[i] <= Weight(cost, n, w)
    {
      var h := FirstOpen(s, n, w, start, i);
      WalkOverFrontier(s, cost, n, start, i, w, h);
    }
  }

  /** What a walk weighs at least: the way to position `h - 1`, and the edge from there. */
  lemma WalkWithStep(cost: seq<int>, n: nat, a: nat, b: nat, w: seq<nat>, h: nat)
    requires Costs(cost, n) && Walk(n, w, a, b) && 0 < h < |w|
    ensures Walk(n, w[..h], a, w[h - 1])
    ensures Weight(cost, n, w[..h]) + Cell(cost, n, w[h - 1], w[h]) <= Weight(cost, n, w)
  {
    WeightOfParts(cost, n, w, a, b, h - 1);
    var rest := w[h - 1..];
    assert rest[0] == w[h - 1] && rest[1] == w[h];
    assert Walk(n, rest[1..], w[h], b);
    WeightIsNonNegative(cost, n, rest[1..], w[h], b);
    assert Weight(cost, n, rest) == Cell(cost, n, w[h - 1], w[h]) + Weight(cost, n, rest[1..]);
  }

  lemma WalkOverFrontier(s: State, cost: seq<int>, n: nat, start: nat, i: nat, w: seq<nat>, h: nat)
    requires Costs(cost, n) && Invariant(s, cost, n, start) && i < n
    requires Walk(n, w, start, i) && 0 < h < |w| && s.visited[w[h - 1]] && !s.visited[w[h]]
    ensures s.distance[w[h]] <= Weight(cost, n, w)
  {
    WalkWithStep(cost, n, start, i, w, h);
    assert SettledAt(s, cost, n, start, w[h - 1]);
  }

  lemma EntriesInRange(s: State, cost: seq<int>, n: nat, start: nat)
    requires Invariant(s, cost, n, start)
    ensures forall i: nat :: i < n ==> 0 <= s.distance[i] <= INT_MAX
  {
    forall i: nat | i < n
      ensures 0 <= s.distance[i] <= INT_MAX
    {
      assert ValueAt(s, cost, n, start, i);
    }
  }

  /** What the search returns: an open node with the least distance, or, when the open nodes
      are exhausted, any node with the greatest number. */
  lemma NearestIsLeast(s: State, cost: seq<int>, n: nat, start: nat)
    requires Invariant(s, cost, n, start)
    ensures Nearest(s, n).1 < n && 0 <= Nearest(s, n).0 <= INT_MAX
    ensures forall x: nat :: x < n && !s.visited[x] ==> Nearest(s, n).0 <= s.distance[x]
    ensures if s.visited[Nearest(s, n).1] then Nearest(s, n).0 == INT_MAX && Exhausted(s, n)
      else s.distance[Nearest(s, n).1] == Nearest(s, n).0
  {
    EntriesInRange(s, cost, n, start);
    NearestIsNode(s, n, n);
  }

  lemma {:induction false} OfferFits(s: State, cost: seq<int>, n: nat, start: nat, i: nat)
    requires Costs(cost, n) && Invariant(s, cost, n, start) && !Wraps(s, cost, n)
    requires i < n && !s.visited[i] && i != Nearest(s, n).1
    ensures Nearest(s, n).1 < n
    ensures Offer(cost, n, Nearest(s, n).0, Nearest(s, n).1, i) ==
      Nearest(s, n).0 + Cell(cost, n, Nearest(s, n).1, i)
  {
    NearestIsLeast(s, cost, n, start);
  }

  /** What a round without a wrapped sum does to one open node `i` when it visits `u`. */
  predicate Updated(s: State, r: State, cost: seq<int>, n: nat, u: nat, i: nat)
    requires Shaped(s, n) && Shaped(r, n) && u < n && i < n
  {
    var through := s.distance[u] + Cell(cost, n, u, i);
    if through < s.distance[i] then r.distance[i] == through && r.pred[i] == u
    else r.distance[i] == s.distance[i] && r.pred[i] == s.pred[i]
  }

  predicate Visits(s: State, r: State, cost: seq<int>, n: nat, u: nat)
  {
    && Shaped(s, n) && Shaped(r, n) && u < n && !s.visited[u]
    && r.visited == s.visited[u := true]
    && (forall x: nat :: x < n && !s.visited[x] ==> s.distance[u] <= s.distance[x])
    && (forall i: nat :: i < n ==>
          if r.visited[i] then r.distance[i] == s.distance[i] && r.pred[i] == s.pred[i]
          else Updated(s, r, cost, n, u, i))
  }

  lemma RelaxVisits(s: State, cost: seq<int>, n: nat, m: int, u: nat)
    requires Shaped(s, n) && u < n && !s.visited[u] && s.distance[u] == m
    requires forall x: nat :: x < n && !s.visited[x] ==> m <= s.distance[x]
    requires forall i: nat :: i < n && !s.visited[i] && i != u ==>
      Offer(cost, n, m, u, i) == m + Cell(cost, n, u, i)
    ensures Visits(s, Relax(Visit(s, u), cost, n, m, u), cost, n, u)
  {
  }

  lemma VisitKeepsValues(s: State, r: State, cost: seq<int>, n: nat, start: nat, u: nat)
    requires Costs(cost, n) && Visits(s, r, cost, n, u) && Values(s, cost, n, start)
    ensures Values(r, cost, n, start)
  {
    forall i: nat | i < n
      ensures ValueAt(r, cost, n, start, i)
    {
      assert ValueAt(s, cost, n, start, i) && ValueAt(s, cost, n, start, u);
      if !r.visited[i] {
        AchievedByEdge(cost, n, u, i);
        AchievedByJoin(cost, n, start, u, i, s.distance[u], Cell(cost, n, u, i));
      }
    }
  }

  lemma VisitKeepsFrontier(s: State, r: State, cost: seq<int>, n: nat, u: nat)
    requires Costs(cost, n) && Visits(s, r, cost, n, u) && Frontier(s, cost, n)
    ensures Frontier(r, cost, n)
  {
    forall v: nat, i: nat | v < n && i < n && r.visited[v] && !r.visited[i]
      ensures r.distance[v] <= r.distance[i] <= r.distance[v] + Cell(cost, n, v, i)
    {
      assert Updated(s, r, cost, n, u, i);
      if v != u {
        assert s.distance[v] <= s.distance[u];
      }
    }
  }

  lemma VisitKeepsTree(s: State, r: State, cost: seq<int>, n: nat, start: nat, u: nat)
    requires Visits(s, r, cost, n, u) && Tree(s, cost, n, start)
    ensures Tree(r, cost, n, start)
  {
    forall i: nat | i < n && i != start
      ensures TreeEdge(r, cost, n, i)
    {
      assert TreeEdge(s, cost, n, i);
    }
  }

  lemma VisitKeepsSettled(s: State, r: State, cost: seq<int>, n: nat, start: nat, u: nat)
    requires Visits(s, r, cost, n, u) && Settled(s, cost, n, start)
    requires IsDistance(cost, n, start, u, s.distance[u])
    ensures Settled(r, cost, n, start)
  {
    forall v: nat | v < n
      ensures SettledAt(r, cost, n, start, v)
    {
      assert SettledAt(s, cost, n, start, v);
    }
  }

  /** A round without a wrapped sum that visits an open node. */
  lemma VisitKeeps(s: State, r: State, cost: seq<int>, n: nat, start: nat, u: nat)
    requires Costs(cost, n) && Invariant(s, cost, n, start) && Visits(s, r, cost, n, u)
    ensures Invariant(r, cost, n, start)
  {
    NearestIsSettled(s, cost, n, start, u);
    VisitKeepsValues(s, r, cost, n, start, u);
    VisitKeepsFrontier(s, r, cost, n, u);
    VisitKeepsTree(s, r, cost, n, start, u);
    VisitKeepsSettled(s, r, cost, n, start, u);
  }

  lemma {:induction false} NextKeeps(s: State, cost: seq<int>, n: nat, start: nat)
    requires Costs(cost, n) && Invariant(s, cost, n, start) && !Wraps(s, cost, n)
    ensures Invariant(Next(s, cost, n), cost, n, start)
    ensures Exhausted(s, n) ==> Exhausted(Next(s, cost, n), n)
  {
    var (m, u) := Nearest(s, n);
    NearestIsLeast(s, cost, n, start);
    forall i: nat | i < n && !s.visited[i] && i != u
      ensures Offer(cost, n, m, u, i) == m + Cell(cost, n, u, i)
    {
      OfferFits(s, cost, n, start, i);
    }
    if s.visited[u] {
      NothingChanges(s, cost, n, start, u);
    } else {
      RelaxVisits(s, cost, n, m, u);
      VisitKeeps(s, Next(s, cost, n), cost, n, start, u);
    }
  }

  lemma {:induction false} NothingChanges(s: State, cost: seq<int>, n: nat, start: nat, u: nat)
    requires Costs(cost, n) && Invariant(s, cost, n, start) && u < n && s.visited[u] && Exhausted(s, n)
    requires forall i: nat :: i < n && !s.visited[i] ==>
      Offer(cost, n, INT_MAX, u, i) == INT_MAX + Cell(cost, n, u, i)
    ensures Relax(Visit(s, u), cost, n, INT_MAX, u) == s
  {
    var r := Relax(Visit(s, u), cost, n, INT_MAX, u);
    assert r.visited == s.visited && r.distance == s.distance && r.pred == s.pred;
  }

  // --------------------------------------------------------------------------- all rounds

  function VisitedNodes(s: State, n: nat): set<nat>
    requires Shaped(s, n)
  {
    set i: nat | i < n && s.visited[i]
  }

  /** Each round visits one node more, unless the open nodes are exhausted. */
  ghost predicate Advanced(s: State, n: nat, rounds: nat)
    requires Shaped(s, n)
  {
    |VisitedNodes(s, n)| > rounds || Exhausted(s, n)
  }

  lemma {:induction false} NextAdvances(s: State, cost: seq<int>, n: nat, start: nat, rounds: nat)
    requires Costs(cost, n) && Invariant(s, cost, n, start) && !Wraps(s, cost, n) && Advanced(s, n, rounds)
    ensures Advanced(Next(s, cost, n), n, rounds + 1)
  {
    NextKeeps(s, cost, n, start);
    if !Exhausted(s, n) {
      NearestIsLeast(s, cost, n, start);
      var u := Nearest(s, n).1;
      assert VisitedNodes(Next(s, cost, n), n) == VisitedNodes(s, n) + {u};
    }
  }

  lemma {:induction false} PreparedIsInvariant(cost: seq<int>, n: nat, start: nat)
    requires Costs(cost, n) && start < n
    ensures Invariant(Prepared(cost, n, start), cost, n, start) && Advanced(Prepared(cost, n, start), n, 0)
  {
    var s := Prepared(cost, n, start);
    forall i: nat | i < n
      ensures ValueAt(s, cost, n, start, i)
    {
      AchievedByStaying(cost, n, start);
      AchievedByEdge(cost, n, start, i);
    }
    forall w | Walk(n, w, start, start)
      ensures 0 <= Weight(cost, n, w)
    {
      WeightIsNonNegative(cost, n, w, start, start);
    }
    assert ValueAt(s, cost, n, start, start) && SettledAt(s, cost, n, start, start);
    assert start in VisitedNodes(s, n);
  }

  lemma {:induction false} RunKeeps(cost: seq<int>, n: nat, start: nat, rounds: nat)
    requires Costs(cost, n) && start < n && NeverWraps(Prepared(cost, n, start), cost, n, rounds)
    ensures Invariant(Run(Prepared(cost, n, start), cost, n, rounds), cost, n, start)
    ensures Advanced(Run(Prepared(cost, n, start), cost, n, rounds), n, rounds)
  {
    if rounds == 0 {
      PreparedIsInvariant(cost, n, start);
    } else {
      RunKeeps(cost, n, start, rounds - 1);
      var s := Run(Prepared(cost, n, start), cost, n, rounds - 1);
      NextKeeps(s, cost, n, start);
      NextAdvances(s, cost, n, start, rounds - 1);
    }
  }

  /** With at most one open node left, or none that can be reached, every entry is right. */
  lemma AdvancedIsCorrect(s: State, cost: seq<int>, n: nat, start: nat, rounds: nat)
    requires Costs(cost, n) && Invariant(s, cost, n, start) && Advanced(s, n, rounds) && rounds + 2 >= n
    ensures Correct(s, cost, n, start)
  {
    forall i: nat | i < n
      ensures IsDistance(cost, n, start, i, s.distance[i])
    {
      assert SettledAt(s, cost, n, start, i);
      if !s.visited[i] {
        forall x: nat | x < n && !s.visited[x]
          ensures s.distance[i] <= s.distance[x]
        {
          if !Exhausted(s, n) && x != i {
            TwoOpen(s, n, i, x);
          }
        }
        NearestIsSettled(s, cost, n, start, i);
      }
    }
  }

  lemma TwoOpen(s: State, n: nat, a: nat, b: nat)
    requires Shaped(s, n) && a < n && b < n && a != b && !s.visited[a] && !s.visited[b]
    ensures |VisitedNodes(s, n)| + 2 <= n
  {
    var all := Numbers(n);
    assert VisitedNodes(s, n) <= all - {a, b};
    SubsetIsSmaller(VisitedNodes(s, n), all - {a, b});
  }

  function Numbers(n: nat): (r: set<nat>)
    ensures |r| == n && forall i: nat :: i in r <==> i < n
  {
    if n == 0 then {} else Numbers(n - 1) + {n - 1}
  }

  lemma {:induction false} SubsetIsSmaller(a: set<nat>, b: set<nat>)
    requires a <= b
    ensures |a| <= |b|
  {
    if a != {} {
      var x :| x in a;
      SubsetIsSmaller(a - {x}, b - {x});
    }
  }

  // ------------------------------------------------------------------- when a sum wraps

  ghost predicate SomeNegative(s: State, n: nat)
    requires Shaped(s, n)
  {
    exists i: nat :: i < n && s.distance[i] < 0
  }

  lemma {:induction false} WrapShows(s: State, cost: seq<int>, n: nat, start: nat)
    requires Costs(cost, n) && Invariant(s, cost, n, start) && Wraps(s, cost, n)
    ensures SomeNegative(Next(s, cost, n), n)
  {
    NearestIsLeast(s, cost, n, start);
    var (m, u) := Nearest(s, n);
    var i: nat :| i < n && !s.visited[i] && i != u && m + Cell(cost, n, u, i) > INT_MAX;
    RelaxShows(s, cost, n, m, u, i);
  }

  lemma RelaxShows(s: State, cost: seq<int>, n: nat, m: int, u: nat, i: nat)
    requires Shaped(s, n) && Costs(cost, n) && u < n && 0 <= m <= INT_MAX
    requires i < n && !s.visited[i] && i != u && m + Cell(cost, n, u, i) > INT_MAX
    ensures SomeNegative(Relax(Visit(s, u), cost, n, m, u), n)
  {
    assert Offer(cost, n, m, u, i) < 0;
    assert Relax(Visit(s, u), cost, n, m, u).distance[i] < 0;
  }

  lemma {:induction false} NegativeStays(s: State, cost: seq<int>, n: nat)
    requires Shaped(s, n) && n > 0 && SomeNegative(s, n)
    ensures SomeNegative(Next(s, cost, n), n)
  {
    var i: nat :| i < n && s.distance[i] < 0;
    assert Next(s, cost, n).distance[i] < 0;
  }

  lemma {:induction false} LastRound(first: State, cost: seq<int>, n: nat, rounds: nat)
    requires Shaped(first, n) && n > 0 && rounds > 0
    ensures NeverWraps(first, cost, n, rounds) <==>
      NeverWraps(first, cost, n, rounds - 1) && !Wraps(Run(first, cost, n, rounds - 1), cost, n)
  {
  }

  lemma {:induction false} RunShowsWrap(cost: seq<int>, n: nat, start: nat, rounds: nat)
    requires Costs(cost, n) && start < n && !NeverWraps(Prepared(cost, n, start), cost, n, rounds)
    ensures SomeNegative(Run(Prepared(cost, n, start), cost, n, rounds), n)
    decreases rounds, 1
  {
    if rounds > 0 {
      LastRound(Prepared(cost, n, start), cost, n, rounds);
      LastRoundShows(cost, n, start, rounds);
    }
  }

  lemma {:induction false} LastRoundShows(cost: seq<int>, n: nat, start: nat, rounds: nat)
    requires Costs(cost, n) && start < n && rounds > 0
    requires NeverWraps(Prepared(cost, n, start), cost, n, rounds - 1) ==>
      Wraps(Run(Prepared(cost, n, start), cost, n, rounds - 1), cost, n)
    ensures SomeNegative(Run(Prepared(cost, n, start), cost, n, rounds), n)
    decreases rounds, 0
  {
    var s := Run(Prepared(cost, n, start), cost, n, rounds - 1);
    if NeverWraps(Prepared(cost, n, start), cost, n, rounds - 1) {
      RunKeeps(cost, n, start, rounds - 1);
      WrapShows(s, cost, n, start);
    } else {
      RunShowsWrap(cost, n, start, rounds - 1);
      NegativeStays(s, cost, n);
    }
  }

  /** After all rounds the entries are the distances if and only if no sum has wrapped. */
  lemma {:induction false} CorrectIffNeverWraps(cost: seq<int>, n: nat, start: nat, rounds: nat)
    requires Costs(cost, n) && start < n && rounds == if n < 2 then 0 else n - 2
    ensures Correct(Run(Prepared(cost, n, start), cost, n, rounds), cost, n, start) <==>
      NeverWraps(Prepared(cost, n, start), cost, n, rounds)
  {
    var s := Run(Prepared(cost, n, start), cost, n, rounds);
    if NeverWraps(Prepared(cost, n, start), cost, n, rounds) {
      RunKeeps(cost, n, start, rounds);
      AdvancedIsCorrect(s, cost, n, start, rounds);
    } else {
      RunShowsWrap(cost, n, start, rounds);
      var i: nat :| i < n && s.distance[i] < 0;
      forall w | Walk(n, w, start, i)
        ensures Weight(cost, n, w) >= 0
      {
        WeightIsNonNegative(cost, n, w, start, i);
      }
      assert !IsDistance(cost, n, start, i, s.distance[i]);
    }
  }

  // -------------------------------------------------------------- which weights are safe

  lemma {:induction false} StartIsAtZero(s: State, cost: seq<int>, n: nat, start: nat)
    requires Invariant(s, cost, n, start)
    ensures s.distance[start] == 0
  {
    assert SettledAt(s, cost, n, start, start) && ValueAt(s, cost, n, start, start);
    assert Walk(n, [start], start, start) && Weight(cost, n, [start]) == 0;
  }

  predicate SmallCosts(cost: seq<int>, n: nat)
  {
    forall i: nat, j: nat :: i < n && j < n ==> Cell(cost, n, i, j) <= INT_MAX / 2
  }

  /** Costs of at most half the greatest number never wrap. */
  lemma {:induction false} SmallCostsNeverWrap(cost: seq<int>, n: nat, start: nat, rounds: nat)
    requires Costs(cost, n) && start < n
    requires SmallCosts(cost, n)
    ensures NeverWraps(Prepared(cost, n, start), cost, n, rounds)
  {
    if rounds > 0 {
      SmallCostsNeverWrap(cost, n, start, rounds - 1);
      SmallCostsFitNext(cost, n, start, rounds - 1);
      LastRound(Prepared(cost, n, start), cost, n, rounds);
    }
  }

  lemma {:induction false} SmallCostsFitNext(cost: seq<int>, n: nat, start: nat, rounds: nat)
    requires Costs(cost, n) && start < n && NeverWraps(Prepared(cost, n, start), cost, n, rounds)
    requires SmallCosts(cost, n)
    ensures !Wraps(Run(Prepared(cost, n, start), cost, n, rounds), cost, n)
  {
    RunKeeps(cost, n, start, rounds);
    SmallCostsFit(Run(Prepared(cost, n, start), cost, n, rounds), cost, n, start);
  }

  lemma {:induction false} SmallCostsFit(s: State, cost: seq<int>, n: nat, start: nat)
    requires Costs(cost, n) && Invariant(s, cost, n, start)
    requires SmallCosts(cost, n)
    ensures !Wraps(s, cost, n)
  {
    NearestIsLeast(s, cost, n, start);
    StartIsAtZero(s, cost, n, start);
    forall i: nat | i < n && !s.visited[i]
      ensures Nearest(s, n).0 <= INT_MAX / 2
    {
      assert s.distance[i] <= s.distance[start] + Cell(cost, n, start, i);
    }
  }

  /** The graph the host builds: edges of cost 1 between different nodes of equal parity, and
      the greatest number for all other pairs. */
  predicate HostCosts(cost: seq<int>, n: nat)
  {
    Square(cost, n) && forall i: nat, j: nat :: i < n && j < n ==>
      Cell(cost, n, i, j) == if i != j && (i + j) % 2 == 0 then 1 else INT_MAX
  }

  lemma {:induction false} HostNearest(cost: seq<int>, n: nat, k: nat)
    requires HostCosts(cost, n) && 3 <= k <= n
    ensures Nearest(Prepared(cost, n, 0), k) == (1, 2)
  {
    if k > 3 {
      HostNearest(cost, n, k - 1);
    } else {
      HostNearestOfThree(cost, n);
    }
  }

  lemma {:induction false} HostNearestOfThree(cost: seq<int>, n: nat)
    requires HostCosts(cost, n) && 3 <= n
    ensures Nearest(Prepared(cost, n, 0), 3) == (1, 2)
  {
    var s := Prepared(cost, n, 0);
    assert Nearest(s, 0) == (INT_MAX, 0);
    assert Nearest(s, 1) == (INT_MAX, 0);
    assert Nearest(s, 2) == (INT_MAX, 0);
  }

  /** On the host's own graph, for every size from 3 on, the first round already adds 1 to the
      greatest number, and the result is not the distances. */
  lemma {:induction false} HostGraphWraps(cost: seq<int>, n: nat)
    requires HostCosts(cost, n) && n >= 3
    ensures !Correct(Run(Prepared(cost, n, 0), cost, n, n - 2), cost, n, 0)
  {
    var s := Prepared(cost, n, 0);
    HostNearest(cost, n, n);
    assert Cell(cost, n, 2, 1) == INT_MAX && !s.visited[1];
    assert Wraps(s, cost, n);
    assert Run(s, cost, n, 0) == s;
    assert !NeverWraps(s, cost, n, n - 2);
    CorrectIffNeverWraps(cost, n, 0, n - 2);
  }

  /** What the rounds leave on the host's graph: the odd nodes at the least number, because 1 plus
      the greatest number wraps, and then the even ones at the sum of the two, -1. */
  predicate HostEntry(d: int, i: nat, rounds: nat)
  {
    if i == 0 then d == 0
    else if i == 2 then d == 1
    else if i % 2 == 1 then d == -0x8000_0000
    else d == if rounds == 1 then 1 else -1
  }

  predicate HostState(s: State, n: nat, rounds: nat)
  {
    && Shaped(s, n) && n >= 3 && s.visited[0] && s.visited[2]
    && (forall i: nat :: i < n ==> HostEntry(s.distance[i], i, rounds))
    && (rounds == 1 ==> forall i: nat :: i < n && s.visited[i] ==> i == 0 || i == 2)
  }

  lemma {:induction false} HostFirstRound(cost: seq<int>, n: nat)
    requires HostCosts(cost, n) && n >= 3
    ensures HostState(Next(Prepared(cost, n, 0), cost, n), n, 1)
  {
    var s := Prepared(cost, n, 0);
    HostNearest(cost, n, n);
    var r := Next(s, cost, n);
    forall i: nat | i < n
      ensures HostEntry(r.distance[i], i, 1)
    {
      assert Cell(cost, n, 2, i) == if i != 2 && i % 2 == 0 then 1 else INT_MAX;
    }
  }

  /** The node searched for is odd, or all open nodes are even. */
  lemma {:induction false} HostNextNearest(s: State, n: nat, rounds: nat)
    requires HostState(s, n, rounds) && (rounds == 1 ==> n >= 4)
    ensures Nearest(s, n).1 < n
    ensures Nearest(s, n).1 % 2 == 1 ==> Nearest(s, n).0 == -0x8000_0000
    ensures Nearest(s, n).1 % 2 == 0 ==> rounds != 1 && forall i: nat :: i < n && !s.visited[i] ==>
      Nearest(s, n) == (-1, Nearest(s, n).1) && i % 2 == 0
    ensures s.visited[Nearest(s, n).1] ==> forall i: nat :: i < n ==> s.visited[i]
  {
    NearestIsNode(s, n, n);
    var (m, u) := Nearest(s, n);
    assert HostEntry(s.distance[u], u, rounds);
    forall i: nat | i < n && !s.visited[i]
      ensures m <= s.distance[i] < INT_MAX
    {
      assert HostEntry(s.distance[i], i, rounds);
    }
    if rounds == 1 {
      assert HostEntry(s.distance[1], 1, rounds);
    }
    forall i: nat | u % 2 == 0 && i < n && !s.visited[i]
      ensures m == -1 && i % 2 == 0
    {
      assert HostEntry(s.distance[i], i, rounds);
    }
  }

  lemma {:induction false} HostNextRound(s: State, cost: seq<int>, n: nat, rounds: nat)
    requires HostCosts(cost, n) && HostState(s, n, rounds) && rounds >= 1 && (rounds == 1 ==> n >= 4)
    ensures HostState(Next(s, cost, n), n, rounds + 1)
  {
    HostNextNearest(s, n, rounds);
    var (m, u) := Nearest(s, n);
    var r := Next(s, cost, n);
    forall i: nat | i < n
      ensures HostEntry(r.distance[i], i, rounds + 1)
    {
      assert HostEntry(s.distance[i], i, rounds);
      HostCell(cost, n, u, i);
      if i != u && !s.visited[i] {
        assert s.visited[u] || (u % 2 == 1 && m == -0x8000_0000) || (m == -1 && i % 2 == 0 && u % 2 == 0 && rounds != 1);
      }
    }
  }

  lemma HostCell(cost: seq<int>, n: nat, u: nat, i: nat)
    requires HostCosts(cost, n) && u < n && i < n
    ensures Cell(cost, n, u, i) == if u != i && (u % 2 == i % 2) then 1 else INT_MAX
  {
  }

  lemma {:induction false} HostRounds(cost: seq<int>, n: nat, rounds: nat)
    requires HostCosts(cost, n) && n >= 3 && 1 <= rounds <= n - 2
    ensures HostState(Run(Prepared(cost, n, 0), cost, n, rounds), n, rounds)
  {
    var s := Prepared(cost, n, 0);
    if rounds == 1 {
      HostFirstRound(cost, n);
      assert Run(s, cost, n, 0) == s;
    } else {
      HostRounds(cost, n, rounds - 1);
      HostNextRound(Run(s, cost, n, rounds - 1), cost, n, rounds - 1);
    }
  }

  /** The entries the kernel leaves on the host's graph, for every size from 3 on. */
  lemma {:induction false} HostGraphDistances(cost: seq<int>, n: nat)
    requires HostCosts(cost, n) && n >= 3
    ensures Run(Prepared(cost, n, 0), cost, n, n - 2).distance ==
      seq(n, i => if i == 0 then 0 else if i == 2 then 1 else if i % 2 == 1 then -0x8000_0000 else -1)
  {
    HostRounds(cost, n, n - 2);
    var r := Run(Prepared(cost, n, 0), cost, n, n - 2);
    forall i: nat | i < n
      ensures r.distance[i] == if i == 0 then 0 else if i == 2 then 1 else if i % 2 == 1 then -0x8000_0000 else -1
    {
      assert HostEntry(r.distance[i], i, n - 2);
    }
  }
}
