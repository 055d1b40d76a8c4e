module Cfg {
  // Control-flow graphs of a function, and two searches over them: reachability inside a loop
  // body without taking the back edge, and the enumeration of all paths to the loop latch.

  /** Blocks are numbers; `headers` are the loop headers of the function. */
  datatype Graph = Graph(succ: map<nat, seq<nat>>, headers: set<nat>)

  ghost predicate Closed(g: Graph)
  {
    forall b, s :: b in g.succ && s in g.succ[b] ==> s in g.succ
  }

  ghost predicate Edge(g: Graph, b: nat, s: nat)
  {
    b in g.succ && s in g.succ[b]
  }

  ghost predicate IsPath(g: Graph, p: seq<nat>)
  {
    && p != []
    && forall i :: 0 <= i < |p| - 1 ==> Edge(g, p[i], p[i + 1])
  }

  // -------------------------------------------------------- reachability without back edge

  /** A path from `from` to `to` that does not pass through the latch. */
  ghost predicate Avoiding(g: Graph, p: seq<nat>, from: nat, to: nat, latch: nat)
  {
    && IsPath(g, p) && p[0] == from && p[|p| - 1] == to
    && forall i :: 0 <= i < |p| - 1 ==> p[i] != latch
  }

  ghost predicate Reaches(g: Graph, from: nat, to: nat, latch: nat)
  {
    exists p :: Avoiding(g, p, from, to, latch)
  }

  /** What isReachableWithinLoop decides: the latch counts as reachable from everywhere. */
  ghost predicate ReachableWithinLoop(g: Graph, from: nat, to: nat, latch: nat)
  {
    to == latch || Reaches(g, from, to, latch)
  }

  lemma ReachesExtends(g: Graph, from: nat, b: nat, s: nat, latch: nat)
    requires Reaches(g, from, b, latch) && b != latch && Edge(g, b, s)
    ensures Reaches(g, from, s, latch)
  {
    var p :| Avoiding(g, p, from, b, latch);
    assert Avoiding(g, p + [s], from, s, latch);
  }

  /** A set closed under the successors of all its blocks but the latch holds the end of
      every path that starts in it. */
  lemma {:induction false} StaysInside(g: Graph, inside: set<nat>, p: seq<nat>, from: nat, to: nat, latch: nat)
    requires from in inside && Avoiding(g, p, from, to, latch)
    requires forall b, s :: b in inside && b != latch && Edge(g, b, s) ==> s in inside
    ensures to in inside
    decreases |p|
  {
    if |p| > 1 {
      assert Edge(g, p[0], p[0 + 1]);
      var rest := p[1..];
      forall i | 0 <= i < |rest| - 1
        ensures Edge(g, rest[i], rest[i + 1]) && rest[i] != latch
      {
        assert rest[i] == p[i + 1] && rest[i + 1] == p[i + 1 + 1];
      }
      StaysInside(g, inside, rest, p[1], to, latch);
    }
  }

  /** The worklist search.  `seen` holds, besides the visited blocks, the latch once it has
      been taken from the list. */
  method IsReachableWithinLoop(g: Graph, from: nat, to: nat, latch: nat) returns (reachable: bool)
    requires Closed(g) && from in g.succ
    ensures reachable <==> ReachableWithinLoop(g, from, to, latch)
  {
    if latch == to {
      return true;
    }
    var visited: set<nat> := {};
    var worklist := [from];
    ghost var seen: set<nat> := {};
    assert Avoiding(g, [from], from, from, latch);
    while worklist != []
      invariant forall b :: b in worklist ==> b in g.succ && Reaches(g, from, b, latch)
      invariant visited <= seen && visited <= g.succ.Keys && to !in seen
      invariant seen <= visited + {latch} && latch !in visited
      invariant from in seen || from in worklist
      invariant forall b, s :: b in visited && Edge(g, b, s) ==> s in seen || s in worklist
      decreases g.succ.Keys - visited, |worklist|
    {
      var current := worklist[|worklist| - 1];
      worklist := worklist[..|worklist| - 1];
      if current == to {
        return true;
      }
      seen := seen + {current};
      if current == latch {
        continue;
      }
      if current !in visited {
        visited := visited + {current};
        forall s | s in g.succ[current]
          ensures s in g.succ && Reaches(g, from, s, latch)
        {
          ReachesExtends(g, from, current, s, latch);
        }
        worklist := worklist + g.succ[current];
      }
    }
    if Reaches(g, from, to, latch) {
      var p :| Avoiding(g, p, from, to, latch);
      StaysInside(g, seen, p, from, to, latch);
      assert false;
    }
    return false;
  }

  // ------------------------------------------------------------ all paths to the latch

  /** A path from `start` that enters no loop header and has not yet reached `stop`, or has
      just reached it. */
  ghost predicate Partial(g: Graph, p: seq<nat>, start: nat, stop: nat)
  {
    && IsPath(g, p) && p[0] == start
    && (forall i :: 1 <= i < |p| ==> p[i] !in g.headers)
    && (forall i :: 0 <= i < |p| - 1 ==> p[i] != stop)
  }

  ghost predicate Complete(g: Graph, p: seq<nat>, start: nat, stop: nat)
  {
    Partial(g, p, start, stop) && p[|p| - 1] == stop
  }

  /** Acyclic apart from headers: `rank` goes down along every edge that the enumeration
      follows. */
  ghost predicate Ranked(g: Graph, stop: nat, rank: nat -> nat)
  {
    forall b, s :: Edge(g, b, s) && b != stop && s !in g.headers ==> rank(s) < rank(b)
  }

  /** How many partial paths continue one that ends in `b`, itself included: the measure of
      the enumeration. */
  ghost function Continuations(g: Graph, stop: nat, rank: nat -> nat, b: nat): nat
    requires Ranked(g, stop, rank)
    decreases rank(b), 1, 0
  {
    if b == stop || b !in g.succ then 1 else 1 + ContinuationsOf(g, stop, rank, b, |g.succ[b]|)
  }

  ghost function ContinuationsOf(g: Graph, stop: nat, rank: nat -> nat, b: nat, n: nat): nat
    requires Ranked(g, stop, rank) && b != stop && b in g.succ && n <= |g.succ[b]|
    decreases rank(b), 0, n
  {
    if n == 0 then 0
    else
      var s := g.succ[b][n - 1];
      assert Edge(g, b, s);
      (if s in g.headers then 0 else Continuations(g, stop, rank, s)) + ContinuationsOf(g, stop, rank, b, n - 1)
  }

  ghost function QueueMeasure(g: Graph, stop: nat, rank: nat -> nat, queue: seq<seq<nat>>): nat
    requires Ranked(g, stop, rank)
  {
    if queue == [] then 0
    else
      PathMeasure(g, stop, rank, queue[0]) + QueueMeasure(g, stop, rank, queue[1..])
  }

  ghost function PathMeasure(g: Graph, stop: nat, rank: nat -> nat, p: seq<nat>): nat
    requires Ranked(g, stop, rank)
  {
    if p == [] then 0 else Continuations(g, stop, rank, p[|p| - 1])
  }

  lemma {:induction false} MeasureConcat(g: Graph, stop: nat, rank: nat -> nat, queue: seq<seq<nat>>, more: seq<seq<nat>>)
    requires Ranked(g, stop, rank)
    ensures QueueMeasure(g, stop, rank, queue + more) == QueueMeasure(g, stop, rank, queue) + QueueMeasure(g, stop, rank, more)
  {
    if queue == [] {
      assert queue + more == more;
    } else {
      assert (queue + more)[1..] == queue[1..] + more;
      assert (queue + more)[0] == queue[0];
      MeasureConcat(g, stop, rank, queue[1..], more);
    }
  }

  /** Some path in the queue is a beginning of `p`. */
  ghost predicate Begun(queue: seq<seq<nat>>, p: seq<nat>)
  {
    exists i :: 0 <= i < |queue| && queue[i] <= p
  }

  /** Every partial path of the queue can go on. */
  ghost predicate AllPartial(g: Graph, queue: seq<seq<nat>>, start: nat, stop: nat)
  {
    forall i :: 0 <= i < |queue| ==> Extensible(g, queue[i], start, stop)
  }

  ghost predicate Extensible(g: Graph, p: seq<nat>, start: nat, stop: nat)
  {
    Partial(g, p, start, stop) && p[|p| - 1] in g.succ
  }

  /** No complete path goes on behind another. */
  lemma CompleteIsMaximal(g: Graph, p: seq<nat>, q: seq<nat>, start: nat, stop: nat)
    requires Complete(g, p, start, stop) && Partial(g, q, start, stop) && p <= q
    ensures p == q
  {
    assert q[|p| - 1] == stop;
  }

  /** The paths that continue `current` by one block, header blocks left out. */
  function Successors(g: Graph, current: seq<nat>, n: nat): (r: seq<seq<nat>>)
    requires current != [] && current[|current| - 1] in g.succ && n <= |g.succ[current[|current| - 1]]|
  {
    if n == 0 then []
    else
      Successors(g, current, n - 1) + Longer(g, current, g.succ[current[|current| - 1]][n - 1])
  }

  function Longer(g: Graph, current: seq<nat>, s: nat): seq<seq<nat>>
  {
    if s in g.headers then [] else [current + [s]]
  }

  lemma {:induction false} SuccessorsArePartial(g: Graph, current: seq<nat>, n: nat, start: nat, stop: nat)
    requires Closed(g) && Extensible(g, current, start, stop) && current[|current| - 1] != stop
    requires n <= |g.succ[current[|current| - 1]]|
    ensures AllPartial(g, Successors(g, current, n), start, stop)
  {
    if n > 0 {
      SuccessorsArePartial(g, current, n - 1, start, stop);
      var s := g.succ[current[|current| - 1]][n - 1];
      var longer := current + [s];
      assert Edge(g, current[|current| - 1], s);
      if s !in g.headers {
        forall i | 0 <= i < |longer| - 1
          ensures Edge(g, longer[i], longer[i + 1]) && longer[i] != stop
        {
        }
        assert Extensible(g, longer, start, stop);
      }
    }
  }

  /** Every complete path that begins with `current` begins with one of its continuations. */
  lemma SuccessorsCover(g: Graph, current: seq<nat>, p: seq<nat>, start: nat, stop: nat)
    requires Extensible(g, current, start, stop) && current[|current| - 1] != stop
    requires Complete(g, p, start, stop) && current <= p
    ensures Begun(Successors(g, current, |g.succ[current[|current| - 1]]|), p)
  {
    var i := |current| - 1;
    assert Edge(g, p[i], p[i + 1]);
    var h :| 0 <= h < |g.succ[p[i]]| && g.succ[p[i]][h] == p[i + 1];
    assert current + [p[i + 1]] == p[..i + 2];
    SuccessorsHolds(g, current, |g.succ[p[i]]|, h);
  }

  lemma {:induction false} SuccessorsHolds(g: Graph, current: seq<nat>, n: nat, h: nat)
    requires current != [] && current[|current| - 1] in g.succ && h < n <= |g.succ[current[|current| - 1]]|
    requires g.succ[current[|current| - 1]][h] !in g.headers
    ensures current + [g.succ[current[|current| - 1]][h]] in Successors(g, current, n)
  {
    if h < n - 1 {
      SuccessorsHolds(g, current, n - 1, h);
    }
  }

  lemma {:induction false} SuccessorsMeasure(g: Graph, stop: nat, rank: nat -> nat, current: seq<nat>, n: nat)
    requires Ranked(g, stop, rank) && current != [] && current[|current| - 1] in g.succ
    requires current[|current| - 1] != stop && n <= |g.succ[current[|current| - 1]]|
    ensures QueueMeasure(g, stop, rank, Successors(g, current, n)) ==
      ContinuationsOf(g, stop, rank, current[|current| - 1], n)
  {
    if n > 0 {
      var s := g.succ[current[|current| - 1]][n - 1];
      SuccessorsMeasure(g, stop, rank, current, n - 1);
      MeasureConcat(g, stop, rank, Successors(g, current, n - 1), Longer(g, current, s));
      LongerMeasure(g, stop, rank, current, s);
    }
  }

  lemma {:induction false} LongerMeasure(g: Graph, stop: nat, rank: nat -> nat, current: seq<nat>, s: nat)
    requires Ranked(g, stop, rank)
    ensures QueueMeasure(g, stop, rank, Longer(g, current, s)) ==
      if s in g.headers then 0 else Continuations(g, stop, rank, s)
  {
    if s !in g.headers {
      var longer := current + [s];
      var queue: seq<seq<nat>> := [longer];
      assert queue[1..] == [];
      assert QueueMeasure(g, stop, rank, queue) == PathMeasure(g, stop, rank, longer);
    }
  }

  /** Taking a path out of the queue and putting its continuations in. */
  lemma {:induction false} MeasureFalls(g: Graph, stop: nat, rank: nat -> nat, before: seq<seq<nat>>, current: seq<nat>)
    requires Ranked(g, stop, rank) && before != [] && current == before[0] && current != []
    requires current[|current| - 1] in g.succ && current[|current| - 1] != stop
    ensures QueueMeasure(g, stop, rank, before[1..] + Successors(g, current, |g.succ[current[|current| - 1]]|)) <
      QueueMeasure(g, stop, rank, before)
  {
    var n := |g.succ[current[|current| - 1]]|;
    SuccessorsMeasure(g, stop, rank, current, n);
    MeasureConcat(g, stop, rank, before[1..], Successors(g, current, n));
  }

  lemma BegunConcat(a: seq<seq<nat>>, b: seq<seq<nat>>, p: seq<nat>)
    requires Begun(a, p) || Begun(b, p)
    ensures Begun(a + b, p)
  {
    if Begun(a, p) {
      var i :| 0 <= i < |a| && a[i] <= p;
      assert (a + b)[i] <= p;
    } else {
      var i :| 0 <= i < |b| && b[i] <= p;
      assert (a + b)[|a| + i] <= p;
    }
  }

  /** A complete path is already collected, or some path in the queue is its beginning. */
  ghost predicate Awaited(paths: seq<seq<nat>>, queue: seq<seq<nat>>, p: seq<nat>)
  {
    p in paths || Begun(queue, p)
  }

  /** The enumeration: a queue of partial paths, each replaced by its continuations until it
      stands at `stop`. */
  method AllBlockPaths(g: Graph, start: nat, stop: nat, ghost rank: nat -> nat) returns (paths: seq<seq<nat>>)
    requires Closed(g) && start in g.succ && Ranked(g, stop, rank)
    ensures forall p :: p in paths <==> Complete(g, p, start, stop)
  {
    paths := [];
    var queue := [[start]];
    assert forall p :: Complete(g, p, start, stop) ==> queue[0] <= p;
    while queue != []
      invariant AllPartial(g, queue, start, stop)
      invariant forall p :: p in paths ==> Complete(g, p, start, stop)
      invariant forall p :: Complete(g, p, start, stop) ==> Awaited(paths, queue, p)
      decreases QueueMeasure(g, stop, rank, queue)
    {
      var current := queue[0];
      ghost var before, found := queue, paths;
      queue := queue[1..];
      assert Extensible(g, current, start, stop);
      if current[|current| - 1] == stop {
        paths := paths + [current];
        forall p | Complete(g, p, start, stop)
          ensures Awaited(paths, queue, p)
        {
          assert Awaited(found, before, p);
          if p !in found {
            if current <= p {
              CompleteIsMaximal(g, current, p, start, stop);
            }
          }
        }
      } else {
        ghost var rest := queue;
        queue := Continue(g, queue, current);
        ghost var longer := Successors(g, current, |g.succ[current[|current| - 1]]|);
        SuccessorsArePartial(g, current, |g.succ[current[|current| - 1]]|, start, stop);
        MeasureFalls(g, stop, rank, before, current);
        forall p | Complete(g, p, start, stop)
          ensures Awaited(paths, queue, p)
        {
          assert Awaited(found, before, p);
          if p !in found {
            if current <= p {
              SuccessorsCover(g, current, p, start, stop);
            }
            BegunConcat(rest, longer, p);
          }
        }
      }
    }
  }

  method Continue(g: Graph, queue: seq<seq<nat>>, current: seq<nat>) returns (longer: seq<seq<nat>>)
    requires current != [] && current[|current| - 1] in g.succ
    ensures longer == queue + Successors(g, current, |g.succ[current[|current| - 1]]|)
  {
    longer := queue;
    var frontier := current[|current| - 1];
    for n := 0 to |g.succ[frontier]|
      invariant longer == queue + Successors(g, current, n)
    {
      var s := g.succ[frontier][n];
      if s !in g.headers {
        longer := longer + [current + [s]];
      }
    }
  }
}
