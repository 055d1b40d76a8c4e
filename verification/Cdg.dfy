module Cdg {
  // The control dependence graph.  The edges are computed with a test on the successors of a
  // block; what they are meant to say is a statement about paths.

  import opened Arrivals
  import opened Cfg

  /** A function body: its graph and its only exit. */
  datatype Body = Body(g: Graph, entry: nat, exit: nat)

  ghost predicate Route(f: Body, p: seq<nat>, a: nat, b: nat)
  {
    IsPath(f.g, p) && p[0] == a && p[|p| - 1] == b
  }

  /** Every way from `a` to the exit passes `b`. */
  ghost predicate PostDominates(f: Body, b: nat, a: nat)
  {
    forall p :: Route(f, p, a, f.exit) ==> b in p
  }

  ghost predicate Exits(f: Body, a: nat)
  {
    exists p :: Route(f, p, a, f.exit)
  }

  /** Edges stay among the blocks, and every block reaches the exit. */
  ghost predicate Normal(f: Body)
  {
    Closed(f.g) && f.entry in f.g.succ && forall a :: a in f.g.succ ==> Exits(f, a)
  }

  /** The test of the compiler. */
  ghost predicate IsControlDependent(f: Body, b: nat, a: nat)
  {
    && !(a != b && PostDominates(f, b, a))
    && exists s :: Edge(f.g, a, s) && PostDominates(f, b, s)
  }

  /** The definition: control can run from `a` to `b` so that `b` is settled right after `a`,
      although it is not settled at `a`. */
  ghost predicate DependsByPath(f: Body, b: nat, a: nat)
  {
    && !(a != b && PostDominates(f, b, a))
    && exists p :: SettledOnTheWay(f, p, b, a)
  }

  ghost predicate SettledOnTheWay(f: Body, p: seq<nat>, b: nat, a: nat)
  {
    && Route(f, p, a, b) && |p| > 1
    && forall n :: n in p && n != a && n != b ==> PostDominates(f, b, n)
  }

  lemma RouteStep(f: Body, a: nat, s: nat, b: nat, p: seq<nat>)
    requires Edge(f.g, a, s) && Route(f, p, s, b)
    ensures Route(f, [a] + p, a, b)
  {
    assert IsPath(f.g, [a, s]);
    assert [a, s] + p[1..] == [a] + p;
  }

  /** The first time a route meets a block it holds. */
  lemma {:induction false} FirstMeeting(p: seq<nat>, b: nat) returns (i: nat)
    requires b in p
    ensures i < |p| && p[i] == b && b !in p[..i]
  {
    if p[0] == b {
      i := 0;
    } else {
      i := FirstMeeting(p[1..], b);
      assert p[1..][..i] == p[1..i + 1];
      assert p[..i + 1] == [p[0]] + p[1..i + 1];
      i := i + 1;
    }
  }

  lemma {:induction false} LastMeeting(p: seq<nat>, a: nat) returns (i: nat)
    requires a in p
    ensures i < |p| && p[i] == a && a !in p[i + 1..]
  {
    if a in p[1..] {
      i := LastMeeting(p[1..], a);
      assert p[1..][i + 1..] == p[i + 2..];
      i := i + 1;
    } else {
      i := 0;
    }
  }

  /** Before the first meeting, what post-dominates the start post-dominates every block. */
  lemma DominatedBefore(f: Body, p: seq<nat>, s: nat, b: nat, i: nat)
    requires Route(f, p, s, f.exit) && PostDominates(f, b, s) && i < |p| && b !in p[..i + 1]
    ensures PostDominates(f, b, p[i])
  {
    forall q | Route(f, q, p[i], f.exit)
      ensures b in q
    {
      assert b in p[..i + 1] + q[1..];
    }
  }

  /** From a block that `b` post-dominates, control runs to `b` among such blocks only. */
  lemma DominatedRoute(f: Body, s: nat, b: nat) returns (p: seq<nat>)
    requires Exits(f, s) && PostDominates(f, b, s)
    ensures Route(f, p, s, b) && forall n :: n in p ==> PostDominates(f, b, n)
  {
    var w :| Route(f, w, s, f.exit);
    var i := FirstMeeting(w, b);
    p := w[..i + 1];
    forall n | n in p
      ensures PostDominates(f, b, n)
    {
      var h :| 0 <= h < |p| && p[h] == n;
      if h < i {
        assert forall k :: 0 <= k < h + 1 ==> w[..h + 1][k] == w[..i][k];
        DominatedBefore(f, w, s, b, h);
      }
    }
  }

  /** The test on successors and the definition by paths agree on every pair of blocks. */
  lemma TestMatchesDefinition(f: Body, b: nat, a: nat)
    requires Normal(f)
    ensures IsControlDependent(f, b, a) <==> DependsByPath(f, b, a)
  {
    if IsControlDependent(f, b, a) {
      var s :| Edge(f.g, a, s) && PostDominates(f, b, s);
      var p := DominatedRoute(f, s, b);
      RouteStep(f, a, s, b, p);
      assert SettledOnTheWay(f, [a] + p, b, a);
    }
    if DependsByPath(f, b, a) {
      var p :| SettledOnTheWay(f, p, b, a);
      if a == b {
        assert Edge(f.g, p[0], p[0 + 1]);
        assert PostDominates(f, b, p[1]);
      } else {
        var i := LastMeeting(p, a);
        assert Edge(f.g, p[i], p[i + 1]);
        assert p[i + 1] == p[i + 1..][0];
        assert PostDominates(f, b, p[i + 1]);
      }
    }
  }

  /** The definition with post-dominance taken literally, so that a block is not control
      dependent on itself. */
  ghost predicate DependsLiterally(f: Body, b: nat, a: nat)
  {
    !PostDominates(f, b, a) && exists p :: SettledOnTheWay(f, p, b, a)
  }

  /** The test yields exactly the literal dependences and, besides, those of a block on itself. */
  lemma TestMatchesLiteralDefinition(f: Body, b: nat, a: nat)
    requires Normal(f)
    ensures DependsLiterally(f, b, a) <==> IsControlDependent(f, b, a) && a != b
  {
    TestMatchesDefinition(f, b, a);
    assert PostDominates(f, a, a) by {
      assert forall p :: Route(f, p, a, f.exit) ==> p[0] in p;
    }
  }

  /** A block that loops to itself before it leads to the exit. */
  const LOOP := Body(Graph(map[0 := [0, 1], 1 := []], {0}), 0, 1)

  lemma LoopDependsOnItself()
    ensures Normal(LOOP) && IsControlDependent(LOOP, 0, 0) && !DependsLiterally(LOOP, 0, 0)
  {
    assert Route(LOOP, [0, 1], 0, 1) && Route(LOOP, [1], 1, 1);
    assert Edge(LOOP.g, 0, 0);
    TestMatchesLiteralDefinition(LOOP, 0, 0);
    assert forall p :: Route(LOOP, p, 0, 1) ==> p[0] in p;
  }

  // --------------------------------------------------------------- blocks on the root

  ghost predicate Reached(f: Body, a: nat, b: nat)
  {
    exists p :: Route(f, p, a, b)
  }

  ghost predicate OnRoot(f: Body, b: nat)
  {
    forall a :: a in f.g.succ ==> !IsControlDependent(f, b, a)
  }

  /** Some edge lies on a cycle through `b`. */
  ghost predicate OnCycle(f: Body, b: nat)
  {
    exists s :: Edge(f.g, b, s) && Reached(f, s, b)
  }

  /** Walking to a block on the root, every block passed is post-dominated by it. */
  lemma {:induction false} RootDominates(f: Body, b: nat, p: seq<nat>, a: nat)
    requires Normal(f) && a in f.g.succ && OnRoot(f, b) && Route(f, p, a, b)
    ensures PostDominates(f, b, a)
    decreases |p|
  {
    if |p| > 1 {
      assert Edge(f.g, p[0], p[0 + 1]);
      RootDominates(f, b, p[1..], p[1]);
      assert !IsControlDependent(f, b, a);
    } else {
      assert forall q :: Route(f, q, a, f.exit) ==> q[0] in q;
    }
  }

  /** Exactly those blocks hang on the root that post-dominate every block from which they can
      be reached and that lie on no cycle. */
  lemma RootIffDominatesAll(f: Body, b: nat)
    requires Normal(f) && b in f.g.succ
    ensures OnRoot(f, b) <==>
      !OnCycle(f, b) && forall a :: a in f.g.succ && Reached(f, a, b) ==> PostDominates(f, b, a)
  {
    if OnRoot(f, b) {
      forall a | a in f.g.succ && Reached(f, a, b)
        ensures PostDominates(f, b, a)
      {
        var p :| Route(f, p, a, b);
        RootDominates(f, b, p, a);
      }
      forall s | Edge(f.g, b, s)
        ensures !Reached(f, s, b)
      {
        assert !IsControlDependent(f, b, b);
      }
    }
    if !OnCycle(f, b) && forall a :: a in f.g.succ && Reached(f, a, b) ==> PostDominates(f, b, a) {
      forall a | a in f.g.succ
        ensures !IsControlDependent(f, b, a)
      {
        forall s | Edge(f.g, a, s) && PostDominates(f, b, s)
          ensures a != b && PostDominates(f, b, a)
        {
          var p := DominatedRoute(f, s, b);
          RouteStep(f, a, s, b, p);
          assert Reached(f, a, b) && Reached(f, s, b);
        }
      }
    }
  }

  /** A block that is reached at all and hangs on the root is executed on every run. */
  lemma RootPostDominatesEntry(f: Body, b: nat)
    requires Normal(f) && Reached(f, f.entry, b) && OnRoot(f, b)
    ensures PostDominates(f, b, f.entry)
  {
    var p :| Route(f, p, f.entry, b);
    RootDominates(f, b, p, f.entry);
  }

  // ------------------------------------------------------------------- the graph itself

  /** A post-dominator tree as a table: for every block the blocks that post-dominate it. */
  type Tree = map<nat, set<nat>>

  ghost predicate Describes(pdt: Tree, f: Body)
  {
    forall a :: a in f.g.succ ==> a in pdt && forall b :: b in f.g.succ ==> (b in pdt[a] <==> PostDominates(f, b, a))
  }

  /** The test as it is computed: on the table and the list of successors. */
  predicate Test(g: Graph, pdt: Tree, b: nat, a: nat)
    requires a in g.succ && a in pdt
  {
    if a != b && b in pdt[a] then false else exists s :: s in g.succ[a] && s in pdt && b in pdt[s]
  }

  lemma TestIsControlDependent(f: Body, pdt: Tree, b: nat, a: nat)
    requires Normal(f) && Describes(pdt, f) && a in f.g.succ && b in f.g.succ
    ensures Test(f.g, pdt, b, a) <==> IsControlDependent(f, b, a)
  {
    assert forall s :: s in f.g.succ[a] <==> Edge(f.g, a, s);
  }

  predicate Covers(g: Graph, pdt: Tree, blocks: seq<nat>)
  {
    forall b :: b in blocks ==> b in g.succ && b in pdt
  }

  predicate NoneTests(g: Graph, pdt: Tree, b: nat, blocks: seq<nat>)
    requires Covers(g, pdt, blocks)
  {
    forall a :: a in blocks ==> !Test(g, pdt, b, a)
  }

  /** What the two loops leave behind, in terms of the test. */
  ghost predicate Filled(g: Graph, pdt: Tree, blocks: seq<nat>, n: nat, edges: set<(nat, nat)>, fromRoot: set<nat>)
    requires Covers(g, pdt, blocks) && n <= |blocks|
  {
    && (forall a, b :: (a, b) in edges <==> a in blocks && b in blocks[..n] && Test(g, pdt, b, a))
    && (forall b :: b in fromRoot <==> b in blocks[..n] && NoneTests(g, pdt, b, blocks))
  }

  /** What the graph is meant to be: its edges are control dependences by the definition, and
      the root leads to the blocks that depend on nothing. */
  ghost predicate GraphOf(f: Body, edges: set<(nat, nat)>, fromRoot: set<nat>)
  {
    && (forall a, b :: (a, b) in edges <==> a in f.g.succ && b in f.g.succ && DependsByPath(f, b, a))
    && (forall b :: b in fromRoot <==> b in f.g.succ && OnRoot(f, b))
  }

  lemma TestIsDefinition(f: Body, pdt: Tree, b: nat, a: nat)
    requires Normal(f) && Describes(pdt, f) && a in f.g.succ && b in f.g.succ
    ensures Test(f.g, pdt, b, a) <==> DependsByPath(f, b, a)
  {
    TestIsControlDependent(f, pdt, b, a);
    TestMatchesDefinition(f, b, a);
  }

  lemma NoneTestsIsOnRoot(f: Body, pdt: Tree, blocks: seq<nat>, b: nat)
    requires Normal(f) && Describes(pdt, f) && b in f.g.succ
    requires Covers(f.g, pdt, blocks) && forall a :: a in f.g.succ ==> a in blocks
    ensures NoneTests(f.g, pdt, b, blocks) <==> OnRoot(f, b)
  {
    forall a | a in f.g.succ
      ensures Test(f.g, pdt, b, a) <==> IsControlDependent(f, b, a)
    {
      TestIsControlDependent(f, pdt, b, a);
    }
  }

  lemma FilledIsGraph(f: Body, pdt: Tree, blocks: seq<nat>, edges: set<(nat, nat)>, fromRoot: set<nat>)
    requires Normal(f) && Describes(pdt, f) && Covers(f.g, pdt, blocks)
    requires forall b :: b in f.g.succ ==> b in blocks
    requires Filled(f.g, pdt, blocks, |blocks|, edges, fromRoot)
    ensures GraphOf(f, edges, fromRoot)
  {
    assert blocks[..|blocks|] == blocks;
    forall a, b
      ensures (a, b) in edges <==> a in f.g.succ && b in f.g.succ && DependsByPath(f, b, a)
    {
      if a in f.g.succ && b in f.g.succ {
        TestIsDefinition(f, pdt, b, a);
      }
    }
    forall b
      ensures b in fromRoot <==> b in f.g.succ && OnRoot(f, b)
    {
      if b in f.g.succ {
        NoneTestsIsOnRoot(f, pdt, blocks, b);
      }
    }
  }

  /** The blocks with an edge to `b`, in the order of the nodes. */
  function EdgeSources(nodes: seq<nat>, edges: set<(nat, nat)>, b: nat): seq<nat>
  {
    if nodes == [] then []
    else
      var a := nodes[|nodes| - 1];
      EdgeSources(nodes[..|nodes| - 1], edges, b) + if (a, b) in edges then [a] else []
  }

  /** The blocks that `b` depends on by the definition, in the order of the blocks. */
  ghost function Dependences(f: Body, blocks: seq<nat>, b: nat): seq<nat>
  {
    if blocks == [] then []
    else
      var a := blocks[|blocks| - 1];
      Dependences(f, blocks[..|blocks| - 1], b) + if a in f.g.succ && DependsByPath(f, b, a) then [a] else []
  }

  lemma {:induction false} DependencesAre(f: Body, blocks: seq<nat>, b: nat)
    ensures forall a :: a in Dependences(f, blocks, b) <==> a in blocks && a in f.g.succ && DependsByPath(f, b, a)
  {
    if blocks != [] {
      DependencesAre(f, blocks[..|blocks| - 1], b);
      assert blocks == blocks[..|blocks| - 1] + [blocks[|blocks| - 1]];
    }
  }

  /** They stand in it at the places of these blocks, from left to right. */
  lemma {:induction false} DependencesInOrder(f: Body, blocks: seq<nat>, b: nat) returns (at: seq<nat>)
    ensures Picks(Dependences(f, blocks, b), blocks, at)
    ensures forall i: nat :: i in at <==> i < |blocks| && blocks[i] in f.g.succ && DependsByPath(f, b, blocks[i])
  {
    if blocks == [] {
      at := [];
    } else {
      var before, a := blocks[..|blocks| - 1], blocks[|blocks| - 1];
      at := DependencesInOrder(f, before, b);
      PicksGrow(Dependences(f, before, b), before, at, a);
      assert blocks == before + [a];
      at := at + if a in f.g.succ && DependsByPath(f, b, a) then [|before|] else [];
    }
  }

  lemma {:induction false} EdgeSourcesAreDependences(f: Body, nodes: seq<nat>, edges: set<(nat, nat)>, fromRoot: set<nat>, b: nat)
    requires GraphOf(f, edges, fromRoot) && b in f.g.succ
    ensures EdgeSources(nodes, edges, b) == Dependences(f, nodes, b)
  {
    if nodes != [] {
      EdgeSourcesAreDependences(f, nodes[..|nodes| - 1], edges, fromRoot, b);
    }
  }

  lemma HasMember(s: seq<nat>)
    ensures s != [] ==> exists a :: a in s
  {
    if s != [] {
      assert s[0] in s;
    }
  }

  /** The blocks the graph yields for `b` are those it depends on by the definition, each as
      often and in the order in which the blocks are listed. */
  lemma {:induction false} SourcesAreDependences(f: Body, nodes: seq<nat>, edges: set<(nat, nat)>, fromRoot: set<nat>, b: nat)
    requires Normal(f) && GraphOf(f, edges, fromRoot) && b in f.g.succ
    ensures (if b in fromRoot then [] else EdgeSources(nodes, edges, b)) == Dependences(f, nodes, b)
    ensures forall a :: a in Dependences(f, nodes, b) <==> a in nodes && a in f.g.succ && DependsByPath(f, b, a)
  {
    EdgeSourcesAreDependences(f, nodes, edges, fromRoot, b);
    DependencesAre(f, nodes, b);
    if b in fromRoot {
      forall a | a in f.g.succ
        ensures !DependsByPath(f, b, a)
      {
        TestMatchesDefinition(f, b, a);
      }
      HasMember(Dependences(f, nodes, b));
    }
  }

  class ControlDependenceGraph {
    var nodes: seq<nat>
    var fromRoot: set<nat>
    var edges: set<(nat, nat)>

    constructor ()
      ensures nodes == [] && fromRoot == {} && edges == {}
    {
      nodes, fromRoot, edges := [], {}, {};
    }

    /** Compute the graph of `f`, given its post-dominator tree. */
    method Calculate(f: Body, blocks: seq<nat>, pdt: Tree)
      requires Normal(f) && Describes(pdt, f) && nodes == [] && fromRoot == {} && edges == {}
      requires forall b :: b in blocks <==> b in f.g.succ
      modifies this
      ensures nodes == blocks && GraphOf(f, edges, fromRoot)
    {
      Fill(f.g, blocks, pdt);
      FilledIsGraph(f, pdt, blocks, edges, fromRoot);
    }

    method Fill(g: Graph, blocks: seq<nat>, pdt: Tree)
      requires Covers(g, pdt, blocks) && nodes == [] && fromRoot == {} && edges == {}
      modifies this
      ensures nodes == blocks && Filled(g, pdt, blocks, |blocks|, edges, fromRoot)
    {
      CreateNodes(blocks);
      for i := 0 to |blocks|
        invariant nodes == blocks
        invariant Filled(g, pdt, blocks, i, edges, fromRoot)
      {
        AddEdgesTo(g, pdt, blocks[i]);
      }
    }

    method CreateNodes(blocks: seq<nat>)
      requires nodes == []
      modifies this`nodes
      ensures nodes == blocks
    {
      for i := 0 to |blocks|
        invariant nodes == blocks[..i]
      {
        nodes := nodes + [blocks[i]];
      }
    }

    method AddEdgesTo(g: Graph, pdt: Tree, b: nat)
      requires Covers(g, pdt, nodes) && b in nodes
      modifies this`edges, this`fromRoot
      ensures forall x, y :: (x, y) in edges <==> (x, y) in old(edges) || (y == b && x in nodes && Test(g, pdt, b, x))
      ensures fromRoot == old(fromRoot) + if NoneTests(g, pdt, b, nodes) then {b} else {}
    {
      var dependsOnAny := false;
      for k := 0 to |nodes|
        invariant fromRoot == old(fromRoot)
        invariant dependsOnAny <==> !NoneTests(g, pdt, b, nodes[..k])
        invariant forall x, y :: (x, y) in edges <==>
          (x, y) in old(edges) || (y == b && x in nodes[..k] && Test(g, pdt, b, x))
      {
        var a := nodes[k];
        assert nodes[..k + 1] == nodes[..k] + [a];
        if Test(g, pdt, b, a) {
          dependsOnAny := true;
          edges := edges + {(a, b)};
        }
      }
      assert nodes[..|nodes|] == nodes;
      if !dependsOnAny {
        fromRoot := fromRoot + {b};
      }
    }

    /** The blocks that `b` depends on: none if the root leads to it, and else the sources of
        its edges. */
    method ControlDependencySources(b: nat) returns (sources: seq<nat>)
      ensures sources == if b in fromRoot then [] else EdgeSources(nodes, edges, b)
    {
      sources := [];
      if b in fromRoot {
        return;
      }
      for k := 0 to |nodes|
        invariant sources == EdgeSources(nodes[..k], edges, b)
      {
        assert nodes[..k + 1][..k] == nodes[..k];
        if (nodes[k], b) in edges {
          sources := sources + [nodes[k]];
        }
      }
      assert nodes[..|nodes|] == nodes;
    }
  }
}
