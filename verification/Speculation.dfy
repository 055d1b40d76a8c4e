module Speculation {
  // From the control dependence graph to the placed requests.
  //
  // The blocks a block is control dependent on lead to the sources that lose decoupling, and
  // those to the speculation block of every request.  The result is stated on paths of the
  // function alone: where the chain of lossy branches above its block ends, a request leaves the
  // block exactly if the block depends on a lossy branch in its own loop, it ends in one block, at
  // the end of the chain, and from there control can still get to the request's own block.

  import opened Arrivals
  import opened Cfg
  import opened Cdg
  import Hoisting

  /** A function with its blocks, also in topological order, the blocks whose branch needs values
      of the compute unit, and the header of the loop around each block, if any. */
  datatype Unit = Unit(body: Body, blocks: seq<nat>, order: seq<nat>, lossy: set<nat>, headers: map<nat, nat>)

  ghost predicate Whole(u: Unit)
  {
    && Normal(u.body)
    && forall b :: (b in u.blocks <==> b in u.body.g.succ) && (b in u.order <==> b in u.body.g.succ)
  }

  // -------------------------------------------------------------- what is meant, by paths

  ghost predicate Depends(u: Unit, b: nat, a: nat)
  {
    a in u.body.g.succ && DependsByPath(u.body, b, a)
  }

  /** Up control dependences from `b`, over branches that do not lose decoupling and not beyond
      the header of the loop of `b`. */
  ghost predicate Ascent(u: Unit, p: seq<nat>, b: nat)
  {
    && p != [] && p[0] == b
    && (forall i :: 0 <= i < |p| - 1 ==> Depends(u, p[i], p[i + 1]))
    && forall i :: 1 <= i < |p| ==> p[i] !in u.lossy && !(b in u.headers && u.headers[b] == p[i])
  }

  ghost predicate AscentTo(u: Unit, p: seq<nat>, b: nat, s: nat)
  {
    Ascent(u, p, b) && Depends(u, p[|p| - 1], s)
  }

  /** `b` runs or not because of the lossy branch of `s`. */
  ghost predicate LodDepends(u: Unit, b: nat, s: nat)
  {
    s in u.lossy && exists p :: AscentTo(u, p, b, s)
  }

  /** Both blocks are in no loop, or in loops with the same header. */
  predicate SameHeader(u: Unit, b: nat, s: nat)
  {
    (b in u.headers <==> s in u.headers) && (b in u.headers ==> u.headers[b] == u.headers[s])
  }

  /** One step of hoisting. */
  ghost predicate Lifts(u: Unit, b: nat, s: nat)
  {
    LodDepends(u, b, s) && SameHeader(u, b, s)
  }

  ghost predicate Speculated(u: Unit, b: nat)
  {
    exists s :: Lifts(u, b, s)
  }

  ghost predicate LiftChain(u: Unit, p: seq<nat>)
  {
    p != [] && forall i :: 0 <= i < |p| - 1 ==> Lifts(u, p[i], p[i + 1])
  }

  ghost predicate LiftedTo(u: Unit, c: nat, b: nat)
  {
    exists p :: LiftChain(u, p) && p[0] == c && p[|p| - 1] == b
  }

  /** `c` depends on the lossy branch of `s`, in its own loop, with nothing in between. */
  ghost predicate DirectLift(u: Unit, c: nat, s: nat)
  {
    s in u.lossy && Depends(u, c, s) && (c in u.headers <==> s in u.headers) && (c in u.headers ==> u.headers[c] == u.headers[s])
  }

  /** `s` comes before all other such blocks in the list of blocks. */
  ghost predicate FirstDirect(u: Unit, c: nat, s: nat)
  {
    exists i: nat :: i < |u.blocks| && u.blocks[i] == s && DirectLift(u, c, s) &&
      forall k :: 0 <= k < i ==> !DirectLift(u, c, u.blocks[k])
  }

  /** From a block from one such first block to the next, to one that is not hoisted from. */
  ghost predicate DirectChain(u: Unit, p: seq<nat>)
  {
    && p != [] && (forall i :: 0 <= i < |p| - 1 ==> FirstDirect(u, p[i], p[i + 1])) && !Speculated(u, p[|p| - 1])
  }

  ghost predicate DirectTo(u: Unit, c: nat, b: nat)
  {
    b != c && exists p :: DirectChain(u, p) && p[0] == c && p[|p| - 1] == b
  }

  // -------------------------------------------------------------------- dependences lead back

  lemma DependenceReaches(u: Unit, b: nat, a: nat)
    requires Depends(u, b, a)
    ensures Reached(u.body, a, b)
  {
    var p :| SettledOnTheWay(u.body, p, b, a);
  }

  lemma ReachedChain(f: Body, a: nat, b: nat, c: nat)
    requires Reached(f, a, b) && Reached(f, b, c)
    ensures Reached(f, a, c)
  {
    var p :| Route(f, p, a, b);
    var q :| Route(f, q, b, c);
    var w := p + q[1..];
    forall i | 0 <= i < |w| - 1
      ensures Edge(f.g, w[i], w[i + 1])
    {
      if i < |p| - 1 {
        assert w[i] == p[i] && w[i + 1] == p[i + 1];
      } else {
        assert w[i] == q[i - (|p| - 1)] && w[i + 1] == q[i - (|p| - 1) + 1];
      }
    }
    assert Route(f, w, a, c);
  }

  lemma ReachedItself(f: Body, a: nat)
    ensures Reached(f, a, a)
  {
    assert Route(f, [a], a, a);
  }

  lemma {:induction false} AscentReaches(u: Unit, p: seq<nat>, b: nat)
    requires Ascent(u, p, b)
    ensures Reached(u.body, p[|p| - 1], b)
  {
    if |p| == 1 {
      ReachedItself(u.body, b);
    } else {
      var shorter := p[..|p| - 1];
      AscentReaches(u, shorter, b);
      assert Depends(u, p[|p| - 2], p[|p| - 2 + 1]);
      DependenceReaches(u, p[|p| - 2], p[|p| - 1]);
      ReachedChain(u.body, p[|p| - 1], p[|p| - 2], b);
    }
  }

  lemma LiftReaches(u: Unit, b: nat, s: nat)
    requires LodDepends(u, b, s)
    ensures Reached(u.body, s, b) && s in u.body.g.succ
  {
    var p :| AscentTo(u, p, b, s);
    AscentReaches(u, p, b);
    DependenceReaches(u, p[|p| - 1], s);
    ReachedChain(u.body, s, p[|p| - 1], b);
  }

  lemma {:induction false} LiftedReaches(u: Unit, p: seq<nat>)
    requires LiftChain(u, p)
    ensures Reached(u.body, p[|p| - 1], p[0])
  {
    if |p| == 1 {
      ReachedItself(u.body, p[0]);
    } else {
      LiftedReaches(u, p[1..]);
      assert Lifts(u, p[0], p[0 + 1]);
      LiftReaches(u, p[0], p[1]);
      ReachedChain(u.body, p[|p| - 1], p[1], p[0]);
    }
  }

  // -------------------------------------------------------------- what the search works on

  /** The table of sources that the control dependence graph yields. */
  ghost predicate Right(u: Unit, sources: map<nat, seq<nat>>)
  {
    && (forall b :: b in sources <==> b in u.body.g.succ)
    && forall b, a {:trigger Listed(sources, b, a)} :: b in sources ==> (Listed(sources, b, a) <==> Depends(u, b, a))
  }

  predicate Listed(sources: map<nat, seq<nat>>, b: nat, a: nat)
    requires b in sources
  {
    a in sources[b]
  }

  function Branches(u: Unit, sources: map<nat, seq<nat>>): Hoisting.Branches
  {
    Hoisting.Branches(sources, u.lossy, u.headers)
  }

  lemma ChainIsAscent(u: Unit, sources: map<nat, seq<nat>>, p: seq<nat>, b: nat)
    requires Right(u, sources) && b in sources
    ensures Hoisting.Chain(Branches(u, sources), p, b) <==> Ascent(u, p, b)
  {
    var f := Branches(u, sources);
    if Hoisting.Chain(f, p, b) {
      forall i | 0 <= i < |p| - 1
        ensures Depends(u, p[i], p[i + 1])
      {
        assert Listed(sources, p[i], p[i + 1]);
      }
      forall i | 1 <= i < |p|
        ensures p[i] !in u.lossy && !(b in u.headers && u.headers[b] == p[i])
      {
        assert !Hoisting.IsHeader(f, b, p[i]);
      }
    }
    if Ascent(u, p, b) {
      AscentIsChain(u, sources, p, b);
    }
  }

  lemma AscentIsChain(u: Unit, sources: map<nat, seq<nat>>, p: seq<nat>, b: nat)
    requires Right(u, sources) && b in sources && Ascent(u, p, b)
    ensures Hoisting.Chain(Branches(u, sources), p, b) && p[|p| - 1] in sources
  {
    forall i | 0 <= i < |p|
      ensures p[i] in sources
    {
      if i > 0 {
        assert Depends(u, p[i - 1], p[i - 1 + 1]);
      }
    }
    forall i | 0 <= i < |p| - 1
      ensures p[i + 1] in sources[p[i]]
    {
      assert Depends(u, p[i], p[i + 1]);
      assert Listed(sources, p[i], p[i + 1]);
    }
  }

  /** The search on the table finds what is meant. */
  lemma LodSourceIsDependence(u: Unit, sources: map<nat, seq<nat>>, b: nat, s: nat)
    requires Right(u, sources) && b in sources
    ensures Hoisting.LodSource(Branches(u, sources), b, s) <==> LodDepends(u, b, s)
  {
    var f := Branches(u, sources);
    if Hoisting.LodSource(f, b, s) {
      var c :| Hoisting.Climbs(f, b, c) && c in f.sources && s in f.sources[c];
      var p :| Hoisting.Chain(f, p, b) && p[|p| - 1] == c;
      ChainIsAscent(u, sources, p, b);
      assert Listed(sources, c, s);
      assert AscentTo(u, p, b, s);
    }
    if LodDepends(u, b, s) {
      var p :| AscentTo(u, p, b, s);
      AscentIsChain(u, sources, p, b);
      assert Listed(sources, p[|p| - 1], s);
      assert Hoisting.Climbs(f, b, p[|p| - 1]);
    }
  }

  // ------------------------------------------------------------------------ the tables

  /** The dependences of every block, in the order of the blocks. */
  ghost function SourceTable(u: Unit): map<nat, seq<nat>>
  {
    map b | b in u.order :: Dependences(u.body, u.blocks, b)
  }

  lemma TableIsRight(u: Unit)
    requires Whole(u)
    ensures Right(u, SourceTable(u)) && Hoisting.Closed(Branches(u, SourceTable(u)))
  {
    var sources := SourceTable(u);
    forall b, a | b in sources
      ensures Listed(sources, b, a) <==> Depends(u, b, a)
    {
      DependencesAre(u.body, u.blocks, b);
    }
    forall b, s | b in sources && s in sources[b]
      ensures s in sources
    {
      assert Listed(sources, b, s);
    }
  }

  /** The sources that lose decoupling, of every block, in the order of the search. */
  ghost function LodTable(u: Unit): map<nat, seq<nat>>
    requires Whole(u)
  {
    TableIsRight(u);
    Hoisting.LodSourcesOf(Branches(u, SourceTable(u)), u.order)
  }

  /** A number for the loop around a block; 0 if there is none. */
  function LoopOf(u: Unit, b: nat): nat
  {
    if b in u.headers then u.headers[b] + 1 else 0
  }

  function LoopTable(u: Unit): (m: map<nat, nat>)
    ensures forall b :: b in m <==> b in u.order
  {
    map b | b in u.order :: LoopOf(u, b)
  }

  /** What hoisting goes by. */
  ghost function PlanOf(u: Unit): Hoisting.Plan
    requires Whole(u)
  {
    Hoisting.Plan(u.order, LodTable(u), LoopTable(u))
  }

  /** The table lists what is meant. */
  lemma LodTableIsRight(u: Unit, b: nat, s: nat)
    requires Whole(u) && b in u.order
    ensures Listed(LodTable(u), b, s) <==> LodDepends(u, b, s)
  {
    TableIsRight(u);
    Hoisting.LodSourcesAreFirst(Branches(u, SourceTable(u)), b);
    LodSourceIsDependence(u, SourceTable(u), b, s);
  }

  lemma PlanIsComplete(u: Unit)
    requires Whole(u)
    ensures Hoisting.Complete(PlanOf(u))
  {
    var lod := LodTable(u);
    forall b, i | b in u.order && 0 <= i < |lod[b]|
      ensures lod[b][i] in u.order
    {
      LodTableIsRight(u, b, lod[b][i]);
      LiftReaches(u, b, lod[b][i]);
    }
  }

  /** What hoisting goes by is what is meant. */
  lemma StepIsLift(u: Unit, b: nat, s: nat)
    requires Whole(u) && b in u.order
    ensures Hoisting.Complete(PlanOf(u))
    ensures s in PlanOf(u).sources[b] && Hoisting.SameLoop(PlanOf(u), b, s) <==> Lifts(u, b, s)
  {
    PlanIsComplete(u);
    LodTableIsRight(u, b, s);
    if LodDepends(u, b, s) {
      LiftReaches(u, b, s);
    }
  }

  lemma MovableIsSpeculated(u: Unit, b: nat)
    requires Whole(u) && b in u.order
    ensures Hoisting.Complete(PlanOf(u))
    ensures Hoisting.Movable(PlanOf(u), b) <==> Speculated(u, b)
  {
    PlanIsComplete(u);
    if Hoisting.Movable(PlanOf(u), b) {
      var s :| s in PlanOf(u).sources[b] && Hoisting.SameLoop(PlanOf(u), b, s);
      StepIsLift(u, b, s);
    }
    if Speculated(u, b) {
      var s :| Lifts(u, b, s);
      StepIsLift(u, b, s);
    }
  }

  /** The block at the end of a chain of first sources is reached by lifting. */
  lemma {:induction false} TopIsLifted(u: Unit, c: nat, n: nat)
    requires Whole(u) && c in u.order && Hoisting.Complete(PlanOf(u)) && Hoisting.EndsIn(PlanOf(u), c, n)
    ensures var t := Hoisting.TopIn(PlanOf(u), c, n); LiftedTo(u, c, t) && !Speculated(u, t)
    decreases n
  {
    var plan := PlanOf(u);
    if Hoisting.Movable(plan, c) {
      var s := Hoisting.Target(plan, c);
      StepIsLift(u, c, s);
      TopIsLifted(u, s, n - 1);
      LiftsOn(u, c, s, Hoisting.TopIn(plan, s, n - 1));
    } else {
      MovableIsSpeculated(u, c);
      assert LiftChain(u, [c]);
    }
  }

  lemma LiftsOn(u: Unit, c: nat, s: nat, t: nat)
    requires Lifts(u, c, s) && LiftedTo(u, s, t)
    ensures LiftedTo(u, c, t)
  {
    var p :| LiftChain(u, p) && p[0] == s && p[|p| - 1] == t;
    var w := [c] + p;
    forall i | 0 <= i < |w| - 1
      ensures Lifts(u, w[i], w[i + 1])
    {
      if i > 0 {
        assert Lifts(u, p[i - 1], p[i - 1 + 1]);
      }
    }
    assert LiftChain(u, w);
  }

  // --------------------------------------------------- the first of the direct dependences

  /** The blocks at the places `own` of `r` in `lossy`, and their places in `s`. */
  lemma {:induction false} PlacesCompose(r: seq<nat>, s: seq<nat>, places: seq<nat>, own: seq<nat>, lossy: set<nat>)
    returns (at: seq<nat>)
    requires Picks(r, s, places) && Increasing(own) && forall k: nat :: k in own <==> k < |r| && r[k] in lossy
    ensures Increasing(at) && |at| == |own|
    ensures forall k :: 0 <= k < |at| ==> own[k] < |r| && at[k] < |s| && s[at[k]] == r[own[k]]
    ensures forall i: nat :: i in at <==> i in places && i < |s| && s[i] in lossy
  {
    assert forall k :: 0 <= k < |own| ==> own[k] in own;
    at := seq(|own|, k requires 0 <= k < |own| => places[own[k]]);
    forall i: nat
      ensures i in at <==> i in places && i < |s| && s[i] in lossy
    {
      PlaceOfPlace(r, s, places, own, lossy, at, i);
    }
  }

  lemma {:induction false} PlaceOfPlace(r: seq<nat>, s: seq<nat>, places: seq<nat>, own: seq<nat>, lossy: set<nat>,
      at: seq<nat>, i: nat)
    requires Picks(r, s, places) && forall k: nat :: k in own <==> k < |r| && r[k] in lossy
    requires |at| == |own| && forall k :: 0 <= k < |own| ==> own[k] < |places| && at[k] == places[own[k]]
    ensures i in at <==> i in places && i < |s| && s[i] in lossy
  {
    if i in at {
      var k :| 0 <= k < |at| && at[k] == i;
      assert own[k] in own;
    }
    if i in places && i < |s| && s[i] in lossy {
      var h :| 0 <= h < |places| && places[h] == i;
      assert h in own;
      var k :| 0 <= k < |own| && own[k] == h;
      assert at[k] == i;
    }
  }

  /** The blocks at the places `at` are the lossy ones that `c` depends on directly, and `lod`
      begins with them, in this order. */
  ghost predicate DirectLead(u: Unit, c: nat, lod: seq<nat>, at: seq<nat>)
  {
    && Increasing(at) && |at| <= |lod|
    && (forall k :: 0 <= k < |at| ==> at[k] < |u.blocks| && lod[k] == u.blocks[at[k]])
    && forall i: nat :: i in at <==> i < |u.blocks| && u.blocks[i] in u.lossy && Depends(u, c, u.blocks[i])
  }

  lemma {:induction false} DirectSourcesLead(u: Unit, f: Hoisting.Branches, c: nat) returns (at: seq<nat>)
    requires Hoisting.Closed(f) && f.lossy == u.lossy && c in f.sources && f.sources[c] == Dependences(u.body, u.blocks, c)
    ensures DirectLead(u, c, Hoisting.LodSources(f, c), at)
  {
    var places := DependencesInOrder(u.body, u.blocks, c);
    var own := Hoisting.OwnSourcesFirst(f, c);
    at := PlacesCompose(f.sources[c], u.blocks, places, own, u.lossy);
  }

  lemma {:induction false} DirectLeadTable(u: Unit, c: nat) returns (at: seq<nat>)
    requires Whole(u) && c in u.order
    ensures DirectLead(u, c, LodTable(u)[c], at)
  {
    TableIsRight(u);
    at := DirectSourcesLead(u, Branches(u, SourceTable(u)), c);
  }

  lemma DirectInLoop(u: Unit, c: nat, s: nat)
    requires Whole(u) && Hoisting.Complete(PlanOf(u)) && c in u.order && s in u.lossy && Depends(u, c, s)
    ensures s in u.order && (Hoisting.SameLoop(PlanOf(u), c, s) <==> DirectLift(u, c, s))
  {
  }

  /** Hoisting goes to the first of the direct dependences, if there is one in the loop. */
  lemma {:induction false} FirstDirectIsTarget(u: Unit, c: nat, s: nat)
    requires Whole(u) && c in u.order && FirstDirect(u, c, s)
    ensures Hoisting.Complete(PlanOf(u)) && Hoisting.Movable(PlanOf(u), c) && Hoisting.Target(PlanOf(u), c) == s
  {
    PlanIsComplete(u);
    var at := DirectLeadTable(u, c);
    var i: nat :| i < |u.blocks| && u.blocks[i] == s && DirectLift(u, c, s) &&
      forall k :: 0 <= k < i ==> !DirectLift(u, c, u.blocks[k]);
    forall x | x in u.lossy && Depends(u, c, x)
      ensures x in u.order && (Hoisting.SameLoop(PlanOf(u), c, x) <==> DirectLift(u, c, x))
    {
      DirectInLoop(u, c, x);
    }
    FirstOfLead(u, PlanOf(u), c, at, i);
  }

  lemma {:induction false} FirstOfLead(u: Unit, plan: Hoisting.Plan, c: nat, at: seq<nat>, i: nat)
    requires Hoisting.Complete(plan) && c in plan.order && DirectLead(u, c, plan.sources[c], at)
    requires forall s :: s in u.lossy && Depends(u, c, s) ==>
      s in plan.order && (Hoisting.SameLoop(plan, c, s) <==> DirectLift(u, c, s))
    requires i < |u.blocks| && DirectLift(u, c, u.blocks[i]) && forall k :: 0 <= k < i ==> !DirectLift(u, c, u.blocks[k])
    ensures Hoisting.Movable(plan, c) && Hoisting.Target(plan, c) == u.blocks[i]
  {
    assert i in at;
    var h :| 0 <= h < |at| && at[h] == i;
    forall k | 0 <= k < h
      ensures !Hoisting.SameLoop(plan, c, plan.sources[c][k])
    {
      assert at[k] in at;
    }
    TakesFirst(plan, c, h);
  }

  lemma TakesFirst(plan: Hoisting.Plan, c: nat, h: nat)
    requires Hoisting.Complete(plan) && c in plan.order && h < |plan.sources[c]|
    requires Hoisting.SameLoop(plan, c, plan.sources[c][h])
    requires forall k :: 0 <= k < h ==> !Hoisting.SameLoop(plan, c, plan.sources[c][k])
    ensures Hoisting.Movable(plan, c) && Hoisting.Target(plan, c) == plan.sources[c][h]
  {
    assert plan.sources[c][h] in plan.sources[c];
  }

  lemma {:induction false} DirectChainEnds(u: Unit, p: seq<nat>)
    requires Whole(u) && DirectChain(u, p) && p[0] in u.order
    ensures Hoisting.Complete(PlanOf(u)) && Hoisting.Ends(PlanOf(u), p[0]) && Hoisting.Top(PlanOf(u), p[0]) == p[|p| - 1]
    ensures |p| > 1 ==> Hoisting.Movable(PlanOf(u), p[0])
  {
    PlanIsComplete(u);
    if |p| == 1 {
      MovableIsSpeculated(u, p[0]);
      Hoisting.EndIsTop(PlanOf(u), p[0]);
    } else {
      assert FirstDirect(u, p[0], p[0 + 1]);
      FirstDirectIsTarget(u, p[0], p[1]);
      Hoisting.TargetEnds(PlanOf(u), p[0]);
      var rest := p[1..];
      forall i | 0 <= i < |rest| - 1
        ensures FirstDirect(u, rest[i], rest[i + 1])
      {
        assert FirstDirect(u, p[i + 1], p[i + 1 + 1]);
      }
      DirectChainEnds(u, rest);
    }
  }

  /** A chain of first direct dependences decides where a request goes. */
  lemma {:induction false} DirectIsPlaced(u: Unit, ops: Hoisting.Requests, first: Hoisting.Requests, placed: Hoisting.Requests,
      r: nat, c: nat, b: nat)
    requires Whole(u) && Hoisting.Complete(PlanOf(u)) && Hoisting.Keyed(PlanOf(u), ops) && Hoisting.Keyed(PlanOf(u), first)
    requires Listing(PlanOf(u).sources, ops, first) && Hoisting.Placed(PlanOf(u), first, placed)
    requires Hoisting.At(ops, r, c) && DirectTo(u, c, b)
    ensures Hoisting.At(placed, r, b)
  {
    var p :| DirectChain(u, p) && p[0] == c && p[|p| - 1] == b;
    DirectChainEnds(u, p);
    assert Hoisting.At(first, r, c);
  }

  // ------------------------------------------------------------------------ the whole step

  /** The dependences of every block, as the graph gives them. */
  method AllSources(u: Unit, pdt: Tree) returns (sources: map<nat, seq<nat>>)
    requires Whole(u) && Describes(pdt, u.body)
    ensures sources == SourceTable(u)
  {
    var cdg := new ControlDependenceGraph();
    cdg.Calculate(u.body, u.blocks, pdt);
    sources := map[];
    for n := 0 to |u.order|
      invariant cdg.nodes == u.blocks && GraphOf(u.body, cdg.edges, cdg.fromRoot)
      invariant sources == SourcesUpTo(u, n)
    {
      var b := u.order[n];
      var found := cdg.ControlDependencySources(b);
      SourcesAreDependences(u.body, u.blocks, cdg.edges, cdg.fromRoot, b);
      SourcesGrow(u, n);
      sources := sources[b := found];
    }
    assert u.order[..|u.order|] == u.order;
  }

  ghost function SourcesUpTo(u: Unit, n: nat): map<nat, seq<nat>>
    requires n <= |u.order|
  {
    map b | b in u.order[..n] :: Dependences(u.body, u.blocks, b)
  }

  lemma {:induction false} SourcesGrow(u: Unit, n: nat)
    requires n < |u.order|
    ensures SourcesUpTo(u, n + 1) == SourcesUpTo(u, n)[u.order[n] := Dependences(u.body, u.blocks, u.order[n])]
  {
    assert u.order[..n + 1] == u.order[..n] + [u.order[n]];
  }

  /** At first a request is listed with its own block if that has any lossy source. */
  method FirstRequests(order: seq<nat>, lod: map<nat, seq<nat>>, ops: Hoisting.Requests) returns (first: Hoisting.Requests)
    requires (forall b :: b in lod <==> b in order) && forall b :: b in ops <==> b in order
    ensures Listing(lod, ops, first)
  {
    first := map[];
    for n := 0 to |order|
      invariant forall b :: b in first <==> b in order[..n]
      invariant forall b :: b in first ==> first[b] == if lod[b] != [] then ops[b] else {}
    {
      var b := order[n];
      first := first[b := if lod[b] != [] then ops[b] else {}];
      assert order[..n + 1] == order[..n] + [b];
    }
    assert order[..|order|] == order;
  }

  /** Above every block with requests the chain of first sources ends or comes to a block that
      is its own first source. */
  ghost predicate AllStop(u: Unit, ops: Hoisting.Requests)
    requires Whole(u)
  {
    Hoisting.Complete(PlanOf(u)) && Hoisting.Keyed(PlanOf(u), ops) && Hoisting.AllStop(PlanOf(u), ops)
  }

  /** The chain of first sources above `c` ends. */
  ghost predicate ChainEnds(u: Unit, c: nat)
    requires Whole(u)
  {
    Hoisting.Complete(PlanOf(u)) && c in u.order && Hoisting.Ends(PlanOf(u), c)
  }

  /** Where a request of block `c` is placed. */
  ghost predicate PlacedRight(u: Unit, placed: Hoisting.Requests, r: nat, c: nat)
  {
    && (Speculated(u, c) <==> exists b :: Hoisting.At(placed, r, b))
    && (forall a, b :: Hoisting.At(placed, r, a) && Hoisting.At(placed, r, b) ==> a == b)
    && forall b :: Hoisting.At(placed, r, b) ==>
      b != c && LiftedTo(u, c, b) && !Speculated(u, b) && Reached(u.body, b, c)
  }

  ghost predicate Lost(u: Unit, placed: Hoisting.Requests, r: nat, c: nat)
  {
    Speculated(u, c) && forall b :: !Hoisting.At(placed, r, b)
  }

  /** `b` is in a loop with the same header as `c`, or both are in none; and `c` depends on a lossy
      branch of which that also holds. */
  ghost predicate StaysInLoop(u: Unit, c: nat, b: nat)
  {
    && (c in u.headers <==> b in u.headers) && (c in u.headers ==> u.headers[c] == u.headers[b])
    && exists s :: LodDepends(u, c, s) && (c in u.headers <==> s in u.headers) && (c in u.headers ==> u.headers[c] == u.headers[s])
  }

  /** The whole step, from graph and post-dominator tree to the placed requests, wherever it
      ends: a request is placed right if the chain above its block ends, and else lost. */
  method PlaceRequests(u: Unit, pdt: Tree, ops: Hoisting.Requests) returns (placed: Hoisting.Requests)
    requires Whole(u) && Describes(pdt, u.body) && Hoisting.Once(ops) && AllStop(u, ops)
    ensures forall r, c :: Hoisting.At(ops, r, c) ==>
      if ChainEnds(u, c) then PlacedRight(u, placed, r, c) else Lost(u, placed, r, c)
    ensures forall r, b :: Hoisting.At(placed, r, b) ==> exists c :: Hoisting.At(ops, r, c)
    ensures forall r, c, b :: Hoisting.At(ops, r, c) && Hoisting.At(placed, r, b) ==> StaysInLoop(u, c, b)
    ensures forall r, c, b :: Hoisting.At(ops, r, c) && DirectTo(u, c, b) ==> Hoisting.At(placed, r, b)
  {
    var sources := AllSources(u, pdt);
    TableIsRight(u);
    var lod := Hoisting.AllLodSources(Branches(u, sources), u.order);
    var first := FirstRequests(u.order, lod, ops);
    ghost var plan := PlanOf(u);
    assert plan == Hoisting.Plan(u.order, lod, LoopTable(u));
    ListingIsFewer(plan, ops, first);
    placed := Hoisting.HoistSpeculativeRequests(Hoisting.Plan(u.order, lod, LoopTable(u)), first);
    PlacedAsMeant(u, ops, first, placed);
    forall r, c, b | Hoisting.At(ops, r, c) && Hoisting.At(placed, r, b)
      ensures StaysInLoop(u, c, b)
    {
      PlacedInLoop(u, placed, r, c, b);
    }
    forall r, c, b | Hoisting.At(ops, r, c) && DirectTo(u, c, b)
      ensures Hoisting.At(placed, r, b)
    {
      DirectIsPlaced(u, ops, first, placed, r, c, b);
    }
  }

  /** Hoisting does not leave the loop. */
  lemma {:induction false} LiftedStays(u: Unit, p: seq<nat>)
    requires LiftChain(u, p)
    ensures SameHeader(u, p[0], p[|p| - 1])
  {
    if |p| > 1 {
      var less := p[..|p| - 1];
      forall i | 0 <= i < |less| - 1
        ensures Lifts(u, less[i], less[i + 1])
      {
        assert Lifts(u, p[i], p[i + 1]);
      }
      LiftedStays(u, less);
      assert Lifts(u, p[|p| - 2], p[|p| - 2 + 1]);
    }
  }

  lemma {:induction false} LiftedInLoop(u: Unit, c: nat, b: nat)
    requires Speculated(u, c) && LiftedTo(u, c, b)
    ensures StaysInLoop(u, c, b)
  {
    var p :| LiftChain(u, p) && p[0] == c && p[|p| - 1] == b;
    LiftedStays(u, p);
    var s :| Lifts(u, c, s);
    assert LodDepends(u, c, s);
  }

  lemma {:induction false} PlacedInLoop(u: Unit, placed: Hoisting.Requests, r: nat, c: nat, b: nat)
    requires Whole(u) && if ChainEnds(u, c) then PlacedRight(u, placed, r, c) else Lost(u, placed, r, c)
    requires Hoisting.At(placed, r, b)
    ensures StaysInLoop(u, c, b)
  {
    LiftedInLoop(u, c, b);
  }

  ghost predicate Listing(lod: map<nat, seq<nat>>, ops: Hoisting.Requests, first: Hoisting.Requests)
  {
    && (forall b :: b in first <==> b in lod)
    && forall b :: b in first ==> b in ops && first[b] == if lod[b] != [] then ops[b] else {}
  }

  lemma {:induction false} ListingIsFewer(plan: Hoisting.Plan, ops: Hoisting.Requests, first: Hoisting.Requests)
    requires Hoisting.Complete(plan) && Hoisting.Keyed(plan, ops) && Listing(plan.sources, ops, first)
    requires forall b :: b in plan.sources <==> b in plan.order
    ensures Hoisting.Keyed(plan, first) && (Hoisting.Once(ops) ==> Hoisting.Once(first))
    ensures Hoisting.AllStop(plan, ops) ==> Hoisting.AllStop(plan, first)
    ensures forall r, b :: Hoisting.At(first, r, b) ==> Hoisting.At(ops, r, b) && plan.sources[b] != []
  {
    Hoisting.FewerRequests(plan, ops, first);
  }

  lemma {:induction false} PlacedAsMeant(u: Unit, ops: Hoisting.Requests, first: Hoisting.Requests, placed: Hoisting.Requests)
    requires Whole(u) && Hoisting.Complete(PlanOf(u)) && Hoisting.Keyed(PlanOf(u), ops) && Hoisting.Keyed(PlanOf(u), first)
    requires Hoisting.Once(ops) && Listing(PlanOf(u).sources, ops, first) && Hoisting.Placed(PlanOf(u), first, placed)
    ensures forall r, c :: Hoisting.At(ops, r, c) ==>
      if ChainEnds(u, c) then PlacedRight(u, placed, r, c) else Lost(u, placed, r, c)
    ensures forall r, b :: Hoisting.At(placed, r, b) ==> exists c :: Hoisting.At(ops, r, c)
  {
    forall r, c | Hoisting.At(ops, r, c)
      ensures if ChainEnds(u, c) then PlacedRight(u, placed, r, c) else Lost(u, placed, r, c)
    {
      if PlanOf(u).sources[c] == [] {
        ListingIsFewer(PlanOf(u), ops, first);
        NotPlaced(u, first, ops, placed, r, c);
      } else {
        assert Hoisting.At(first, r, c);
        TopIsPlacedRight(u, placed, r, c);
      }
    }
    forall r, b | Hoisting.At(placed, r, b)
      ensures exists c :: Hoisting.At(ops, r, c)
    {
      var c :| Hoisting.At(first, r, c);
      assert Hoisting.At(ops, r, c);
    }
  }

  lemma NotPlaced(u: Unit, first: Hoisting.Requests, ops: Hoisting.Requests, placed: Hoisting.Requests, r: nat, c: nat)
    requires Whole(u) && c in u.order && PlanOf(u).sources[c] == [] && Hoisting.Once(ops) && Hoisting.At(ops, r, c)
    requires forall x, b :: Hoisting.At(first, x, b) ==> Hoisting.At(ops, x, b) && b != c
    requires forall x, b :: Hoisting.At(placed, x, b) ==> exists d :: Hoisting.At(first, x, d)
    ensures PlacedRight(u, placed, r, c) && ChainEnds(u, c)
  {
    MovableIsSpeculated(u, c);
    Hoisting.EndIsTop(PlanOf(u), c);
    forall b
      ensures !Hoisting.At(placed, r, b)
    {
    }
  }

  lemma {:induction false} TopIsPlacedRight(u: Unit, placed: Hoisting.Requests, r: nat, c: nat)
    requires Whole(u) && Hoisting.Complete(PlanOf(u)) && c in u.order
    requires forall b :: Hoisting.At(placed, r, b) <==>
      Hoisting.Ends(PlanOf(u), c) && b == Hoisting.Top(PlanOf(u), c) && b != c
    ensures if ChainEnds(u, c) then PlacedRight(u, placed, r, c) else Lost(u, placed, r, c)
  {
    var plan := PlanOf(u);
    MovableIsSpeculated(u, c);
    if Hoisting.Ends(plan, c) {
      var n: nat :| Hoisting.EndsIn(plan, c, n) && Hoisting.TopIn(plan, c, n) == Hoisting.Top(plan, c);
      var t := Hoisting.Top(plan, c);
      TopIsLifted(u, c, n);
      var p :| LiftChain(u, p) && p[0] == c && p[|p| - 1] == t;
      LiftedReaches(u, p);
      assert Hoisting.At(placed, r, t) <==> t != c;
      if !Hoisting.Movable(plan, c) {
        Hoisting.EndIsTop(plan, c);
      }
    } else if !Hoisting.Movable(plan, c) {
      Hoisting.EndIsTop(plan, c);
    }
  }

  // ------------------------------------------------------- where every chain ends, and where not

  /** A chain of lossy sources in one loop that comes back to where it began. */
  ghost predicate Circle(u: Unit, p: seq<nat>)
  {
    LiftChain(u, p) && |p| > 1 && p[0] == p[|p| - 1]
  }

  /** At least one step of hoisting leads from `b` to `c`. */
  ghost predicate Above(u: Unit, b: nat, c: nat)
  {
    exists p :: LiftChain(u, p) && |p| > 1 && p[0] == b && p[|p| - 1] == c
  }

  ghost function AllAbove(u: Unit, b: nat): set<nat>
  {
    set c | c in u.order && Above(u, b, c)
  }

  lemma LiftsFromBlock(u: Unit, b: nat, s: nat)
    requires Whole(u) && Lifts(u, b, s)
    ensures b in u.body.g.succ && s in u.body.g.succ
  {
    LiftReaches(u, b, s);
    var p :| AscentTo(u, p, b, s);
    var a := if |p| > 1 then p[1] else s;
    assert Depends(u, p[0], if |p| > 1 then p[0 + 1] else s);
    var w :| SettledOnTheWay(u.body, w, b, a);
    assert Edge(u.body.g, w[|w| - 2], w[|w| - 2 + 1]);
  }

  lemma AboveOn(u: Unit, b: nat, s: nat, c: nat)
    requires Lifts(u, b, s) && Above(u, s, c)
    ensures Above(u, b, c)
  {
    var p :| LiftChain(u, p) && |p| > 1 && p[0] == s && p[|p| - 1] == c;
    var w := [b] + p;
    forall i | 0 <= i < |w| - 1
      ensures Lifts(u, w[i], w[i + 1])
    {
      if i > 0 {
        assert Lifts(u, p[i - 1], p[i - 1 + 1]);
      }
    }
    assert LiftChain(u, w);
  }

  lemma {:induction false} FewerAbove(a: set<nat>, b: set<nat>, x: nat)
    requires a <= b && x in b && x !in a
    ensures |a| < |b|
  {
    SubsetIsNotGreater(a, b - {x});
  }

  lemma {:induction false} SubsetIsNotGreater(a: set<nat>, b: set<nat>)
    requires a <= b
    ensures |a| <= |b|
  {
    if a != {} {
      var x :| x in a;
      SubsetIsNotGreater(a - {x}, b - {x});
    }
  }

  lemma LiftLeavesFewer(u: Unit, b: nat, s: nat)
    requires Whole(u) && Lifts(u, b, s) && forall p :: !Circle(u, p)
    ensures |AllAbove(u, s)| < |AllAbove(u, b)|
  {
    LiftsFromBlock(u, b, s);
    assert LiftChain(u, [b, s]);
    assert Above(u, b, s);
    forall c | c in AllAbove(u, s)
      ensures c in AllAbove(u, b)
    {
      AboveOn(u, b, s, c);
    }
    if Above(u, s, s) {
      var p :| LiftChain(u, p) && |p| > 1 && p[0] == s && p[|p| - 1] == s;
      assert Circle(u, p);
      assert false;
    }
    FewerAbove(AllAbove(u, s), AllAbove(u, b), s);
  }

  /** Where no chain of lossy sources runs in a circle within a loop, every chain of first
      sources ends, whatever the order in which sources are found. */
  lemma {:induction false} NoCircleEnds(u: Unit, b: nat)
    requires Whole(u) && b in u.order && forall p :: !Circle(u, p)
    ensures ChainEnds(u, b)
    decreases |AllAbove(u, b)|
  {
    var plan := PlanOf(u);
    PlanIsComplete(u);
    if Hoisting.Movable(plan, b) {
      var s := Hoisting.Target(plan, b);
      StepIsLift(u, b, s);
      LiftLeavesFewer(u, b, s);
      NoCircleEnds(u, s);
      Hoisting.TargetEnds(plan, b);
    } else {
      Hoisting.EndIsTop(plan, b);
    }
  }

  /** A loop of one block whose own branch is lossy. */
  const LOSSY := Unit(LOOP, [0, 1], [0, 1], {0}, map[0 := 0])

  /** Its header is a lossy source of itself in its own loop: the chain stops there without an
      end, and a request that is hoisted from it to itself is lost. */
  lemma LossyHeaderLosesRequests(m: Hoisting.Requests, r: nat)
    requires Hoisting.Once(m) && Hoisting.At(m, r, 0)
    ensures Whole(LOSSY) && Lifts(LOSSY, 0, 0) && !ChainEnds(LOSSY, 0)
    ensures Hoisting.Complete(PlanOf(LOSSY)) && Hoisting.Stops(PlanOf(LOSSY), 0)
    ensures forall b :: !Hoisting.At(Hoisting.Moved(m, 0, 0), r, b)
  {
    LossyHeaderLifts();
    OnlySource(LOSSY, 0, 0);
    Hoisting.OwnSource(PlanOf(LOSSY), 0);
    Hoisting.MoveKeepsIffElsewhere(m, 0, 0, r);
  }

  lemma LossyHeaderLifts()
    ensures Whole(LOSSY) && forall s :: Lifts(LOSSY, 0, s) <==> s == 0
  {
    LoopDependsOnItself();
    TestMatchesDefinition(LOOP, 0, 0);
    assert AscentTo(LOSSY, [0], 0, 0);
  }

  /** Where only one source can be lifted to, it is the first. */
  lemma {:induction false} OnlySource(u: Unit, b: nat, s: nat)
    requires Whole(u) && b in u.order && forall a :: Lifts(u, b, a) <==> a == s
    ensures Hoisting.Complete(PlanOf(u)) && Hoisting.Movable(PlanOf(u), b) && Hoisting.Target(PlanOf(u), b) == s
  {
    StepIsLift(u, b, s);
    assert Hoisting.Movable(PlanOf(u), b);
    StepIsLift(u, b, Hoisting.Target(PlanOf(u), b));
  }

  /** A loop that is left at its header and by a break from its body, both branches lossy. */
  const BREAK := Body(Graph(map[0 := [1, 3], 1 := [2, 3], 2 := [0], 3 := []], {0}), 0, 3)
  const TWO_EXITS := Unit(BREAK, [0, 1, 2, 3], [0, 1, 2, 3], {0, 1}, map[0 := 0, 1 := 0, 2 := 0])

  lemma BreakRoutes()
    ensures Route(BREAK, [0, 3], 0, 3) && Route(BREAK, [1, 3], 1, 3)
    ensures Route(BREAK, [2, 0, 3], 2, 3) && Route(BREAK, [3], 3, 3)
  {
  }

  lemma BreakIsNormal()
    ensures Whole(TWO_EXITS)
  {
    BreakRoutes();
  }

  lemma BreakPostDominates(s: nat)
    requires s in BREAK.g.succ
    ensures PostDominates(BREAK, 1, s) <==> s == 1
    ensures PostDominates(BREAK, 0, s) <==> s == 0 || s == 2
  {
    BreakRoutes();
    if s == 2 {
      forall p | Route(BREAK, p, 2, 3)
        ensures 0 in p
      {
        assert Edge(BREAK.g, p[0], p[0 + 1]);
      }
    }
  }

  lemma BreakTest(a: nat)
    requires a in BREAK.g.succ
    ensures IsControlDependent(BREAK, 1, a) <==> a == 0
    ensures IsControlDependent(BREAK, 0, a) <==> a == 1
  {
    forall s | s in BREAK.g.succ
      ensures (PostDominates(BREAK, 1, s) <==> s == 1) && (PostDominates(BREAK, 0, s) <==> s == 0 || s == 2)
    {
      BreakPostDominates(s);
    }
    assert Edge(BREAK.g, 0, 1) && Edge(BREAK.g, 1, 2);
  }

  lemma BreakDepends(a: nat)
    ensures Depends(TWO_EXITS, 1, a) <==> a == 0
    ensures Depends(TWO_EXITS, 0, a) <==> a == 1
  {
    BreakIsNormal();
    if a in BREAK.g.succ {
      BreakTest(a);
      TestMatchesDefinition(BREAK, 1, a);
      TestMatchesDefinition(BREAK, 0, a);
    }
  }

  /** Header and body are each the other's only lossy source. */
  lemma BreakLifts(b: nat, s: nat)
    requires b < 2
    ensures Lifts(TWO_EXITS, b, s) <==> s == 1 - b
  {
    forall p | Ascent(TWO_EXITS, p, b)
      ensures p == [b]
    {
      if |p| > 1 {
        assert Depends(TWO_EXITS, p[0], p[0 + 1]);
        BreakDepends(p[1]);
        assert false;
      }
    }
    BreakDepends(s);
    assert s == 1 - b ==> AscentTo(TWO_EXITS, [b], b, s);
  }

  /** A request in the body is hoisted to the header and back for ever: no number of passes
      leaves it at rest. */
  lemma TwoExitsNeverRest(first: Hoisting.Requests, r: nat, k: nat)
    requires (forall b :: b in first <==> b in TWO_EXITS.order) && Hoisting.At(first, r, 1)
    ensures Whole(TWO_EXITS) && Hoisting.Complete(PlanOf(TWO_EXITS)) && Hoisting.Keyed(PlanOf(TWO_EXITS), first)
    ensures !Hoisting.RestsAfter(PlanOf(TWO_EXITS), first, k)
  {
    BreakIsNormal();
    forall s
      ensures (Lifts(TWO_EXITS, 1, s) <==> s == 0) && (Lifts(TWO_EXITS, 0, s) <==> s == 1)
    {
      BreakLifts(1, s);
      BreakLifts(0, s);
    }
    OnlySource(TWO_EXITS, 1, 0);
    OnlySource(TWO_EXITS, 0, 1);
    Hoisting.EachOtherNeverRest(PlanOf(TWO_EXITS), first, 1, 0, r, k);
  }
}
