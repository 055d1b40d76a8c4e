module Hoisting {
  // Requests behind a branch that loses decoupling are hoisted to the source of that branch, and
  // from there on as long as the block they have come to has such a source in the same loop.

  import opened Arrivals

  // ----------------------------------------------- control dependences that lose decoupling

  /** The sources of the control dependences of each block, the blocks whose branch needs
      values of the compute unit, and the header of the loop around each block, if any. */
  datatype Branches = Branches(sources: map<nat, seq<nat>>, lossy: set<nat>, headers: map<nat, nat>)

  predicate Closed(f: Branches)
  {
    forall b, s :: b in f.sources && s in f.sources[b] ==> s in f.sources
  }

  predicate IsHeader(f: Branches, b: nat, s: nat)
  {
    b in f.headers && f.headers[b] == s
  }

  /** From `b` up control dependences over branches that do not lose decoupling, and not
      beyond the header of its loop. */
  ghost predicate Chain(f: Branches, p: seq<nat>, b: nat)
  {
    && p != [] && p[0] == b
    && (forall i :: 0 <= i < |p| - 1 ==> p[i] in f.sources && p[i + 1] in f.sources[p[i]])
    && (forall i :: 1 <= i < |p| ==> p[i] !in f.lossy && !IsHeader(f, b, p[i]))
  }

  ghost predicate Climbs(f: Branches, b: nat, c: nat)
  {
    exists p :: Chain(f, p, b) && p[|p| - 1] == c
  }

  /** `s` is the first lossy source above `b` on some chain. */
  ghost predicate LodSource(f: Branches, b: nat, s: nat)
  {
    s in f.lossy && exists c :: Climbs(f, b, c) && c in f.sources && s in f.sources[c]
  }

  lemma ClimbsOn(f: Branches, b: nat, c: nat, s: nat)
    requires Climbs(f, b, c) && c in f.sources && s in f.sources[c] && s !in f.lossy && !IsHeader(f, b, s)
    ensures Climbs(f, b, s)
  {
    var p :| Chain(f, p, b) && p[|p| - 1] == c;
    assert Chain(f, p + [s], b);
  }

  /** What is closed under climbing holds everything that can be climbed to. */
  lemma {:induction false} ClimbsWithin(f: Branches, b: nat, done: set<nat>, p: seq<nat>)
    requires Chain(f, p, b) && b in done
    requires forall c, s :: c in done && c in f.sources && s in f.sources[c] && s !in f.lossy && !IsHeader(f, b, s) ==>
      s in done
    ensures p[|p| - 1] in done
  {
    if |p| > 1 {
      var shorter := p[..|p| - 1];
      ClimbsWithin(f, b, done, shorter);
      assert shorter[|shorter| - 1] == p[|p| - 2];
    }
  }

  /** The blocks whose sources have been looked at have left their lossy sources in `found`
      and the others in `done` or on the list. */
  ghost predicate Explored(f: Branches, b: nat, done: set<nat>, pending: seq<nat>, found: seq<nat>)
  {
    forall c, s :: c in done && c in f.sources && s in f.sources[c] ==>
      if s in f.lossy then s in found else IsHeader(f, b, s) || s in done || s in pending
  }

  ghost predicate Sound(f: Branches, b: nat, worklist: seq<nat>, done: set<nat>, found: seq<nat>)
  {
    && (forall c :: c in worklist ==> c in f.sources && Climbs(f, b, c))
    && (forall c :: c in done ==> c in f.sources && Climbs(f, b, c))
    && (forall s :: s in found ==> LodSource(f, b, s))
  }

  predicate Distinct(s: seq<nat>)
  {
    forall i, j :: 0 <= i < j < |s| ==> s[i] != s[j]
  }

  /** What is left of the worklist search, in the order of the list. */
  function Search(f: Branches, b: nat, worklist: seq<nat>, done: set<nat>, found: seq<nat>): seq<nat>
    requires Closed(f) && Pending(f, worklist, done)
    decreases f.sources.Keys - done
  {
    if worklist == [] then found
    else
      var current := worklist[|worklist| - 1];
      PoppedIsPending(f, worklist, done);
      var next := Look(f, b, f.sources[current], done + {current}, worklist[..|worklist| - 1], found);
      Search(f, b, next.0, done + {current}, next.1)
  }

  /** Worklist and result after the given sources of one block. */
  function Look(f: Branches, b: nat, sources: seq<nat>, done: set<nat>, worklist: seq<nat>, found: seq<nat>)
    : (next: (seq<nat>, seq<nat>))
    requires Pending(f, worklist, done) && forall s :: s in sources ==> s in f.sources
    ensures Pending(f, next.0, done)
  {
    if sources == [] then (worklist, found)
    else
      var s := sources[0];
      if s in f.lossy then Look(f, b, sources[1..], done, worklist, found + [s])
      else if IsHeader(f, b, s) || s in done || s in worklist then Look(f, b, sources[1..], done, worklist, found)
      else Look(f, b, sources[1..], done, worklist + [s], found)
  }

  predicate Pending(f: Branches, worklist: seq<nat>, done: set<nat>)
  {
    Distinct(worklist) && forall c :: c in worklist ==> c in f.sources && c !in done
  }

  lemma PoppedIsPending(f: Branches, worklist: seq<nat>, done: set<nat>)
    requires Pending(f, worklist, done) && worklist != []
    ensures Pending(f, worklist[..|worklist| - 1], done + {worklist[|worklist| - 1]})
  {
  }

  /** The sources of `b` that lose decoupling, in the order in which the search finds them. */
  function LodSources(f: Branches, b: nat): seq<nat>
    requires Closed(f) && b in f.sources
  {
    Search(f, b, [b], {}, [])
  }

  // ------------------------------------------------------------- the order of the search

  /** The blocks from which the search for `b` goes on. */
  function Higher(f: Branches, b: nat): set<nat>
  {
    set s | s in f.sources && s !in f.lossy && !IsHeader(f, b, s)
  }

  function SourcesAt(f: Branches, c: nat): seq<nat>
  {
    if c in f.sources then f.sources[c] else []
  }

  /** `b`, and what the blocks in `visited` add to the list, whether it is on it or not. */
  function Offered(f: Branches, b: nat, visited: seq<nat>): seq<nat>
  {
    if visited == [] then [b]
    else
      Offered(f, b, visited[..|visited| - 1]) + Selected(SourcesAt(f, visited[|visited| - 1]), Higher(f, b))
  }

  /** The lossy sources of the blocks in `visited`, one block after the other. */
  function Found(f: Branches, visited: seq<nat>): seq<nat>
  {
    if visited == [] then []
    else Found(f, visited[..|visited| - 1]) + Selected(SourcesAt(f, visited[|visited| - 1]), f.lossy)
  }

  ghost predicate InOrderSoFar(f: Branches, b: nat, visited: seq<nat>)
  {
    forall i :: 0 <= i < |visited| ==> LastNew(Offered(f, b, visited[..i]), visited[..i], visited[i])
  }

  /** Each block is the one that was put on the list last of those not visited before it, and
      the blocks put on the list have all been visited. */
  ghost predicate InOrder(f: Branches, b: nat, visited: seq<nat>)
  {
    InOrderSoFar(f, b, visited) && forall c :: c in Offered(f, b, visited) ==> c in visited
  }

  /** What the search knows when it has visited these blocks. */
  ghost predicate Visited(f: Branches, b: nat, worklist: seq<nat>, done: set<nat>, found: seq<nat>, visited: seq<nat>)
  {
    && InOrderSoFar(f, b, visited)
    && worklist == Fresh(Offered(f, b, visited), visited) && found == Found(f, visited)
    && forall c :: c in done <==> c in visited
  }

  lemma {:induction false} OrderGrows(f: Branches, b: nat, visited: seq<nat>, c: nat)
    requires InOrderSoFar(f, b, visited) && LastNew(Offered(f, b, visited), visited, c)
    ensures InOrderSoFar(f, b, visited + [c])
  {
    var all := visited + [c];
    forall i | 0 <= i < |all|
      ensures LastNew(Offered(f, b, all[..i]), all[..i], all[i])
    {
      assert all[..i] == visited[..i];
      assert i == |visited| ==> visited[..i] == visited;
    }
  }

  /** The first `i` sources have put the new ones on the list and the lossy ones behind `before`. */
  predicate Looked(f: Branches, b: nat, sources: seq<nat>, i: nat, worklist: seq<nat>, found: seq<nat>,
      offered: seq<nat>, visited: seq<nat>, before: seq<nat>)
    requires i <= |sources|
  {
    && worklist == Fresh(offered + Selected(sources[..i], Higher(f, b)), visited)
    && found == before + Selected(sources[..i], f.lossy)
  }

  lemma {:induction false} LookedOn(f: Branches, b: nat, sources: seq<nat>, i: nat, worklist: seq<nat>, found: seq<nat>,
      offered: seq<nat>, visited: seq<nat>, before: seq<nat>)
    requires i < |sources| && Looked(f, b, sources, i, worklist, found, offered, visited, before)
    ensures var s := sources[i];
      Looked(f, b, sources, i + 1,
        if s in Higher(f, b) && s !in visited && s !in worklist then worklist + [s] else worklist,
        if s in f.lossy then found + [s] else found, offered, visited, before)
  {
    Arrives(offered, visited, Higher(f, b), sources[..i], sources[i]);
    BehindResult(sources[..i], f.lossy, sources[i], before);
    assert sources[..i + 1] == sources[..i] + [sources[i]];
  }

  lemma {:induction false} BehindResult(sources: seq<nat>, keep: set<nat>, s: nat, before: seq<nat>)
    ensures before + Selected(sources + [s], keep) ==
      if s in keep then before + Selected(sources, keep) + [s] else before + Selected(sources, keep)
  {
    SelectedGrows(sources, keep, s);
  }

  lemma {:induction false} LookOrder(f: Branches, b: nat, sources: seq<nat>, i: nat, done: set<nat>, worklist: seq<nat>,
      found: seq<nat>, offered: seq<nat>, visited: seq<nat>, before: seq<nat>)
    requires Pending(f, worklist, done) && (forall s :: s in sources ==> s in f.sources) && i <= |sources|
    requires (forall c :: c in done <==> c in visited)
    requires Looked(f, b, sources, i, worklist, found, offered, visited, before)
    ensures forall s :: s in sources[i..] ==> s in f.sources
    ensures var next := Look(f, b, sources[i..], done, worklist, found);
      Looked(f, b, sources, |sources|, next.0, next.1, offered, visited, before)
    decreases |sources| - i
  {
    if i < |sources| {
      var s := sources[i];
      var more := if s in Higher(f, b) && s !in done && s !in worklist then worklist + [s] else worklist;
      var result := if s in f.lossy then found + [s] else found;
      LookedOn(f, b, sources, i, worklist, found, offered, visited, before);
      LookOnce(f, b, sources, i, done, worklist, found);
      LookOrder(f, b, sources, i + 1, done, more, result, offered, visited, before);
    }
  }

  /** One source. */
  lemma {:induction false} LookOnce(f: Branches, b: nat, sources: seq<nat>, i: nat, done: set<nat>, worklist: seq<nat>,
      found: seq<nat>)
    requires Pending(f, worklist, done) && (forall s :: s in sources ==> s in f.sources) && i < |sources|
    ensures var s := sources[i];
      var more := if s in Higher(f, b) && s !in done && s !in worklist then worklist + [s] else worklist;
      && Pending(f, more, done) && (forall x :: x in sources[i..] ==> x in f.sources)
      && (forall x :: x in sources[i + 1..] ==> x in f.sources)
      && Look(f, b, sources[i..], done, worklist, found) ==
        Look(f, b, sources[i + 1..], done, more, if s in f.lossy then found + [s] else found)
  {
    assert sources[i..][0] == sources[i] && sources[i..][1..] == sources[i + 1..];
  }

  lemma {:induction false} LookStarts(f: Branches, b: nat, sources: seq<nat>, worklist: seq<nat>, found: seq<nat>,
      offered: seq<nat>, visited: seq<nat>)
    requires worklist != [] && worklist == Fresh(offered, visited)
    ensures Looked(f, b, sources, 0, worklist[..|worklist| - 1], found, offered, visited + [worklist[|worklist| - 1]], found)
  {
    FreshTaken(offered, visited);
    assert sources[..0] == [] && offered + [] == offered && found + [] == found;
  }

  lemma {:induction false} LookEnds(f: Branches, b: nat, c: nat, worklist: seq<nat>, found: seq<nat>, visited: seq<nat>)
    requires c in f.sources && Looked(f, b, f.sources[c], |f.sources[c]|, worklist, found,
      Offered(f, b, visited), visited + [c], Found(f, visited))
    ensures worklist == Fresh(Offered(f, b, visited + [c]), visited + [c]) && found == Found(f, visited + [c])
  {
    var sources, more := f.sources[c], visited + [c];
    assert more[..|more| - 1] == visited && sources[..|sources|] == sources;
  }

  /** One block is taken from the list and looked at. */
  lemma {:induction false} VisitKeeps(f: Branches, b: nat, worklist: seq<nat>, done: set<nat>, found: seq<nat>,
      visited: seq<nat>)
    requires Closed(f) && Pending(f, worklist, done) && worklist != []
    requires Visited(f, b, worklist, done, found, visited)
    ensures var current, rest := worklist[|worklist| - 1], worklist[..|worklist| - 1];
      && Pending(f, rest, done + {current})
      && var next := Look(f, b, f.sources[current], done + {current}, rest, found);
        Visited(f, b, next.0, done + {current}, next.1, visited + [current])
  {
    var current, rest := worklist[|worklist| - 1], worklist[..|worklist| - 1];
    var offered, sources := Offered(f, b, visited), f.sources[current];
    PoppedIsPending(f, worklist, done);
    FreshLast(offered, visited);
    OrderGrows(f, b, visited, current);
    LookStarts(f, b, sources, worklist, found, offered, visited);
    LookOrder(f, b, sources, 0, done + {current}, rest, found, offered, visited + [current], found);
    assert sources[0..] == sources;
    var next := Look(f, b, sources, done + {current}, rest, found);
    LookEnds(f, b, current, next.0, next.1, visited);
  }

  lemma {:induction false} SearchOrder(f: Branches, b: nat, worklist: seq<nat>, done: set<nat>, found: seq<nat>,
      visited: seq<nat>) returns (all: seq<nat>)
    requires Closed(f) && Pending(f, worklist, done) && Visited(f, b, worklist, done, found, visited)
    ensures InOrder(f, b, all) && Search(f, b, worklist, done, found) == Found(f, all)
    decreases f.sources.Keys - done
  {
    if worklist == [] {
      all := visited;
      forall c | c in Offered(f, b, visited)
        ensures c in visited
      {
        FreshHas(Offered(f, b, visited), visited, c);
      }
    } else {
      VisitKeeps(f, b, worklist, done, found, visited);
      var current, rest := worklist[|worklist| - 1], worklist[..|worklist| - 1];
      var next := Look(f, b, f.sources[current], done + {current}, rest, found);
      all := SearchOrder(f, b, next.0, done + {current}, next.1, visited + [current]);
    }
  }

  /** The order of the result, for every table: it lists the lossy sources of `b` and of the blocks
      climbed to, block by block and each in the order of the table; the block visited next is
      always the one put on the list last. */
  lemma {:induction false} LodSourcesInOrder(f: Branches, b: nat) returns (visited: seq<nat>)
    requires Closed(f) && b in f.sources
    ensures InOrder(f, b, visited) && LodSources(f, b) == Found(f, visited)
  {
    visited := SearchOrder(f, b, [b], {}, [], []);
  }

  /** There is only one such order. */
  lemma {:induction false} OrderIsUnique(f: Branches, b: nat, v: seq<nat>, w: seq<nat>)
    requires InOrder(f, b, v) && InOrder(f, b, w)
    ensures v == w
  {
    if |w| <= |v| {
      OrderEnds(f, b, v, w);
    } else {
      OrderEnds(f, b, w, v);
    }
  }

  lemma {:induction false} OrderEnds(f: Branches, b: nat, v: seq<nat>, w: seq<nat>)
    requires InOrder(f, b, v) && InOrder(f, b, w) && |w| <= |v|
    ensures v == w
  {
    SamePrefix(f, b, v, w, |w|);
    assert w[..|w|] == w;
    if |w| < |v| {
      MoreToVisit(f, b, v, |w|);
    }
  }

  lemma {:induction false} SamePrefix(f: Branches, b: nat, v: seq<nat>, w: seq<nat>, n: nat)
    requires InOrder(f, b, v) && InOrder(f, b, w) && n <= |v| && n <= |w|
    ensures v[..n] == w[..n]
  {
    if n > 0 {
      SamePrefix(f, b, v, w, n - 1);
      LastNewIsUnique(Offered(f, b, v[..n - 1]), v[..n - 1], v[n - 1], w[n - 1]);
      assert v[..n] == v[..n - 1] + [v[n - 1]] && w[..n] == w[..n - 1] + [w[n - 1]];
    }
  }

  /** Behind the first `n` blocks something is left to visit. */
  lemma {:induction false} MoreToVisit(f: Branches, b: nat, v: seq<nat>, n: nat)
    requires InOrder(f, b, v) && n < |v|
    ensures exists c :: c in Offered(f, b, v[..n]) && c !in v[..n]
  {
    var i: nat :| LastAt(Offered(f, b, v[..n]), v[..n], v[n], i);
    assert v[n] in Offered(f, b, v[..n]);
  }

  lemma {:induction false} FoundGrows(f: Branches, visited: seq<nat>, n: nat)
    requires n <= |visited|
    ensures Found(f, visited[..n]) <= Found(f, visited)
    decreases |visited|
  {
    if n < |visited| {
      var less := visited[..|visited| - 1];
      FoundGrows(f, less, n);
      assert less[..n] == visited[..n];
    } else {
      assert visited[..n] == visited;
    }
  }

  /** `at` are the places of the lossy branches in a list of sources. */
  ghost predicate LossyPlaces(f: Branches, sources: seq<nat>, at: seq<nat>)
  {
    Increasing(at) && forall i: nat :: i in at <==> i < |sources| && sources[i] in f.lossy
  }

  /** The lossy sources of the block itself come first, in the order of the table. */
  lemma {:induction false} OwnSourcesFirst(f: Branches, b: nat) returns (at: seq<nat>)
    requires Closed(f) && b in f.sources
    ensures LossyPlaces(f, f.sources[b], at) && |at| <= |LodSources(f, b)|
    ensures forall k :: 0 <= k < |at| ==> at[k] < |f.sources[b]| && LodSources(f, b)[k] == f.sources[b][at[k]]
  {
    var visited := LodSourcesInOrder(f, b);
    FirstVisited(f, b, visited);
    FoundGrows(f, visited, 1);
    assert visited[..1] == [b] && [b][..0] == [];
    assert Found(f, [b]) == Found(f, []) + Selected(f.sources[b], f.lossy);
    at := SelectedPicks(f.sources[b], f.lossy);
  }

  lemma {:induction false} FirstVisited(f: Branches, b: nat, visited: seq<nat>)
    requires InOrder(f, b, visited)
    ensures visited != [] && visited[0] == b
  {
    assert Offered(f, b, []) == [b] && b in Offered(f, b, []);
    if visited != [] {
      assert visited[..0] == [];
      var i: nat :| LastAt(Offered(f, b, []), [], visited[0], i);
    }
  }

  /** In particular the result begins with the first lossy source of the block, if it has one. */
  lemma {:induction false} FirstLossySourceLeads(f: Branches, b: nat, i: nat)
    requires Closed(f) && b in f.sources && i < |f.sources[b]| && f.sources[b][i] in f.lossy
    requires forall k :: 0 <= k < i ==> f.sources[b][k] !in f.lossy
    ensures LodSources(f, b) != [] && LodSources(f, b)[0] == f.sources[b][i]
  {
    var at := OwnSourcesFirst(f, b);
    assert i in at;
    var h :| 0 <= h < |at| && at[h] == i;
    assert at[0] in at;
  }

  // --------------------------------------------------------------------- for every block

  function LodSourcesOf(f: Branches, blocks: seq<nat>): map<nat, seq<nat>>
    requires Closed(f) && forall b :: b in blocks ==> b in f.sources
  {
    map b | b in blocks :: LodSources(f, b)
  }

  lemma {:induction false} LodSourcesGrow(f: Branches, blocks: seq<nat>, n: nat)
    requires Closed(f) && n < |blocks| && forall b :: b in blocks ==> b in f.sources
    ensures LodSourcesOf(f, blocks[..n + 1]) == LodSourcesOf(f, blocks[..n])[blocks[n] := LodSources(f, blocks[n])]
  {
    assert blocks[..n + 1] == blocks[..n] + [blocks[n]];
  }

  /** The sources that lose decoupling, of every block. */
  method AllLodSources(f: Branches, blocks: seq<nat>) returns (lod: map<nat, seq<nat>>)
    requires Closed(f) && forall b :: b in blocks ==> b in f.sources
    ensures lod == LodSourcesOf(f, blocks)
  {
    lod := map[];
    for n := 0 to |blocks|
      invariant lod == LodSourcesOf(f, blocks[..n])
    {
      var found := GetLodCtrlDepSources(f, blocks[n]);
      LodSourcesGrow(f, blocks, n);
      lod := lod[blocks[n] := found];
    }
    assert blocks[..|blocks|] == blocks;
  }

  /** The worklist search. */
  method GetLodCtrlDepSources(f: Branches, b: nat) returns (found: seq<nat>)
    requires Closed(f) && b in f.sources
    ensures found == LodSources(f, b)
    ensures forall s :: s in found <==> LodSource(f, b, s)
    ensures exists visited :: InOrder(f, b, visited) && found == Found(f, visited)
  {
    found := [];
    var worklist := [b];
    var done: set<nat> := {};
    while worklist != []
      invariant Pending(f, worklist, done)
      invariant Search(f, b, worklist, done, found) == LodSources(f, b)
      decreases f.sources.Keys - done
    {
      var current := worklist[|worklist| - 1];
      PoppedIsPending(f, worklist, done);
      worklist, done := worklist[..|worklist| - 1], done + {current};
      worklist, found := LookAt(f, b, current, worklist, done, found);
    }
    LodSourcesAreFirst(f, b);
    ghost var visited := LodSourcesInOrder(f, b);
  }

  /** Look at the sources of one block. */
  method LookAt(f: Branches, b: nat, current: nat, rest: seq<nat>, done: set<nat>, before: seq<nat>)
    returns (worklist: seq<nat>, found: seq<nat>)
    requires Closed(f) && current in f.sources && Pending(f, rest, done)
    ensures (worklist, found) == Look(f, b, f.sources[current], done, rest, before)
  {
    worklist, found := rest, before;
    ghost var sources := f.sources[current];
    for i := 0 to |f.sources[current]|
      invariant Pending(f, worklist, done)
      invariant Look(f, b, sources[i..], done, worklist, found) == Look(f, b, sources, done, rest, before)
    {
      var s := f.sources[current][i];
      assert sources[i..][0] == s && sources[i..][1..] == sources[i + 1..];
      if s in f.lossy {
        found := found + [s];
      } else if !(b in f.headers && s == f.headers[b]) && s !in done {
        if s !in worklist {
          worklist := worklist + [s];
        }
      }
    }
  }

  /** The search finds exactly the first lossy sources above the block. */
  lemma {:induction false} LodSourcesAreFirst(f: Branches, b: nat)
    requires Closed(f) && b in f.sources
    ensures forall s :: s in LodSources(f, b) <==> LodSource(f, b, s)
  {
    assert Chain(f, [b], b);
    SearchFinds(f, b, [b], {}, []);
  }

  lemma {:induction false} SearchFinds(f: Branches, b: nat, worklist: seq<nat>, done: set<nat>, found: seq<nat>)
    requires Closed(f) && Pending(f, worklist, done)
    requires Sound(f, b, worklist, done, found) && Explored(f, b, done, worklist, found)
    requires b in done || b in worklist
    ensures forall s :: s in Search(f, b, worklist, done, found) <==> LodSource(f, b, s)
    decreases f.sources.Keys - done
  {
    if worklist == [] {
      SearchIsComplete(f, b, done, found);
    } else {
      var current := worklist[|worklist| - 1];
      var rest := worklist[..|worklist| - 1];
      PoppedIsPending(f, worklist, done);
      assert forall c :: c in worklist <==> c in rest || c == current;
      var next := Look(f, b, f.sources[current], done + {current}, rest, found);
      LookFinds(f, b, current, f.sources[current], done + {current}, rest, found);
      SearchFinds(f, b, next.0, done + {current}, next.1);
    }
  }

  lemma {:induction false} SearchIsComplete(f: Branches, b: nat, done: set<nat>, found: seq<nat>)
    requires b in done && Explored(f, b, done, [], found)
    ensures forall s :: LodSource(f, b, s) ==> s in found
  {
    forall s | LodSource(f, b, s)
      ensures s in found
    {
      var c :| Climbs(f, b, c) && c in f.sources && s in f.sources[c];
      var p :| Chain(f, p, b) && p[|p| - 1] == c;
      ClimbsWithin(f, b, done, p);
    }
  }

  lemma {:induction false} LookFinds(f: Branches, b: nat, current: nat, sources: seq<nat>, done: set<nat>,
      rest: seq<nat>, before: seq<nat>)
    requires Closed(f) && Pending(f, rest, done) && current in f.sources && Climbs(f, b, current)
    requires forall s :: s in sources ==> s in f.sources[current]
    requires Sound(f, b, rest, done, before)
    ensures var next := Look(f, b, sources, done, rest, before);
      && Sound(f, b, next.0, done, next.1)
      && (forall c :: c in rest ==> c in next.0) && (forall s :: s in before ==> s in next.1)
      && forall s :: s in sources ==>
        if s in f.lossy then s in next.1 else IsHeader(f, b, s) || s in done || s in next.0
  {
    if sources != [] {
      var s := sources[0];
      if s in f.lossy {
        LookFinds(f, b, current, sources[1..], done, rest, before + [s]);
      } else if IsHeader(f, b, s) || s in done || s in rest {
        LookFinds(f, b, current, sources[1..], done, rest, before);
      } else {
        ClimbsOn(f, b, current, s);
        LookFinds(f, b, current, sources[1..], done, rest + [s], before);
      }
    }
  }

  // --------------------------------------------------------------------------- hoisting

  /** The blocks in topological order, the lossy sources of each, and the loop around it. */
  datatype Plan = Plan(order: seq<nat>, sources: map<nat, seq<nat>>, loopOf: map<nat, nat>)

  type Requests = map<nat, set<nat>>

  predicate Complete(f: Plan)
  {
    && (forall b :: b in f.order ==> b in f.sources && b in f.loopOf)
    && forall b, i {:trigger f.sources[b][i]} :: b in f.order && 0 <= i < |f.sources[b]| ==> f.sources[b][i] in f.order
  }

  predicate SameLoop(f: Plan, b: nat, s: nat)
    requires Complete(f) && b in f.order && s in f.order
  {
    f.loopOf[b] == f.loopOf[s]
  }

  /** The number of leading sources of `b` that lie in another loop. */
  function Foreign(f: Plan, b: nat, i: nat): (k: nat)
    requires Complete(f) && b in f.order && i <= |f.sources[b]|
    ensures i <= k <= |f.sources[b]|
    ensures forall h :: i <= h < k ==> !SameLoop(f, b, f.sources[b][h])
    ensures k < |f.sources[b]| ==> SameLoop(f, b, f.sources[b][k])
    decreases |f.sources[b]| - i
  {
    if i == |f.sources[b]| || SameLoop(f, b, f.sources[b][i]) then i else Foreign(f, b, i + 1)
  }

  predicate Movable(f: Plan, b: nat)
    requires Complete(f) && b in f.order
  {
    exists s :: s in f.sources[b] && SameLoop(f, b, s)
  }

  /** Where the requests of `b` go: to its first source in the same loop. */
  function Target(f: Plan, b: nat): (s: nat)
    requires Complete(f) && b in f.order && Movable(f, b)
    ensures s in f.sources[b] && SameLoop(f, b, s)
  {
    f.sources[b][Foreign(f, b, 0)]
  }

  ghost predicate Keyed(f: Plan, m: Requests)
  {
    forall b :: b in m <==> b in f.order
  }

  ghost predicate At(m: Requests, r: nat, b: nat)
  {
    b in m && r in m[b]
  }

  /** No request is in two blocks. */
  ghost predicate Once(m: Requests)
  {
    forall r, b, c :: At(m, r, b) && At(m, r, c) ==> b == c
  }

  function Moved(m: Requests, b: nat, to: nat): Requests
    requires b in m && to in m
  {
    m[to := m[to] + m[b]][b := {}]
  }

  lemma MovedAt(m: Requests, b: nat, to: nat, r: nat, x: nat)
    requires b in m && to in m && b != to
    ensures At(Moved(m, b, to), r, x) <==> if x == to then At(m, r, to) || At(m, r, b) else x != b && At(m, r, x)
  {
  }

  /** A move keeps a request if and only if it goes to another block: from a block to itself,
      requests are added and then removed. */
  lemma MoveKeepsIffElsewhere(m: Requests, b: nat, to: nat, r: nat)
    requires b in m && to in m && Once(m) && At(m, r, b)
    ensures (exists x :: At(Moved(m, b, to), r, x)) <==> b != to
  {
    if b != to {
      assert At(Moved(m, b, to), r, to);
    } else {
      forall x
        ensures !At(Moved(m, b, to), r, x)
      {
        assert At(m, r, x) ==> x == b;
      }
    }
  }

  // ------------------------------------------------------------ passes over the blocks

  /** One block: its requests go to its first source in the same loop. */
  function Step(f: Plan, m: Requests, b: nat): (m': Requests)
    requires Complete(f) && b in f.order && Keyed(f, m)
    ensures Keyed(f, m')
  {
    if m[b] != {} && Movable(f, b) then Moved(m, b, Target(f, b)) else m
  }

  /** The first `n` blocks of a pass. */
  function PassUpTo(f: Plan, m: Requests, n: nat): (m': Requests)
    requires Complete(f) && Keyed(f, m) && n <= |f.order|
    ensures Keyed(f, m')
  {
    if n == 0 then m else Step(f, PassUpTo(f, m, n - 1), f.order[n - 1])
  }

  /** The first `k` passes. */
  function Passes(f: Plan, m: Requests, k: nat): (m': Requests)
    requires Complete(f) && Keyed(f, m)
    ensures Keyed(f, m')
  {
    if k == 0 then m else PassUpTo(f, Passes(f, m, k - 1), |f.order|)
  }

  /** No request is in a block that still has a source in the same loop. */
  ghost predicate Resting(f: Plan, m: Requests)
    requires Complete(f) && Keyed(f, m)
  {
    forall b {:trigger RestsAt(f, m, b)} :: b in f.order ==> RestsAt(f, m, b)
  }

  ghost predicate RestsAt(f: Plan, m: Requests, b: nat)
    requires Complete(f) && Keyed(f, m) && b in f.order
  {
    m[b] != {} ==> !Movable(f, b)
  }

  method HoistBlock(f: Plan, before: Requests, b: nat) returns (m: Requests, moved: bool)
    requires Complete(f) && Keyed(f, before) && b in f.order
    ensures m == Step(f, before, b)
    ensures moved <==> !RestsAt(f, before, b)
  {
    m, moved := before, false;
    if m[b] == {} {
      return;
    }
    for i := 0 to |f.sources[b]|
      invariant if moved then Movable(f, b) && m == Moved(before, b, Target(f, b)) else m == before && i <= Foreign(f, b, 0)
    {
      var to := f.sources[b][i];
      if f.loopOf[b] != f.loopOf[to] {
        continue;
      }
      assert to in f.sources[b] && SameLoop(f, b, to);
      if moved {
        assert m[to] + m[b] == m[to];
        assert Moved(m, b, to) == m;
      }
      m := Moved(m, b, to);
      moved := true;
    }
  }

  /** One pass over all blocks. */
  method Pass(f: Plan, before: Requests) returns (m: Requests, done: bool)
    requires Complete(f) && Keyed(f, before)
    ensures m == PassUpTo(f, before, |f.order|)
    ensures done <==> Resting(f, before)
    ensures done ==> m == before
  {
    m, done := before, true;
    for n := 0 to |f.order|
      invariant m == PassUpTo(f, before, n)
      invariant if done then m == before && RestedUpTo(f, before, n) else !Resting(f, before)
    {
      var moved;
      m, moved := HoistBlock(f, m, f.order[n]);
      if moved {
        if done {
          assert !RestsAt(f, before, f.order[n]);
        }
        done := false;
      }
      assert done ==> RestedAt(f, before, n);
    }
    if done {
      AllRest(f, before);
    }
  }

  ghost predicate RestedAt(f: Plan, m: Requests, i: nat)
    requires Complete(f) && Keyed(f, m) && i < |f.order|
  {
    RestsAt(f, m, f.order[i])
  }

  ghost predicate RestedUpTo(f: Plan, m: Requests, n: nat)
    requires Complete(f) && Keyed(f, m) && n <= |f.order|
  {
    forall i: nat {:trigger RestedAt(f, m, i)} :: i < n ==> RestedAt(f, m, i)
  }

  lemma {:induction false} AllRest(f: Plan, m: Requests)
    requires Complete(f) && Keyed(f, m) && RestedUpTo(f, m, |f.order|)
    ensures Resting(f, m)
  {
    forall b | b in f.order
      ensures RestsAt(f, m, b)
    {
      var i: nat :| i < |f.order| && f.order[i] == b;
      assert RestedAt(f, m, i);
    }
  }

  // ----------------------------------------------------------------- chains of first sources

  /** Within `n` steps the chain of first sources above `b` comes to a block without one. */
  predicate EndsIn(f: Plan, b: nat, n: nat)
    requires Complete(f) && b in f.order
    decreases n
  {
    !Movable(f, b) || (n > 0 && EndsIn(f, Target(f, b), n - 1))
  }

  ghost predicate Ends(f: Plan, b: nat)
    requires Complete(f) && b in f.order
  {
    exists n: nat :: EndsIn(f, b, n)
  }

  /** Within `n` steps it comes to such a block, or to one that is its own first source. */
  predicate StopsIn(f: Plan, b: nat, n: nat)
    requires Complete(f) && b in f.order
    decreases n
  {
    !Movable(f, b) || (n > 0 && (Target(f, b) == b || StopsIn(f, Target(f, b), n - 1)))
  }

  ghost predicate Stops(f: Plan, b: nat)
    requires Complete(f) && b in f.order
  {
    exists n: nat :: StopsIn(f, b, n)
  }

  /** Where the chain above `b` ends, if it does. */
  ghost function Top(f: Plan, b: nat): (t: nat)
    requires Complete(f) && b in f.order && Ends(f, b)
    ensures t in f.order && !Movable(f, t)
  {
    var n: nat :| EndsIn(f, b, n);
    TopIn(f, b, n)
  }

  function TopIn(f: Plan, b: nat, n: nat): (t: nat)
    requires Complete(f) && b in f.order && EndsIn(f, b, n)
    ensures t in f.order && !Movable(f, t)
    decreases n
  {
    if Movable(f, b) then TopIn(f, Target(f, b), n - 1) else b
  }

  lemma {:induction false} TopsAgree(f: Plan, b: nat, n: nat, k: nat)
    requires Complete(f) && b in f.order && EndsIn(f, b, n) && EndsIn(f, b, k)
    ensures TopIn(f, b, n) == TopIn(f, b, k)
    decreases n
  {
    if Movable(f, b) {
      TopsAgree(f, Target(f, b), n - 1, k - 1);
    }
  }

  /** A block and its target have the same end. */
  lemma {:induction false} TargetEnds(f: Plan, b: nat)
    requires Complete(f) && b in f.order && Movable(f, b)
    ensures Ends(f, b) <==> Ends(f, Target(f, b))
    ensures Ends(f, b) ==> Top(f, b) == Top(f, Target(f, b))
  {
    var t := Target(f, b);
    if Ends(f, t) {
      var n: nat :| EndsIn(f, t, n);
      var k := n + 1;
      assert EndsIn(f, b, k);
    }
    if Ends(f, b) {
      var n: nat :| EndsIn(f, b, n) && TopIn(f, b, n) == Top(f, b);
      assert EndsIn(f, t, n - 1) && TopIn(f, b, n) == TopIn(f, t, n - 1);
      var k: nat :| EndsIn(f, t, k) && TopIn(f, t, k) == Top(f, t);
      TopsAgree(f, t, n - 1, k);
    }
  }

  lemma {:induction false} EndIsTop(f: Plan, b: nat)
    requires Complete(f) && b in f.order && !Movable(f, b)
    ensures Ends(f, b) && Top(f, b) == b
  {
    assert EndsIn(f, b, 0);
  }

  lemma {:induction false} NoEndAtItself(f: Plan, b: nat, n: nat)
    requires Complete(f) && b in f.order && Movable(f, b) && Target(f, b) == b
    ensures !EndsIn(f, b, n)
  {
    if n > 0 {
      NoEndAtItself(f, b, n - 1);
    }
  }

  lemma {:induction false} OwnSource(f: Plan, b: nat)
    requires Complete(f) && b in f.order && Movable(f, b) && Target(f, b) == b
    ensures Stops(f, b) && !Ends(f, b)
  {
    assert StopsIn(f, b, 1);
    forall n: nat
      ensures !EndsIn(f, b, n)
    {
      NoEndAtItself(f, b, n);
    }
  }

  /** Two blocks that are each the other's first source. */
  ghost predicate EachOther(f: Plan, b: nat, c: nat)
    requires Complete(f)
  {
    && b != c && b in f.order && c in f.order && Movable(f, b) && Movable(f, c)
    && Target(f, b) == c && Target(f, c) == b
  }

  lemma {:induction false} EachOtherNeverStops(f: Plan, b: nat, c: nat, n: nat)
    requires Complete(f) && EachOther(f, b, c)
    ensures !StopsIn(f, b, n)
    decreases n
  {
    if n > 0 {
      EachOtherNeverStops(f, c, b, n - 1);
    }
  }

  lemma {:induction false} EndedStops(f: Plan, b: nat, n: nat)
    requires Complete(f) && b in f.order && EndsIn(f, b, n)
    ensures StopsIn(f, b, n)
    decreases n
  {
    if Movable(f, b) {
      EndedStops(f, Target(f, b), n - 1);
    }
  }

  lemma {:induction false} StopsLater(f: Plan, b: nat, n: nat, k: nat)
    requires Complete(f) && b in f.order && StopsIn(f, b, n) && n <= k
    ensures StopsIn(f, b, k)
    decreases n
  {
    if Movable(f, b) && Target(f, b) != b {
      StopsLater(f, Target(f, b), n - 1, k - 1);
    }
  }

  // Whether a chain ends or stops shows within as many steps as there are blocks.

  ghost function EndingIn(f: Plan, n: nat): set<nat>
    requires Complete(f)
  {
    set b | b in f.order && EndsIn(f, b, n)
  }

  ghost function StoppingIn(f: Plan, n: nat): set<nat>
    requires Complete(f)
  {
    set b | b in f.order && StopsIn(f, b, n)
  }

  lemma {:induction false} EndsLater(f: Plan, b: nat, n: nat)
    requires Complete(f) && b in f.order && EndsIn(f, b, n)
    ensures EndsIn(f, b, n + 1)
    decreases n
  {
    if Movable(f, b) {
      EndsLater(f, Target(f, b), n - 1);
    }
  }

  lemma {:induction false} EndingGrows(f: Plan, b: nat, n: nat)
    requires Complete(f) && b in f.order && EndsIn(f, b, n) && (n == 0 || !EndsIn(f, b, n - 1))
    ensures n < |EndingIn(f, n)|
    decreases n
  {
    if n > 0 {
      EndingGrows(f, Target(f, b), n - 1);
      forall c | c in EndingIn(f, n - 1)
        ensures c in EndingIn(f, n)
      {
        EndsLater(f, c, n - 1);
      }
      LargerSet(EndingIn(f, n - 1) + {b}, EndingIn(f, n));
    } else {
      LargerSet({b}, EndingIn(f, n));
    }
  }

  lemma {:induction false} StoppingGrows(f: Plan, b: nat, n: nat)
    requires Complete(f) && b in f.order && StopsIn(f, b, n) && (n == 0 || !StopsIn(f, b, n - 1))
    ensures n <= |StoppingIn(f, n)|
    decreases n
  {
    if n > 0 {
      if Target(f, b) != b {
        StoppingGrows(f, Target(f, b), n - 1);
      }
      forall c | c in StoppingIn(f, n - 1)
        ensures c in StoppingIn(f, n)
      {
        StopsLater(f, c, n - 1, n);
      }
      LargerSet(StoppingIn(f, n - 1) + {b}, StoppingIn(f, n));
    }
  }

  lemma {:induction false} LargerSet(a: set<nat>, b: set<nat>)
    requires a <= b
    ensures |a| <= |b|
  {
    if a != {} {
      var x :| x in a;
      LargerSet(a - {x}, b - {x});
    }
  }

  lemma {:induction false} NoMoreThanListed(a: set<nat>, s: seq<nat>)
    requires forall b :: b in a ==> b in s
    ensures |a| <= |s|
  {
    if s == [] {
      assert a == {};
    } else {
      NoMoreThanListed(a - {s[0]}, s[1..]);
    }
  }

  lemma {:induction false} EndsInTime(f: Plan, b: nat)
    requires Complete(f) && b in f.order
    ensures Ends(f, b) <==> EndsIn(f, b, |f.order|)
  {
    if Ends(f, b) {
      var n: nat :| EndsIn(f, b, n);
      while n > 0 && EndsIn(f, b, n - 1)
        invariant EndsIn(f, b, n)
      {
        n := n - 1;
      }
      EndingGrows(f, b, n);
      NoMoreThanListed(EndingIn(f, n), f.order);
      while n < |f.order|
        invariant n <= |f.order| && EndsIn(f, b, n)
      {
        EndsLater(f, b, n);
        n := n + 1;
      }
    }
  }

  lemma {:induction false} StopsInTime(f: Plan, b: nat)
    requires Complete(f) && b in f.order
    ensures Stops(f, b) <==> StopsIn(f, b, |f.order|)
  {
    if Stops(f, b) {
      var n: nat :| StopsIn(f, b, n);
      while n > 0 && StopsIn(f, b, n - 1)
        invariant StopsIn(f, b, n)
      {
        n := n - 1;
      }
      StoppingGrows(f, b, n);
      NoMoreThanListed(StoppingIn(f, n), f.order);
      StopsLater(f, b, n, |f.order|);
    }
  }

  // -------------------------------------------------------------- what every pass keeps

  ghost predicate SameEnd(f: Plan, b: nat, c: nat)
    requires Complete(f) && b in f.order && c in f.order
  {
    (Ends(f, b) <==> Ends(f, c)) && (Ends(f, b) ==> Top(f, b) == Top(f, c))
  }

  /** `m` has the request in a block whose chain ends as that of `b` does. */
  ghost predicate Holds(f: Plan, m: Requests, r: nat, b: nat)
    requires Complete(f) && Keyed(f, m) && b in f.order
  {
    exists x :: At(m, r, x) && SameEnd(f, b, x)
  }

  /** A request is lost at most if its chain does not end. */
  ghost predicate Kept(f: Plan, first: Requests, m: Requests, r: nat, c: nat)
    requires Complete(f) && Keyed(f, first) && Keyed(f, m)
  {
    At(first, r, c) && Ends(f, c) ==> Holds(f, m, r, c)
  }

  ghost predicate Traced(f: Plan, first: Requests, m: Requests, r: nat, x: nat)
    requires Complete(f) && Keyed(f, first) && Keyed(f, m)
  {
    At(m, r, x) ==> Holds(f, first, r, x)
  }

  /** Every request is in one block at most, on the chain above its first block. */
  ghost predicate Underway(f: Plan, first: Requests, m: Requests)
    requires Complete(f) && Keyed(f, first) && Keyed(f, m)
  {
    && Once(m)
    && (forall r, c {:trigger Kept(f, first, m, r, c)} :: Kept(f, first, m, r, c))
    && (forall r, x {:trigger Traced(f, first, m, r, x)} :: Traced(f, first, m, r, x))
  }

  lemma {:induction false} StepAt(f: Plan, m: Requests, b: nat, r: nat, x: nat)
    requires Complete(f) && b in f.order && Keyed(f, m) && m[b] != {} && Movable(f, b)
    ensures var t := Target(f, b); At(Step(f, m, b), r, x) <==>
      x != b && (At(m, r, x) || (x == t && At(m, r, b)))
  {
  }

  lemma {:induction false} StepKeeps(f: Plan, first: Requests, m: Requests, b: nat)
    requires Complete(f) && Keyed(f, first) && Keyed(f, m) && b in f.order && Underway(f, first, m)
    ensures Underway(f, first, Step(f, m, b))
  {
    if m[b] != {} && Movable(f, b) {
      var m', t := Step(f, m, b), Target(f, b);
      TargetEnds(f, b);
      forall r, x, y | At(m', r, x) && At(m', r, y)
        ensures x == y
      {
        StepAt(f, m, b, r, x);
        StepAt(f, m, b, r, y);
      }
      forall r, c
        ensures Kept(f, first, m', r, c)
      {
        assert Kept(f, first, m, r, c);
        if At(first, r, c) && Ends(f, c) {
          var x :| At(m, r, x) && SameEnd(f, c, x);
          if x == b && t == b {
            var n: nat :| EndsIn(f, b, n);
            NoEndAtItself(f, b, n);
          }
          StepAt(f, m, b, r, if x == b then t else x);
        }
      }
      forall r, x
        ensures Traced(f, first, m', r, x)
      {
        StepAt(f, m, b, r, x);
        assert Traced(f, first, m, r, x) && Traced(f, first, m, r, b);
        if At(m', r, x) && !At(m, r, x) {
          var c :| At(first, r, c) && SameEnd(f, b, c);
          assert SameEnd(f, x, c);
        }
      }
    }
  }

  lemma {:induction false} PassKeeps(f: Plan, first: Requests, m: Requests, n: nat)
    requires Complete(f) && Keyed(f, first) && Keyed(f, m) && n <= |f.order| && Underway(f, first, m)
    ensures Underway(f, first, PassUpTo(f, m, n))
  {
    if n > 0 {
      PassKeeps(f, first, m, n - 1);
      StepKeeps(f, first, PassUpTo(f, m, n - 1), f.order[n - 1]);
    }
  }

  lemma {:induction false} PassesKeep(f: Plan, first: Requests, k: nat)
    requires Complete(f) && Keyed(f, first) && Once(first)
    ensures Underway(f, first, Passes(f, first, k))
  {
    if k > 0 {
      PassesKeep(f, first, k - 1);
      PassKeeps(f, first, Passes(f, first, k - 1), |f.order|);
    } else {
      forall r, c | At(first, r, c)
        ensures Holds(f, first, r, c)
      {
        assert SameEnd(f, c, c);
      }
      forall r, c
        ensures Kept(f, first, first, r, c)
      {
      }
      forall r, c
        ensures Traced(f, first, first, r, c)
      {
      }
    }
  }

  /** At rest a request is in the block at the end of its chain, and nowhere if there is none. */
  ghost predicate Hoisted(f: Plan, first: Requests, m: Requests)
    requires Complete(f) && Keyed(f, first)
  {
    && (forall r, c :: At(first, r, c) ==> forall b :: At(m, r, b) <==> Ends(f, c) && b == Top(f, c))
    && (forall r, b :: At(m, r, b) ==> exists c :: At(first, r, c))
  }

  lemma {:induction false} RestingIsHoisted(f: Plan, first: Requests, m: Requests)
    requires Complete(f) && Keyed(f, first) && Keyed(f, m) && Once(first)
    requires Underway(f, first, m) && Resting(f, m)
    ensures Hoisted(f, first, m)
  {
    forall r, x | At(m, r, x)
      ensures exists c :: At(first, r, c) && Ends(f, c) && Top(f, c) == x
    {
      assert RestsAt(f, m, x) && Traced(f, first, m, r, x);
      EndIsTop(f, x);
    }
    forall r, c | At(first, r, c) && Ends(f, c)
      ensures At(m, r, Top(f, c))
    {
      assert Kept(f, first, m, r, c);
      var x :| At(m, r, x) && SameEnd(f, c, x);
      assert RestsAt(f, m, x);
      EndIsTop(f, x);
    }
  }

  // ------------------------------------------------------------------------ how passes end

  /** The chains above blocks with requests stop within `n` steps. */
  ghost predicate Within(f: Plan, m: Requests, n: nat)
    requires Complete(f) && Keyed(f, m)
  {
    forall b {:trigger WithinAt(f, m, n, b)} :: b in f.order ==> WithinAt(f, m, n, b)
  }

  ghost predicate WithinAt(f: Plan, m: Requests, n: nat, b: nat)
    requires Complete(f) && Keyed(f, m) && b in f.order
  {
    m[b] != {} ==> StopsIn(f, b, n)
  }

  ghost predicate Lowered(f: Plan, m: Requests, k: nat, n: nat)
    requires Complete(f) && Keyed(f, m) && n <= |f.order|
  {
    forall i: nat {:trigger LoweredAt(f, m, k, i)} :: i < n ==> LoweredAt(f, m, k, i)
  }

  ghost predicate LoweredAt(f: Plan, m: Requests, k: nat, i: nat)
    requires Complete(f) && Keyed(f, m) && i < |f.order|
  {
    WithinAt(f, m, k, f.order[i])
  }

  lemma {:induction false} StepLowersAt(f: Plan, m: Requests, b: nat, k: nat, c: nat)
    requires Complete(f) && Keyed(f, m) && b in f.order && c in f.order && WithinAt(f, m, k + 1, b)
    ensures c == b ==> WithinAt(f, Step(f, m, b), k, c)
    ensures WithinAt(f, m, k, c) ==> WithinAt(f, Step(f, m, b), k, c)
    ensures WithinAt(f, m, k + 1, c) ==> WithinAt(f, Step(f, m, b), k + 1, c)
  {
    if m[b] != {} && Movable(f, b) && c == Target(f, b) && c != b {
      StopsLater(f, c, k, k + 1);
    }
  }

  lemma {:induction false} PassLowersUpTo(f: Plan, m: Requests, k: nat, n: nat)
    requires Complete(f) && Keyed(f, m) && n <= |f.order| && Within(f, m, k + 1)
    ensures Within(f, PassUpTo(f, m, n), k + 1) && Lowered(f, PassUpTo(f, m, n), k, n)
  {
    if n > 0 {
      PassLowersUpTo(f, m, k, n - 1);
      var p, b := PassUpTo(f, m, n - 1), f.order[n - 1];
      assert WithinAt(f, p, k + 1, b);
      forall c | c in f.order
        ensures WithinAt(f, Step(f, p, b), k + 1, c)
      {
        assert WithinAt(f, p, k + 1, c);
        StepLowersAt(f, p, b, k, c);
      }
      forall i: nat | i < n
        ensures LoweredAt(f, Step(f, p, b), k, i)
      {
        assert i < n - 1 ==> LoweredAt(f, p, k, i);
        StepLowersAt(f, p, b, k, f.order[i]);
      }
    }
  }

  /** Each pass shortens the chains. */
  lemma {:induction false} PassLowers(f: Plan, m: Requests, k: nat)
    requires Complete(f) && Keyed(f, m) && Within(f, m, k + 1)
    ensures Within(f, PassUpTo(f, m, |f.order|), k)
  {
    PassLowersUpTo(f, m, k, |f.order|);
    var p := PassUpTo(f, m, |f.order|);
    forall b | b in f.order
      ensures WithinAt(f, p, k, b)
    {
      var i: nat :| i < |f.order| && f.order[i] == b;
      assert LoweredAt(f, p, k, i);
    }
  }

  lemma {:induction false} WithinNoneRests(f: Plan, m: Requests)
    requires Complete(f) && Keyed(f, m) && Within(f, m, 0)
    ensures Resting(f, m)
  {
    forall b | b in f.order
      ensures RestsAt(f, m, b)
    {
      assert WithinAt(f, m, 0, b);
    }
  }

  /** The chains above all blocks with requests stop. */
  ghost predicate AllStop(f: Plan, m: Requests)
    requires Complete(f) && Keyed(f, m)
  {
    forall b :: b in f.order && m[b] != {} ==> Stops(f, b)
  }

  lemma {:induction false} FewerRequests(f: Plan, ops: Requests, first: Requests)
    requires Complete(f) && Keyed(f, ops) && Keyed(f, first) && forall b :: b in f.order ==> first[b] <= ops[b]
    ensures AllStop(f, ops) ==> AllStop(f, first)
    ensures Once(ops) ==> Once(first)
  {
    assert forall r, b :: At(first, r, b) ==> At(ops, r, b);
  }

  lemma {:induction false} CommonBound(f: Plan, m: Requests, n: nat) returns (k: nat)
    requires Complete(f) && Keyed(f, m) && AllStop(f, m) && n <= |f.order|
    ensures Lowered(f, m, k, n)
  {
    if n == 0 {
      k := 0;
    } else {
      k := CommonBound(f, m, n - 1);
      var j: nat, b := 0, f.order[n - 1];
      if m[b] != {} {
        j :| StopsIn(f, b, j);
      }
      var high := if j < k then k else j;
      forall i: nat | i < n
        ensures LoweredAt(f, m, high, i)
      {
        if m[f.order[i]] != {} {
          assert i < n - 1 ==> LoweredAt(f, m, k, i);
          StopsLater(f, f.order[i], if i < n - 1 then k else j, high);
        }
      }
      k := high;
    }
  }

  lemma {:induction false} StopsWithin(f: Plan, m: Requests) returns (k: nat)
    requires Complete(f) && Keyed(f, m) && AllStop(f, m)
    ensures Within(f, m, k)
  {
    k := CommonBound(f, m, |f.order|);
    forall b | b in f.order
      ensures WithinAt(f, m, k, b)
    {
      var i: nat :| i < |f.order| && f.order[i] == b;
      assert LoweredAt(f, m, k, i);
    }
  }

  /** Passes until one moves nothing. */
  method HoistAll(f: Plan, first: Requests) returns (m: Requests)
    requires Complete(f) && Keyed(f, first) && AllStop(f, first)
    ensures exists k: nat :: m == Passes(f, first, k)
    ensures Keyed(f, m) && Resting(f, m)
  {
    m := first;
    var done := false;
    ghost var left := StopsWithin(f, first);
    ghost var k: nat := 0;
    while !done
      invariant m == Passes(f, first, k) && Within(f, m, left)
      invariant done ==> Resting(f, m)
      decreases left, !done
    {
      if left > 0 {
        PassLowers(f, m, left - 1);
        left := left - 1;
      } else {
        WithinNoneRests(f, m);
      }
      m, done := Pass(f, m);
      k := k + 1;
    }
  }

  lemma {:induction false} StoppingRests(f: Plan, m: Requests, n: nat) returns (k: nat)
    requires Complete(f) && Keyed(f, m) && Within(f, m, n)
    ensures Resting(f, Passes(f, m, k))
  {
    k := 0;
    while k < n
      invariant k <= n && Within(f, Passes(f, m, k), n - k)
    {
      PassLowers(f, Passes(f, m, k), n - k - 1);
      k := k + 1;
    }
    WithinNoneRests(f, Passes(f, m, k));
  }

  // ------------------------------------------------------------------------- exactly when

  /** A block from which nothing comes to rest hands its requests on to another such block. */
  lemma {:induction false} RestlessMoves(f: Plan, b: nat)
    requires Complete(f) && b in f.order && !Stops(f, b)
    ensures Movable(f, b) && Target(f, b) != b && !Stops(f, Target(f, b))
  {
    assert !StopsIn(f, b, 1);
    if Stops(f, Target(f, b)) {
      var n: nat :| StopsIn(f, Target(f, b), n);
      var k := n + 1;
      assert StopsIn(f, b, k);
    }
  }

  ghost predicate Restless(f: Plan, m: Requests)
    requires Complete(f) && Keyed(f, m)
  {
    exists b :: b in f.order && m[b] != {} && !Stops(f, b)
  }

  lemma {:induction false} StepRestless(f: Plan, m: Requests, b: nat)
    requires Complete(f) && Keyed(f, m) && b in f.order && Restless(f, m)
    ensures Restless(f, Step(f, m, b))
  {
    var c :| c in f.order && m[c] != {} && !Stops(f, c);
    var m' := Step(f, m, b);
    RestlessMoves(f, c);
    if c == b {
      assert m'[Target(f, b)] != {} && !Stops(f, Target(f, b));
    } else {
      assert m'[c] != {};
    }
  }

  lemma {:induction false} PassRestless(f: Plan, m: Requests, n: nat)
    requires Complete(f) && Keyed(f, m) && n <= |f.order| && Restless(f, m)
    ensures Restless(f, PassUpTo(f, m, n))
  {
    if n > 0 {
      PassRestless(f, m, n - 1);
      StepRestless(f, PassUpTo(f, m, n - 1), f.order[n - 1]);
    }
  }

  lemma {:induction false} PassesRestless(f: Plan, m: Requests, k: nat)
    requires Complete(f) && Keyed(f, m) && Restless(f, m)
    ensures Restless(f, Passes(f, m, k)) && !Resting(f, Passes(f, m, k))
  {
    if k > 0 {
      PassesRestless(f, m, k - 1);
      PassRestless(f, Passes(f, m, k - 1), |f.order|);
    }
    var p := Passes(f, m, k);
    var b :| b in f.order && p[b] != {} && !Stops(f, b);
    RestlessMoves(f, b);
    assert !RestsAt(f, p, b);
  }

  ghost predicate RestsAfter(f: Plan, first: Requests, k: nat)
    requires Complete(f) && Keyed(f, first)
  {
    Resting(f, Passes(f, first, k))
  }

  /** Some number of passes leaves every request at rest, so that hoisting ends, if and only if
      above every block with requests the chain of first sources ends or comes to a block that
      is its own first source. */
  lemma {:induction false} RestsIffChainsStop(f: Plan, first: Requests)
    requires Complete(f) && Keyed(f, first)
    ensures (exists k: nat :: RestsAfter(f, first, k)) <==> AllStop(f, first)
  {
    if AllStop(f, first) {
      var n := StopsWithin(f, first);
      var k := StoppingRests(f, first, n);
      assert RestsAfter(f, first, k);
    }
    if k: nat :| RestsAfter(f, first, k) {
      forall b | b in f.order && first[b] != {}
        ensures Stops(f, b)
      {
        if !Stops(f, b) {
          assert Restless(f, first);
          PassesRestless(f, first, k);
        }
      }
      assert AllStop(f, first);
    }
  }

  lemma {:induction false} NeverRests(f: Plan, first: Requests, b: nat, r: nat, k: nat)
    requires Complete(f) && Keyed(f, first) && b in f.order && At(first, r, b) && !Stops(f, b)
    ensures !RestsAfter(f, first, k)
  {
    assert Restless(f, first);
    PassesRestless(f, first, k);
  }

  lemma {:induction false} EachOtherNeverRest(f: Plan, first: Requests, b: nat, c: nat, r: nat, k: nat)
    requires Complete(f) && Keyed(f, first) && At(first, r, b) && EachOther(f, b, c)
    ensures !RestsAfter(f, first, k)
  {
    forall n: nat
      ensures !StopsIn(f, b, n)
    {
      EachOtherNeverStops(f, b, c, n);
    }
    NeverRests(f, first, b, r, k);
  }

  ghost predicate OnlyAt(m: Requests, r: nat, b: nat)
  {
    forall x :: At(m, r, x) <==> x == b
  }

  /** Every request is at rest in exactly one block. */
  ghost predicate Settled(f: Plan, first: Requests, m: Requests)
    requires Complete(f) && Keyed(f, m)
  {
    Resting(f, m) && forall r, c :: At(first, r, c) ==> exists b :: OnlyAt(m, r, b)
  }

  ghost predicate SettledAfter(f: Plan, first: Requests, k: nat)
    requires Complete(f) && Keyed(f, first)
  {
    Settled(f, first, Passes(f, first, k))
  }

  /** Some number of passes leaves every request at rest in exactly one block if and only if
      above every block with requests the chain of first sources ends. */
  lemma {:induction false} SettlesIffChainsEnd(f: Plan, first: Requests)
    requires Complete(f) && Keyed(f, first) && Once(first)
    ensures (exists k: nat :: SettledAfter(f, first, k))
      <==> forall b :: b in f.order && first[b] != {} ==> Ends(f, b)
  {
    if k: nat :| SettledAfter(f, first, k) {
      PassesKeep(f, first, k);
      RestingIsHoisted(f, first, Passes(f, first, k));
      forall b | b in f.order && first[b] != {}
        ensures Ends(f, b)
      {
        var r :| r in first[b];
        assert At(first, r, b);
        var x :| OnlyAt(Passes(f, first, k), r, x);
        assert At(Passes(f, first, k), r, x);
      }
    }
    if forall b :: b in f.order && first[b] != {} ==> Ends(f, b) {
      EndingSettles(f, first);
    }
  }

  lemma {:induction false} EndingSettles(f: Plan, first: Requests)
    requires Complete(f) && Keyed(f, first) && Once(first)
    requires forall b :: b in f.order && first[b] != {} ==> Ends(f, b)
    ensures exists k: nat :: SettledAfter(f, first, k)
  {
    forall b | b in f.order && first[b] != {}
      ensures Stops(f, b)
    {
      var n: nat :| EndsIn(f, b, n);
      EndedStops(f, b, n);
    }
    RestsIffChainsStop(f, first);
    var k: nat :| RestsAfter(f, first, k);
    var m := Passes(f, first, k);
    PassesKeep(f, first, k);
    RestingIsHoisted(f, first, m);
    forall r, c | At(first, r, c)
      ensures exists b :: OnlyAt(m, r, b)
    {
      assert OnlyAt(m, r, Top(f, c));
    }
    assert SettledAfter(f, first, k);
  }

  // ------------------------------------------------------------------------ the whole step

  /** Requests that have come back to their own block, or never left it, are not speculated;
      blocks without requests are dropped. */
  method CleanUp(f: Plan, first: Requests, m: Requests) returns (placed: Requests)
    requires Keyed(f, first) && Keyed(f, m)
    ensures forall r, b :: At(placed, r, b) <==> At(m, r, b) && !At(first, r, b)
    ensures forall b :: b in placed ==> placed[b] != {}
  {
    placed := map[];
    for n := 0 to |f.order|
      invariant forall r, b :: At(placed, r, b) <==> b in f.order[..n] && At(m, r, b) && !At(first, r, b)
      invariant forall b :: b in placed ==> placed[b] != {}
    {
      var b := f.order[n];
      var hoisted := m[b] - first[b];
      assert f.order[..n + 1] == f.order[..n] + [b];
      assert forall r :: r in hoisted <==> At(m, r, b) && !At(first, r, b);
      if hoisted != {} {
        placed := placed[b := hoisted];
      }
    }
    assert f.order[..|f.order|] == f.order;
  }

  /** Every request is at the end of the chain above its first block, if it has one, and that is
      another block; there are no others. */
  ghost predicate Placed(f: Plan, first: Requests, placed: Requests)
    requires Complete(f) && Keyed(f, first)
  {
    && (forall r, c :: At(first, r, c) ==> forall b :: At(placed, r, b) <==> Ends(f, c) && b == Top(f, c) && b != c)
    && forall r, b :: At(placed, r, b) ==> exists c :: At(first, r, c)
  }

  /** The whole step, wherever it ends: every request moves exactly to the end of the chain of
      first sources above its own block, and is kept if that is another block; if the chain has
      no end, the request is lost. */
  method HoistSpeculativeRequests(f: Plan, first: Requests) returns (placed: Requests)
    requires Complete(f) && Keyed(f, first) && Once(first) && AllStop(f, first)
    ensures Placed(f, first, placed)
    ensures forall b :: b in placed ==> placed[b] != {}
  {
    var m := HoistAll(f, first);
    placed := CleanUp(f, first, m);
    ghost var k: nat :| m == Passes(f, first, k);
    PassesKeep(f, first, k);
    RestingIsHoisted(f, first, m);
  }
}
