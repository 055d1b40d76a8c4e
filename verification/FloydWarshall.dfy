/**
 All shortest distances, in place, by relaxing over one intermediate node per round.  Sums are
 32-bit sums; the result is right exactly if none of them wraps around, and that is a
 condition on the weights.
 */
module FloydWarshall {
  import opened Walks

  /** Zero on the diagonal and no negative weight. */
  predicate Usable(m: seq<int>, n: nat)
  {
    && Square(m, n)
    && (forall i: nat :: i < n ==> Cell(m, n, i, i) == 0)
    && (forall i: nat, j: nat :: i < n && j < n ==> 0 <= Cell(m, n, i, j) <= INT_MAX)
  }

  /** The nodes between the ends are all smaller than `k`. */
  predicate Below(w: seq<nat>, k: nat)
  {
    forall h :: 0 < h < |w| - 1 ==> w[h] < k
  }

  /** `v` is the least weight of the walks over nodes smaller than `k`. */
  ghost predicate IsDistanceBelow(m: seq<int>, n: nat, i: nat, j: nat, k: nat, v: int)
  {
    && (exists w :: Walk(n, w, i, j) && Below(w, k) && Weight(m, n, w) == v)
    && forall w :: Walk(n, w, i, j) && Below(w, k) ==> v <= Weight(m, n, w)
  }

  /** There are walks over nodes smaller than `k`, from `i` to `k` and on to `j`, whose
      weights add up in 32 bits. */
  ghost predicate FitsVia(m: seq<int>, n: nat, k: nat, i: nat, j: nat)
  {
    exists p, q :: Walk(n, p, i, k) && Below(p, k) && Walk(n, q, k, j) && Below(q, k) &&
                   Weight(m, n, p) + Weight(m, n, q) <= INT_MAX
  }

  ghost predicate FitsBefore(m: seq<int>, n: nat, k: nat)
  {
    forall h: nat, i: nat, j: nat :: h < k && i < n && j < n ==> FitsVia(m, n, h, i, j)
  }

  ghost predicate AllDistances(m: seq<int>, d: seq<int>, n: nat)
  {
    forall i: nat, j: nat :: i < n && j < n ==> IsDistance(m, n, i, j, Cell(d, n, i, j))
  }

  /** Before round `k` the entries are the distances over smaller nodes. */
  ghost predicate Rounds(m: seq<int>, d: seq<int>, n: nat, k: nat)
  {
    && Usable(d, n)
    && forall i: nat, j: nat :: i < n && j < n ==> IsDistanceBelow(m, n, i, j, k, Cell(d, n, i, j))
  }

  ghost predicate SomeNegative(d: seq<int>, n: nat)
  {
    exists i: nat, j: nat :: i < n && j < n && Cell(d, n, i, j) < 0
  }

  // --------------------------------------------------------------------------- one round

  function Relaxed(d: seq<int>, n: nat, k: nat, i: nat, j: nat): int
  {
    var through := Cell(d, n, i, k) + Cell(d, n, k, j);
    if Cell(d, n, i, j) > through then through else Cell(d, n, i, j)
  }

  predicate Earlier(x: nat, y: nat, i: nat, j: nat)
  {
    x < i || (x == i && y < j)
  }

  /** In round `k`, entries up to position (`i`, `j`) are relaxed and the others are not. */
  ghost predicate RelaxedUpTo(d: seq<int>, e: seq<int>, n: nat, k: nat, i: nat, j: nat)
  {
    && |e| == |d|
    && forall x: nat, y: nat :: x < n && y < n ==>
      Cell(e, n, x, y) == if Earlier(x, y, i, j) then Relaxed(d, n, k, x, y) else Cell(d, n, x, y)
  }

  ghost predicate SumsFitUpTo(d: seq<int>, n: nat, k: nat, i: nat, j: nat)
  {
    forall x: nat, y: nat :: x < n && y < n && Earlier(x, y, i, j) ==> Cell(d, n, x, k) + Cell(d, n, k, y) <= INT_MAX
  }

  /** As long as no sum wraps around, entries are relaxed one by one; afterwards some entry is
      negative. */
  ghost predicate RoundSoFar(d: seq<int>, e: seq<int>, n: nat, k: nat, i: nat, j: nat)
  {
    && |e| == |d|
    && (Usable(d, n) && SumsFitUpTo(d, n, k, i, j) ==> RelaxedUpTo(d, e, n, k, i, j))
    && (Usable(d, n) && !SumsFitUpTo(d, n, k, i, j) ==> SomeNegative(e, n))
    && (SomeNegative(d, n) ==> SomeNegative(e, n))
  }

  /** Row `k` and column `k` stay fixed during round `k`. */
  lemma PivotIsFixed(d: seq<int>, n: nat, k: nat, x: nat)
    requires Usable(d, n) && k < n && x < n
    ensures Relaxed(d, n, k, x, k) == Cell(d, n, x, k) && Relaxed(d, n, k, k, x) == Cell(d, n, k, x)
  {
  }

  function Step(e: seq<int>, n: nat, k: nat, i: nat, j: nat): int
  {
    var through := Plus(Cell(e, n, i, k), Cell(e, n, k, j));
    if Cell(e, n, i, j) > through then through else Cell(e, n, i, j)
  }

  lemma StepKeepsNegative(e: seq<int>, n: nat, k: nat, i: nat, j: nat)
    requires Square(e, n) && i < n && j < n && Index(n, i, j) < |e| && SomeNegative(e, n)
    ensures SomeNegative(e[Index(n, i, j) := Step(e, n, k, i, j)], n)
  {
    var x: nat, y: nat :| x < n && y < n && Cell(e, n, x, y) < 0;
    CellUpdated(e, n, i, j, Step(e, n, k, i, j), x, y);
    assert Cell(e[Index(n, i, j) := Step(e, n, k, i, j)], n, x, y) < 0;
  }

  lemma StepRelaxes(d: seq<int>, e: seq<int>, n: nat, k: nat, i: nat, j: nat)
    requires Usable(d, n) && k < n && i < n && j < n && RelaxedUpTo(d, e, n, k, i, j)
    requires Index(n, i, j) < |e|
    ensures var v := Step(e, n, k, i, j);
      if Cell(d, n, i, k) + Cell(d, n, k, j) <= INT_MAX then RelaxedUpTo(d, e[Index(n, i, j) := v], n, k, i, j + 1)
      else SomeNegative(e[Index(n, i, j) := v], n)
  {
    PivotIsFixed(d, n, k, i);
    PivotIsFixed(d, n, k, j);
    var v := Step(e, n, k, i, j);
    forall x: nat, y: nat | x < n && y < n
      ensures Cell(e[Index(n, i, j) := v], n, x, y) == if x == i && y == j then v else Cell(e, n, x, y)
    {
      CellUpdated(e, n, i, j, v, x, y);
    }
  }

  lemma StepGoesOn(d: seq<int>, e: seq<int>, n: nat, k: nat, i: nat, j: nat)
    requires Square(d, n) && k < n && i < n && j < n && RoundSoFar(d, e, n, k, i, j)
    requires Index(n, i, j) < |e|
    ensures RoundSoFar(d, e[Index(n, i, j) := Step(e, n, k, i, j)], n, k, i, j + 1)
  {
    if SomeNegative(e, n) {
      StepKeepsNegative(e, n, k, i, j);
    }
    if Usable(d, n) && SumsFitUpTo(d, n, k, i, j) {
      StepRelaxes(d, e, n, k, i, j);
    }
    assert SumsFitUpTo(d, n, k, i, j + 1) <==>
      SumsFitUpTo(d, n, k, i, j) && Cell(d, n, i, k) + Cell(d, n, k, j) <= INT_MAX by {
      assert Earlier(i, j, i, j + 1);
      assert forall x: nat, y: nat :: Earlier(x, y, i, j + 1) <==> Earlier(x, y, i, j) || (x == i && y == j);
    }
  }

  method Round(dist: array<int>, n: nat, k: nat)
    requires Square(dist[..], n) && k < n
    modifies dist
    ensures RoundSoFar(old(dist[..]), dist[..], n, k, n, 0)
  {
    ghost var d := dist[..];
    for i := 0 to n
      invariant RoundSoFar(d, dist[..], n, k, i, 0)
    {
      for j := 0 to n
        invariant RoundSoFar(d, dist[..], n, k, i, j)
      {
        IndexInside(n, i, j);
        IndexInside(n, i, k);
        IndexInside(n, k, j);
        ghost var e := dist[..];
        StepGoesOn(d, e, n, k, i, j);
        if dist[Index(n, i, j)] > Plus(dist[Index(n, i, k)], dist[Index(n, k, j)]) {
          dist[Index(n, i, j)] := Plus(dist[Index(n, i, k)], dist[Index(n, k, j)]);
        }
        assert dist[..] == e[Index(n, i, j) := Step(e, n, k, i, j)];
      }
    }
  }

  // --------------------------------------------------------------------------- all rounds

  /** The three nested loops: the entries end as the distances if and only if every sum over
      an intermediate node fits. */
  method Kernel(dist: array<int>, n: nat)
    requires Usable(dist[..], n)
    modifies dist
    ensures AllDistances(old(dist[..]), dist[..], n) <==> FitsBefore(old(dist[..]), n, n)
  {
    ghost var m := dist[..];
    RoundsBegin(m, n);
    for k := 0 to n
      invariant |dist[..]| == |m|
      invariant FitsBefore(m, n, k) ==> Rounds(m, dist[..], n, k)
      invariant !FitsBefore(m, n, k) ==> SomeNegative(dist[..], n)
    {
      ghost var d := dist[..];
      Round(dist, n, k);
      RoundDone(m, d, dist[..], n, k);
    }
    RoundsEnd(m, dist[..], n);
  }

  lemma RoundDone(m: seq<int>, d: seq<int>, e: seq<int>, n: nat, k: nat)
    requires Square(m, n) && k < n && RoundSoFar(d, e, n, k, n, 0)
    requires FitsBefore(m, n, k) ==> Rounds(m, d, n, k)
    requires !FitsBefore(m, n, k) ==> SomeNegative(d, n)
    ensures FitsBefore(m, n, k + 1) ==> Rounds(m, e, n, k + 1)
    ensures !FitsBefore(m, n, k + 1) ==> SomeNegative(e, n)
  {
    if FitsBefore(m, n, k) {
      SumsFitIffWalksFit(m, d, n, k);
      if FitsBefore(m, n, k + 1) {
        RoundAdvances(m, d, e, n, k);
      }
    }
  }

  /** The sums of round `k` fit exactly if the walks they stand for do. */
  lemma SumsFitIffWalksFit(m: seq<int>, d: seq<int>, n: nat, k: nat)
    requires Rounds(m, d, n, k) && k < n && FitsBefore(m, n, k)
    ensures SumsFitUpTo(d, n, k, n, 0) <==> FitsBefore(m, n, k + 1)
  {
    if SumsFitUpTo(d, n, k, n, 0) {
      forall h: nat, i: nat, j: nat | h < k + 1 && i < n && j < n
        ensures FitsVia(m, n, h, i, j)
      {
        if h == k {
          assert Earlier(i, j, n, 0);
          SumFitsIffWalksFit(m, d, n, k, i, j);
        }
      }
    }
    if FitsBefore(m, n, k + 1) {
      forall i: nat, j: nat | i < n && j < n && Earlier(i, j, n, 0)
        ensures Cell(d, n, i, k) + Cell(d, n, k, j) <= INT_MAX
      {
        assert FitsVia(m, n, k, i, j);
        SumFitsIffWalksFit(m, d, n, k, i, j);
      }
    }
  }

  lemma SumFitsIffWalksFit(m: seq<int>, d: seq<int>, n: nat, k: nat, i: nat, j: nat)
    requires Rounds(m, d, n, k) && k < n && i < n && j < n
    ensures Cell(d, n, i, k) + Cell(d, n, k, j) <= INT_MAX <==> FitsVia(m, n, k, i, j)
  {
    assert IsDistanceBelow(m, n, i, k, k, Cell(d, n, i, k));
    assert IsDistanceBelow(m, n, k, j, k, Cell(d, n, k, j));
  }

  lemma RoundsBegin(m: seq<int>, n: nat)
    requires Usable(m, n)
    ensures Rounds(m, m, n, 0)
  {
    forall i: nat, j: nat | i < n && j < n
      ensures IsDistanceBelow(m, n, i, j, 0, Cell(m, n, i, j))
    {
      EdgeIsWalk(m, n, i, j);
      forall w | Walk(n, w, i, j) && Below(w, 0)
        ensures Cell(m, n, i, j) <= Weight(m, n, w)
      {
        if |w| == 2 {
          assert Weight(m, n, w[1..]) == 0;
        }
      }
    }
  }

  lemma EdgeIsWalk(m: seq<int>, n: nat, i: nat, j: nat)
    requires i < n && j < n
    ensures Walk(n, [i, j], i, j) && Below([i, j], 0) && Weight(m, n, [i, j]) == Cell(m, n, i, j)
  {
    assert [i, j][1..] == [j];
  }

  lemma RoundsEnd(m: seq<int>, d: seq<int>, n: nat)
    requires Usable(m, n)
    requires FitsBefore(m, n, n) ==> Rounds(m, d, n, n)
    requires !FitsBefore(m, n, n) ==> SomeNegative(d, n)
    ensures AllDistances(m, d, n) <==> FitsBefore(m, n, n)
  {
    if FitsBefore(m, n, n) {
      forall i: nat, j: nat | i < n && j < n
        ensures IsDistance(m, n, i, j, Cell(d, n, i, j))
      {
        assert IsDistanceBelow(m, n, i, j, n, Cell(d, n, i, j));
        assert forall w :: Walk(n, w, i, j) ==> Below(w, n);
      }
    } else {
      var i: nat, j: nat :| i < n && j < n && Cell(d, n, i, j) < 0;
      forall w | Walk(n, w, i, j)
        ensures Weight(m, n, w) >= 0
      {
        WeightIsNonNegative(m, n, w, i, j);
      }
      assert !IsDistance(m, n, i, j, Cell(d, n, i, j));
    }
  }

  lemma RoundAdvances(m: seq<int>, d: seq<int>, e: seq<int>, n: nat, k: nat)
    requires Rounds(m, d, n, k) && k < n && RelaxedUpTo(d, e, n, k, n, 0)
    ensures Rounds(m, e, n, k + 1)
  {
    forall i: nat, j: nat | i < n && j < n
      ensures IsDistanceBelow(m, n, i, j, k + 1, Cell(e, n, i, j))
      ensures 0 <= Cell(e, n, i, j) <= INT_MAX
      ensures i == j ==> Cell(e, n, i, j) == 0
    {
      RelaxedIsAchieved(m, d, n, k, i, j);
      forall w | Walk(n, w, i, j) && Below(w, k + 1)
        ensures Cell(e, n, i, j) <= Weight(m, n, w)
      {
        WalksOverOneMore(m, d, e, n, k, w, i, j);
      }
    }
  }

  lemma RelaxedIsAchieved(m: seq<int>, d: seq<int>, n: nat, k: nat, i: nat, j: nat)
    requires Rounds(m, d, n, k) && k < n && i < n && j < n
    ensures exists w :: Walk(n, w, i, j) && Below(w, k + 1) && Weight(m, n, w) == Relaxed(d, n, k, i, j)
  {
    assert IsDistanceBelow(m, n, i, j, k, Cell(d, n, i, j));
    var w :| Walk(n, w, i, j) && Below(w, k) && Weight(m, n, w) == Cell(d, n, i, j);
    assert IsDistanceBelow(m, n, i, k, k, Cell(d, n, i, k));
    var p :| Walk(n, p, i, k) && Below(p, k) && Weight(m, n, p) == Cell(d, n, i, k);
    assert IsDistanceBelow(m, n, k, j, k, Cell(d, n, k, j));
    var q :| Walk(n, q, k, j) && Below(q, k) && Weight(m, n, q) == Cell(d, n, k, j);
    WeightOfJoin(m, n, p, q, i, k, j);
    assert Below(w, k + 1) && Below(Join(p, q), k + 1);
  }

  /** A walk over nodes up to `k`: it avoids `k`, or goes on from its first visit to `k`. */
  lemma {:induction false} WalksOverOneMore(m: seq<int>, d: seq<int>, e: seq<int>, n: nat, k: nat, w: seq<nat>,
      i: nat, j: nat)
    requires Rounds(m, d, n, k) && k < n && RelaxedUpTo(d, e, n, k, n, 0)
    requires i < n && j < n && Walk(n, w, i, j) && Below(w, k + 1)
    ensures Cell(e, n, i, j) <= Weight(m, n, w)
    decreases |w|
  {
    assert Cell(e, n, i, j) == Relaxed(d, n, k, i, j);
    if Below(w, k) {
      assert IsDistanceBelow(m, n, i, j, k, Cell(d, n, i, j));
    } else {
      var h := FirstVisit(w, k);
      WeightOfParts(m, n, w, i, j, h);
      assert IsDistanceBelow(m, n, i, k, k, Cell(d, n, i, k)) && Below(w[..h + 1], k);
      assert Below(w[h..], k + 1);
      WalksOverOneMore(m, d, e, n, k, w[h..], k, j);
      PivotIsFixed(d, n, k, j);
    }
  }

  lemma FirstVisit(w: seq<nat>, k: nat) returns (h: nat)
    requires Below(w, k + 1) && !Below(w, k)
    ensures 0 < h < |w| - 1 && w[h] == k && forall x :: 0 < x < h ==> w[x] < k
  {
    h := 1;
    while w[h] < k
      invariant 0 < h < |w| - 1 && forall x :: 0 < x < h ==> w[x] < k
      decreases |w| - h
    {
      h := h + 1;
      if h == |w| - 1 {
        assert Below(w, k);
      }
    }
  }

  /** Weights of at most half the greatest 32-bit number always fit. */
  lemma SmallWeightsFit(m: seq<int>, n: nat)
    requires forall i: nat, j: nat :: i < n && j < n ==> Cell(m, n, i, j) <= INT_MAX / 2
    ensures FitsBefore(m, n, n)
  {
    forall k: nat, i: nat, j: nat | k < n && i < n && j < n
      ensures FitsVia(m, n, k, i, j)
    {
      EdgeIsWalk(m, n, i, k);
      EdgeIsWalk(m, n, k, j);
      assert Below([i, k], k) && Below([k, j], k);
    }
  }
}
