/**
 Weighted graphs as square matrices in row-major order, and walks in them: their weight, how
 walks join and fall into parts, and what it means for a number to be the least weight of all
 walks from one node to another.  The benchmarks compute with 32-bit numbers, whose addition
 wraps around.
 */
module Walks {
  const INT_MAX: int := 0x7FFF_FFFF

  /** Addition of 32-bit numbers: it wraps around. */
  function Plus(a: int, b: int): int
  {
    if a + b > INT_MAX then a + b - 0x1_0000_0000
    else if a + b < -INT_MAX - 1 then a + b + 0x1_0000_0000
    else a + b
  }

  /** The value in the range of 32-bit numbers that differs from the sum by a multiple of 2^32. */
  lemma PlusIsTwosComplement(a: int, b: int)
    requires -INT_MAX - 1 <= a <= INT_MAX && -INT_MAX - 1 <= b <= INT_MAX
    ensures -0x8000_0000 <= Plus(a, b) <= 0x7FFF_FFFF
    ensures Plus(a, b) % 0x1_0000_0000 == (a + b) % 0x1_0000_0000
  {
    var q := if a + b > INT_MAX then 1 else if a + b < -INT_MAX - 1 then -1 else 0;
    assert Plus(a, b) == a + b - q * 0x1_0000_0000;
  }

  function Index(n: nat, i: nat, j: nat): (k: nat)
  {
    i * n + j
  }

  function Cell(m: seq<int>, n: nat, i: nat, j: nat): int
  {
    if Index(n, i, j) < |m| then m[Index(n, i, j)] else 0
  }

  predicate Square(m: seq<int>, n: nat)
  {
    |m| == n * n
  }

  lemma {:induction false} RowsAreOrdered(n: nat, a: nat, b: nat)
    requires a <= b
    ensures a * n <= b * n
  {
    if a < b {
      RowsAreOrdered(n, a, b - 1);
      assert (b - 1) * n + n == b * n;
    }
  }

  lemma IndexInside(n: nat, i: nat, j: nat)
    requires i < n && j < n
    ensures Index(n, i, j) < n * n
  {
    RowsAreOrdered(n, i + 1, n);
    assert (i + 1) * n == i * n + n;
  }

  /** Row by row. */
  lemma IndexIsOrdered(n: nat, i: nat, j: nat, i': nat, j': nat)
    requires j < n && j' < n && i < i'
    ensures Index(n, i, j) < Index(n, i', j')
  {
    RowsAreOrdered(n, i + 1, i');
    assert (i + 1) * n == i * n + n;
  }

  lemma IndexIsUnique(n: nat, i: nat, j: nat, i': nat, j': nat)
    requires i < n && j < n && i' < n && j' < n && Index(n, i, j) == Index(n, i', j')
    ensures i == i' && j == j'
  {
    if i < i' {
      IndexIsOrdered(n, i, j, i', j');
    } else if i' < i {
      IndexIsOrdered(n, i', j', i, j);
    }
  }

  lemma CellUpdated(m: seq<int>, n: nat, i: nat, j: nat, v: int, x: nat, y: nat)
    requires Square(m, n) && i < n && j < n && x < n && y < n && Index(n, i, j) < |m|
    ensures Cell(m[Index(n, i, j) := v], n, x, y) == if x == i && y == j then v else Cell(m, n, x, y)
  {
    IndexInside(n, x, y);
    if Index(n, i, j) == Index(n, x, y) {
      IndexIsUnique(n, i, j, x, y);
    }
  }

  predicate NonNegative(m: seq<int>, n: nat)
  {
    forall i: nat, j: nat :: i < n && j < n ==> Cell(m, n, i, j) >= 0
  }

  // --------------------------------------------------------------------------------- walks

  predicate Walk(n: nat, w: seq<nat>, a: nat, b: nat)
  {
    w != [] && w[0] == a && w[|w| - 1] == b && forall k :: 0 <= k < |w| ==> w[k] < n
  }

  function Weight(m: seq<int>, n: nat, w: seq<nat>): int
  {
    if |w| < 2 then 0 else Cell(m, n, w[0], w[1]) + Weight(m, n, w[1..])
  }

  /** Going along two walks that meet. */
  function Join(v: seq<nat>, w: seq<nat>): seq<nat>
    requires w != []
  {
    v + w[1..]
  }

  lemma {:induction false} WeightOfJoin(m: seq<int>, n: nat, v: seq<nat>, w: seq<nat>, a: nat, b: nat, c: nat)
    requires Walk(n, v, a, b) && Walk(n, w, b, c)
    ensures Walk(n, Join(v, w), a, c)
    ensures Weight(m, n, Join(v, w)) == Weight(m, n, v) + Weight(m, n, w)
    decreases |v|
  {
    if |v| == 1 {
      assert Join(v, w) == w;
    } else {
      WeightOfJoin(m, n, v[1..], w, v[1], b, c);
      assert Join(v, w)[1..] == Join(v[1..], w);
    }
  }

  lemma {:induction false} WeightIsNonNegative(m: seq<int>, n: nat, w: seq<nat>, a: nat, b: nat)
    requires NonNegative(m, n) && Walk(n, w, a, b)
    ensures Weight(m, n, w) >= 0
    decreases |w|
  {
    if |w| >= 2 {
      WeightIsNonNegative(m, n, w[1..], w[1], b);
    }
  }

  /** Cutting a walk at position `k`. */
  lemma WeightOfParts(m: seq<int>, n: nat, w: seq<nat>, a: nat, b: nat, k: nat)
    requires Walk(n, w, a, b) && k < |w|
    ensures Walk(n, w[..k + 1], a, w[k]) && Walk(n, w[k..], w[k], b)
    ensures Weight(m, n, w) == Weight(m, n, w[..k + 1]) + Weight(m, n, w[k..])
  {
    WeightOfJoin(m, n, w[..k + 1], w[k..], a, w[k], b);
    assert Join(w[..k + 1], w[k..]) == w;
  }

  /** Some walk has weight `v`. */
  ghost predicate Achieved(m: seq<int>, n: nat, a: nat, b: nat, v: int)
  {
    exists w :: Walk(n, w, a, b) && Weight(m, n, w) == v
  }

  /** `v` is the least weight of all walks from `a` to `b`. */
  ghost predicate IsDistance(m: seq<int>, n: nat, a: nat, b: nat, v: int)
  {
    Achieved(m, n, a, b, v) && forall w :: Walk(n, w, a, b) ==> v <= Weight(m, n, w)
  }

  lemma AchievedByEdge(m: seq<int>, n: nat, a: nat, b: nat)
    requires a < n && b < n
    ensures Achieved(m, n, a, b, Cell(m, n, a, b))
  {
    var w := [a, b];
    assert Walk(n, w, a, b) && w[1..] == [b];
    assert Weight(m, n, w) == Cell(m, n, a, b) + Weight(m, n, [b]);
  }

  lemma AchievedByStaying(m: seq<int>, n: nat, a: nat)
    requires a < n
    ensures Achieved(m, n, a, a, 0)
  {
    assert Walk(n, [a], a, a) && Weight(m, n, [a]) == 0;
  }

  lemma AchievedByJoin(m: seq<int>, n: nat, a: nat, b: nat, c: nat, u: int, v: int)
    requires Achieved(m, n, a, b, u) && Achieved(m, n, b, c, v)
    ensures Achieved(m, n, a, c, u + v)
  {
    var p :| Walk(n, p, a, b) && Weight(m, n, p) == u;
    var q :| Walk(n, q, b, c) && Weight(m, n, q) == v;
    WeightOfJoin(m, n, p, q, a, b, c);
  }
}
