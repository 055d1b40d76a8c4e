/**
 The bitonic network of the sorting benchmark.  Stage `k` turns neighbouring runs of length
 `k / 2`, one rising and one falling, into one run of length `k`; it does so by half-cleaning
 blocks of length `k`, `k / 2`, ..., 2.
 */
module Bitonic {

  // ----------------------------------------------------------------- bits of an index

  function Xor(a: nat, b: nat): nat
    decreases a
  {
    if a == 0 then b else if b == 0 then a else (if a % 2 == b % 2 then 0 else 1) + 2 * Xor(a / 2, b / 2)
  }

  function And(a: nat, b: nat): nat
    decreases a
  {
    if a == 0 || b == 0 then 0 else (if a % 2 == 1 && b % 2 == 1 then 1 else 0) + 2 * And(a / 2, b / 2)
  }

  predicate IsPowerOfTwo(n: nat)
  {
    n == 1 || (n > 0 && n % 2 == 0 && IsPowerOfTwo(n / 2))
  }

  predicate IsHalf(j: nat)
  {
    IsPowerOfTwo(j) && IsPowerOfTwo(2 * j)
  }

  lemma {:induction false} PowerIsHalf(j: nat)
    requires IsPowerOfTwo(j)
    ensures IsHalf(j)
  {
    assert (2 * j) / 2 == j;
  }

  /** `x` shifted right until bit `k` is its lowest bit: the number of the block of length `k`
      that holds position `x`. */
  function Shift(x: nat, k: nat): (q: nat)
    requires IsPowerOfTwo(k)
    ensures q <= x
  {
    if k == 1 then x else Shift(x / 2, k / 2)
  }

  /** The first position of block number `q`. */
  function Start(q: nat, k: nat): nat
    requires IsPowerOfTwo(k)
  {
    if k == 1 then q else 2 * Start(q, k / 2)
  }

  lemma {:induction false} AndTests(i: nat, k: nat)
    requires IsPowerOfTwo(k)
    ensures And(i, k) == 0 <==> Shift(i, k) % 2 == 0
  {
    if k > 1 {
      AndTests(i / 2, k / 2);
    }
  }

  lemma {:induction false} ShiftFlips(i: nat, j: nat)
    requires IsPowerOfTwo(j)
    ensures Shift(i, j) % 2 == 0 ==> Shift(i + j, j) == Shift(i, j) + 1
    ensures Shift(i, j) % 2 == 1 ==> i >= j && Shift(i - j, j) == Shift(i, j) - 1
  {
    if j > 1 {
      ShiftFlips(i / 2, j / 2);
      assert (i + j) / 2 == i / 2 + j / 2;
      assert i >= j ==> (i - j) / 2 == i / 2 - j / 2;
    }
  }

  lemma {:induction false} XorFlips(i: nat, j: nat)
    requires IsPowerOfTwo(j)
    ensures Shift(i, j) % 2 == 0 ==> Xor(i, j) == i + j
    ensures Shift(i, j) % 2 == 1 ==> Xor(i, j) == i - j
    decreases j
  {
    if j == 1 {
      XorOne(i);
    } else {
      XorFlips(i / 2, j / 2);
      XorEven(i, j);
    }
  }

  lemma {:induction false} XorOne(i: nat)
    ensures Xor(i, 1) == if i % 2 == 0 then i + 1 else i - 1
  {
    assert i > 0 ==> Xor(i / 2, 0) == i / 2;
  }

  lemma {:induction false} XorEven(i: nat, j: nat)
    requires j > 0 && j % 2 == 0
    ensures Xor(i, j) == i % 2 + 2 * Xor(i / 2, j / 2)
  {
    if i == 0 {
      assert Xor(0, j / 2) == j / 2;
    }
  }

  lemma {:induction false} BlockSpan(x: nat, q: nat, k: nat)
    requires IsPowerOfTwo(k)
    ensures Shift(x, k) == q <==> Start(q, k) <= x < Start(q, k) + k
  {
    if k > 1 {
      BlockSpan(x / 2, q, k / 2);
    }
  }

  lemma {:induction false} StartOfHalves(q: nat, j: nat)
    requires IsHalf(j)
    ensures Start(2 * q, j) == Start(q, 2 * j) && Start(2 * q + 1, j) == Start(q, 2 * j) + j
  {
    if j > 1 {
      PowerIsHalf(j / 2);
      StartOfHalves(q, j / 2);
    }
  }

  lemma {:induction false} ShiftTwice(x: nat, j: nat)
    requires IsHalf(j)
    ensures Shift(x, 2 * j) == Shift(x, j) / 2
  {
    if j > 1 {
      PowerIsHalf(j / 2);
      ShiftTwice(x / 2, j / 2);
    }
  }

  /** Blocks of one length lie inside the blocks of every greater length. */
  lemma {:induction false} SameCoarser(x: nat, y: nat, w: nat, k: nat)
    requires IsPowerOfTwo(w) && IsPowerOfTwo(k) && w <= k && Shift(x, w) == Shift(y, w)
    ensures Shift(x, k) == Shift(y, k)
  {
    if w == k {
    } else if w == 1 {
    } else {
      SameCoarser(x / 2, y / 2, w / 2, k / 2);
    }
  }

  /** Blocks tile an array whose length is a greater power of two. */
  lemma {:induction false} BlockFits(x: nat, k: nat, n: nat)
    requires IsPowerOfTwo(k) && IsPowerOfTwo(n) && k <= n && x < n
    ensures Start(Shift(x, k), k) + k <= n
  {
    if k > 1 {
      BlockFits(x / 2, k / 2, n / 2);
    }
  }

  lemma {:induction false} PowersAreSparse(a: nat, b: nat)
    requires IsPowerOfTwo(a) && IsPowerOfTwo(b) && a <= b < 2 * a
    ensures a == b
  {
    if a > 1 {
      PowersAreSparse(a / 2, b / 2);
    }
  }

  // --------------------------------------------------------------- bitonic sequences

  /** Above the threshold are exactly the positions inside the window, or exactly those
      outside of it. */
  predicate Window(s: seq<int>, t: int, p: nat, q: nat, inside: bool)
  {
    p <= q <= |s| && forall i :: 0 <= i < |s| ==> (s[i] >= t <==> Within(i, p, q, inside))
  }

  predicate Within(i: int, p: nat, q: nat, inside: bool)
  {
    if p <= i < q then inside else !inside
  }

  ghost predicate WindowAt(s: seq<int>, t: int)
  {
    exists p: nat, q: nat, inside :: Window(s, t, p, q, inside)
  }

  /** A rotation of a rising and then falling sequence. */
  ghost predicate IsBitonic(s: seq<int>)
  {
    forall t :: WindowAt(s, t)
  }

  /** One half-cleaner: position by position the smaller and the greater of both halves. */
  ghost predicate Halves(s: seq<int>, lows: seq<int>, highs: seq<int>)
  {
    && |s| == |lows| + |highs| && |lows| == |highs|
    && (forall i {:trigger lows[i]} :: 0 <= i < |lows| ==> lows[i] == Min(s[i], s[i + |lows|]))
    && (forall i {:trigger highs[i]} :: 0 <= i < |highs| ==> highs[i] == Max(s[i], s[i + |lows|]))
  }

  function Min(a: int, b: int): int { if a <= b then a else b }

  function Max(a: int, b: int): int { if a <= b then b else a }

  ghost predicate NoneAbove(s: seq<int>, t: int)
  {
    forall i :: 0 <= i < |s| ==> s[i] < t
  }

  ghost predicate AllAbove(s: seq<int>, t: int)
  {
    forall i :: 0 <= i < |s| ==> s[i] >= t
  }

  /** A low is above the threshold if both positions are, a high if one of them is. */
  lemma {:induction false} CleanBits(s: seq<int>, lows: seq<int>, highs: seq<int>, t: int, p: nat, q: nat, inside: bool)
    requires Halves(s, lows, highs) && Window(s, t, p, q, inside)
    ensures forall i {:trigger lows[i]} :: 0 <= i < |lows| ==>
      (lows[i] >= t <==> Within(i, p, q, inside) && Within(i + |lows|, p, q, inside))
    ensures forall i {:trigger highs[i]} :: 0 <= i < |highs| ==>
      (highs[i] >= t <==> Within(i, p, q, inside) || Within(i + |lows|, p, q, inside))
  {
  }

  /** What a half-cleaner does at one threshold to a window of positions above it. */
  lemma {:induction false} CleanInside(s: seq<int>, lows: seq<int>, highs: seq<int>, t: int, p: nat, q: nat)
    requires Halves(s, lows, highs) && Window(s, t, p, q, true)
    ensures if q - p >= |lows| then Window(lows, t, p, q - |lows|, true) && AllAbove(highs, t)
      else NoneAbove(lows, t) && WindowAt(highs, t)
  {
    var j := |lows|;
    CleanBits(s, lows, highs, t, p, q, true);
    if q - p < j {
      if q <= j {
        assert Window(highs, t, p, q, true);
      } else if p >= j {
        assert Window(highs, t, p - j, q - j, true);
      } else {
        assert Window(highs, t, q - j, p, false);
      }
    }
  }

  lemma {:induction false} CleanOutside(s: seq<int>, lows: seq<int>, highs: seq<int>, t: int, p: nat, q: nat)
    requires Halves(s, lows, highs) && Window(s, t, p, q, false)
    ensures if q - p >= |lows| then Window(highs, t, p, q - |lows|, false) && NoneAbove(lows, t)
      else AllAbove(highs, t) && WindowAt(lows, t)
  {
    var j := |lows|;
    CleanBits(s, lows, highs, t, p, q, false);
    if q - p < j {
      if q <= j {
        assert Window(lows, t, p, q, false);
      } else if p >= j {
        assert Window(lows, t, p - j, q - j, false);
      } else {
        assert Window(lows, t, q - j, p, true);
      }
    }
  }

  lemma {:induction false} UniformHasWindow(s: seq<int>, t: int)
    requires NoneAbove(s, t) || AllAbove(s, t)
    ensures WindowAt(s, t)
  {
    assert Window(s, t, 0, 0, NoneAbove(s, t));
  }

  lemma {:induction false} CleanAt(s: seq<int>, lows: seq<int>, highs: seq<int>, t: int)
    requires Halves(s, lows, highs) && WindowAt(s, t)
    ensures WindowAt(lows, t) && WindowAt(highs, t)
    ensures NoneAbove(lows, t) || AllAbove(highs, t)
  {
    var p: nat, q: nat, inside :| Window(s, t, p, q, inside);
    if inside {
      CleanInside(s, lows, highs, t, p, q);
    } else {
      CleanOutside(s, lows, highs, t, p, q);
    }
    if NoneAbove(lows, t) {
      UniformHasWindow(lows, t);
    }
    if AllAbove(highs, t) {
      UniformHasWindow(highs, t);
    }
  }

  /** A half-cleaner on a bitonic sequence: both halves are bitonic, and nothing in the one is
      above anything in the other. */
  lemma {:induction false} HalfClean(s: seq<int>, lows: seq<int>, highs: seq<int>)
    requires Halves(s, lows, highs) && IsBitonic(s)
    ensures IsBitonic(lows) && IsBitonic(highs)
    ensures forall a, b :: 0 <= a < |lows| && 0 <= b < |highs| ==> lows[a] <= highs[b]
  {
    forall t
      ensures WindowAt(lows, t) && WindowAt(highs, t)
    {
      CleanAt(s, lows, highs, t);
    }
    forall a, b | 0 <= a < |lows| && 0 <= b < |highs|
      ensures lows[a] <= highs[b]
    {
      CleanAt(s, lows, highs, lows[a]);
    }
  }

  predicate Monotone(s: seq<int>, rising: bool)
  {
    forall a, b :: 0 <= a < b < |s| ==> if rising then s[a] <= s[b] else s[a] >= s[b]
  }

  /** Where a monotone sequence crosses the threshold. */
  lemma {:induction false} Crossing(s: seq<int>, t: int, rising: bool) returns (p: nat)
    requires Monotone(s, rising)
    ensures p <= |s| && forall i :: 0 <= i < |s| ==> (s[i] >= t <==> (p <= i) == rising)
  {
    if s == [] || (s[|s| - 1] >= t) != rising {
      p := |s|;
    } else {
      p := Crossing(s[..|s| - 1], t, rising);
    }
  }

  lemma {:induction false} RiseAndFallIsBitonic(s: seq<int>, h: nat)
    requires h <= |s| && Monotone(s[..h], true) && Monotone(s[h..], false)
    ensures IsBitonic(s)
  {
    forall t
      ensures WindowAt(s, t)
    {
      var p := Crossing(s[..h], t, true);
      var q := Crossing(s[h..], t, false);
      forall i | 0 <= i < |s|
        ensures s[i] >= t <==> p <= i < h + q
      {
        if i < h {
          assert s[..h][i] == s[i];
        } else {
          assert s[h..][i - h] == s[i];
        }
      }
      assert Window(s, t, p, h + q, true);
    }
  }

  // ------------------------------------------------------------------ one pass at distance j

  function Exchanged(s: seq<int>, k: nat, x: nat, l: nat): int
    requires x < |s| && l < |s|
  {
    Chosen(s, And(x, k) == 0, x, l)
  }

  /** What position `x` gets of a pair: the smaller element if it is the first of a rising
      pair or the second of a falling one. */
  function Chosen(s: seq<int>, up: bool, x: nat, l: nat): int
    requires x < |s| && l < |s|
  {
    if (x < l) == up then Min(s[x], s[l]) else Max(s[x], s[l])
  }

  /** `r` is `s` after every pair at distance `j` has been put in the order of its block of
      length `k`. */
  ghost predicate Passed(s: seq<int>, r: seq<int>, k: nat, j: nat)
  {
    && |r| == |s|
    && forall x: nat :: x < |s| ==> Xor(x, j) < |s| && r[x] == Exchanged(s, k, x, Xor(x, j))
  }

  ghost predicate Sizes(n: nat, k: nat, j: nat)
  {
    IsPowerOfTwo(n) && IsPowerOfTwo(k) && IsHalf(j) && 2 * j <= k <= n
  }

  lemma {:induction false} PartnerFacts(x: nat, n: nat, k: nat, j: nat)
    requires Sizes(n, k, j) && x < n
    ensures Xor(x, j) < n && Xor(x, j) != x && Xor(Xor(x, j), j) == x
    ensures Shift(Xor(x, j), 2 * j) == Shift(x, 2 * j) && Shift(Xor(x, j), k) == Shift(x, k)
    ensures And(x, k) == 0 <==> And(Xor(x, j), k) == 0
  {
    PartnerOfPartner(x, j);
    PartnerInBlock(x, j, 2 * j);
    SameBlockFacts(x, Xor(x, j), 2 * j, k, n);
  }

  lemma {:induction false} SameBlockFacts(x: nat, l: nat, w: nat, k: nat, n: nat)
    requires IsPowerOfTwo(w) && IsPowerOfTwo(k) && IsPowerOfTwo(n) && w <= k <= n
    requires x < n && Shift(x, w) == Shift(l, w)
    ensures l < n && Shift(l, k) == Shift(x, k) && (And(x, k) == 0 <==> And(l, k) == 0)
  {
    SameCoarser(x, l, w, k);
    SameDirection(x, l, k);
    SameBlockFits(x, l, w, n);
  }

  lemma {:induction false} SameDirection(x: nat, l: nat, k: nat)
    requires IsPowerOfTwo(k) && Shift(x, k) == Shift(l, k)
    ensures And(x, k) == 0 <==> And(l, k) == 0
  {
    AndTests(x, k);
    AndTests(l, k);
  }

  lemma {:induction false} SameBlockFits(x: nat, l: nat, w: nat, n: nat)
    requires IsPowerOfTwo(w) && IsPowerOfTwo(n) && w <= n && x < n && Shift(x, w) == Shift(l, w)
    ensures l < n
  {
    BlockFits(x, w, n);
    BlockSpan(l, Shift(x, w), w);
  }

  lemma {:induction false} UpThenDown(x: nat, j: nat)
    requires IsPowerOfTwo(j) && Shift(x, j) % 2 == 0
    ensures Xor(x, j) == x + j && Xor(x + j, j) == x
  {
    XorFlips(x, j);
    ShiftFlips(x, j);
    GoesBack(x, x + j, j);
  }

  lemma {:induction false} DownThenUp(x: nat, j: nat)
    requires IsPowerOfTwo(j) && Shift(x, j) % 2 == 1
    ensures x >= j && Xor(x, j) == x - j && Xor(x - j, j) == x
  {
    XorFlips(x, j);
    ShiftFlips(x, j);
    GoesBack(x, x - j, j);
  }

  lemma {:induction false} GoesBack(x: nat, y: nat, j: nat)
    requires IsPowerOfTwo(j) && Shift(x, j) % 2 != Shift(y, j) % 2
    requires y == if Shift(x, j) % 2 == 0 then x + j else x - j
    ensures Xor(y, j) == x
  {
    XorFlips(y, j);
  }

  lemma {:induction false} PartnerOfPartner(x: nat, j: nat)
    requires IsPowerOfTwo(j)
    ensures Xor(x, j) != x && Xor(Xor(x, j), j) == x
  {
    if Shift(x, j) % 2 == 0 {
      UpThenDown(x, j);
    } else {
      DownThenUp(x, j);
    }
  }

  lemma {:induction false} PartnerInBlock(x: nat, j: nat, w: nat)
    requires IsHalf(j) && w == 2 * j
    ensures Shift(Xor(x, j), w) == Shift(x, w)
  {
    XorFlips(x, j);
    ShiftFlips(x, j);
    ShiftTwice(x, j);
    ShiftTwice(Xor(x, j), j);
  }

  /** The network reads and writes only positions of the array exactly if the length is zero
      or a power of two. */
  ghost predicate StaysInside(n: nat)
  {
    forall i: nat, j: nat :: i < n && IsPowerOfTwo(j) && 2 * j <= n ==> Xor(i, j) < n
  }

  lemma {:induction false} StaysInsideIffPowerOfTwo(n: nat)
    ensures StaysInside(n) <==> n == 0 || IsPowerOfTwo(n)
  {
    if IsPowerOfTwo(n) {
      forall i: nat, j: nat | i < n && IsPowerOfTwo(j) && 2 * j <= n
        ensures Xor(i, j) < n
      {
        PowerIsHalf(j);
        PartnerFacts(i, n, 2 * j, j);
      }
    } else if n > 0 {
      var i, j := PartnerOutside(n);
    }
  }

  lemma {:induction false} XorDouble(i: nat, j: nat)
    requires j > 0
    ensures Xor(2 * i, 2 * j) == 2 * Xor(i, j)
  {
    assert (2 * i) % 2 == 0 && (2 * i) / 2 == i && (2 * j) / 2 == j;
    if i == 0 {
      assert Xor(0, j) == j;
    }
  }

  lemma {:induction false} PartnerOutside(n: nat) returns (i: nat, j: nat)
    requires n > 0 && !IsPowerOfTwo(n)
    ensures i < n && IsPowerOfTwo(j) && 2 * j <= n && Xor(i, j) >= n
  {
    if n % 2 == 1 {
      i, j := n - 1, 1;
      XorOne(i);
    } else {
      i, j := PartnerOutside(n / 2);
      XorDouble(i, j);
      i, j := 2 * i, 2 * j;
    }
  }

  method CompareExchange(a: array<int>, i: nat, l: nat, up: bool)
    requires i < l < a.Length
    modifies a
    ensures a[..] == old(a[..])[i := if up then Min(old(a[i]), old(a[l])) else Max(old(a[i]), old(a[l]))]
                               [l := if up then Max(old(a[i]), old(a[l])) else Min(old(a[i]), old(a[l]))]
    ensures multiset(a[..]) == multiset(old(a[..]))
  {
    var ai, al := a[i], a[l];
    var swap := (up && ai > al) || (!up && ai < al);
    if swap {
      a[i] := al;
      a[l] := ai;
    }
  }

  /** Positions fall into pairs, each with a direction. */
  ghost predicate Paired(n: nat, up: nat -> bool, partner: nat -> nat)
  {
    forall x: nat {:trigger partner(x)} :: x < n ==>
      partner(x) < n && partner(x) != x && partner(partner(x)) == x && up(partner(x)) == up(x)
  }

  /** Positions whose pair has its first element before `i` are done. */
  ghost predicate DoneBefore(s: seq<int>, r: seq<int>, up: nat -> bool, partner: nat -> nat, i: nat)
  {
    && |r| == |s| && Paired(|s|, up, partner)
    && forall x: nat {:trigger r[x]} :: x < |s| ==>
      r[x] == if x < i || partner(x) < i then Chosen(s, up(x), x, partner(x)) else s[x]
  }

  lemma OnePairMore(s: seq<int>, r: seq<int>, r': seq<int>, up: nat -> bool, partner: nat -> nat, i: nat)
    requires i < |s| && DoneBefore(s, r, up, partner, i) && i < partner(i)
    requires r' == r[i := Chosen(s, up(i), i, partner(i))][partner(i) := Chosen(s, up(i), partner(i), i)]
    ensures DoneBefore(s, r', up, partner, i + 1)
  {
    forall x: nat {:trigger r'[x]} | x < |s|
      ensures r'[x] == if x < i + 1 || partner(x) < i + 1 then Chosen(s, up(x), x, partner(x)) else s[x]
    {
      assert r[x] == if x < i || partner(x) < i then Chosen(s, up(x), x, partner(x)) else s[x];
      assert partner(x) == i ==> x == partner(i);
    }
  }

  lemma NoPairMore(s: seq<int>, r: seq<int>, up: nat -> bool, partner: nat -> nat, i: nat)
    requires i < |s| && DoneBefore(s, r, up, partner, i) && partner(i) < i
    ensures DoneBefore(s, r, up, partner, i + 1)
  {
    forall x: nat {:trigger r[x]} | x < |s|
      ensures r[x] == if x < i + 1 || partner(x) < i + 1 then Chosen(s, up(x), x, partner(x)) else s[x]
    {
      assert partner(x) == i ==> x == partner(i);
    }
  }

  lemma {:induction false} NetworkPairs(n: nat, k: nat, j: nat, up: nat -> bool, partner: nat -> nat)
    requires Sizes(n, k, j)
    requires forall x: nat :: partner(x) == Xor(x, j) && up(x) == (And(x, k) == 0)
    ensures Paired(n, up, partner)
  {
    forall x: nat | x < n
      ensures partner(x) < n && partner(x) != x && partner(partner(x)) == x && up(partner(x)) == up(x)
    {
      PartnerFacts(x, n, k, j);
    }
  }

  lemma {:induction false} AllPairsDone(s: seq<int>, r: seq<int>, k: nat, j: nat, up: nat -> bool, partner: nat -> nat)
    requires DoneBefore(s, r, up, partner, |s|)
    requires forall x: nat :: partner(x) == Xor(x, j) && up(x) == (And(x, k) == 0)
    ensures Passed(s, r, k, j)
  {
    forall x: nat | x < |s|
      ensures Xor(x, j) < |s| && r[x] == Exchanged(s, k, x, Xor(x, j))
    {
      assert partner(x) == Xor(x, j);
      assert r[x] == Chosen(s, up(x), x, partner(x));
    }
  }

  /** The body of the inner loop. */
  method PairStep(a: array<int>, i: nat, l: nat, rising: bool, ghost s: seq<int>, ghost up: nat -> bool, ghost partner: nat -> nat)
    requires i < a.Length == |s| && l == partner(i) && rising == up(i)
    requires DoneBefore(s, a[..], up, partner, i) && multiset(a[..]) == multiset(s)
    modifies a
    ensures DoneBefore(s, a[..], up, partner, i + 1) && multiset(a[..]) == multiset(s)
  {
    ghost var r := a[..];
    if l > i {
      PairIsOpen(s, r, up, partner, i);
      CompareExchange(a, i, l, rising);
      OnePairMore(s, r, a[..], up, partner, i);
    } else {
      NoPairMore(s, r, up, partner, i);
    }
  }

  lemma PairIsOpen(s: seq<int>, r: seq<int>, up: nat -> bool, partner: nat -> nat, i: nat)
    requires i < |s| && DoneBefore(s, r, up, partner, i) && i < partner(i)
    ensures partner(i) < |r| == |s| && r[i] == s[i] && r[partner(i)] == s[partner(i)]
  {
  }

  /** The inner loop: every pair `(i, i ^ j)` is compared once, at its smaller index. */
  method Pass(a: array<int>, k: nat, j: nat)
    requires Sizes(a.Length, k, j)
    modifies a
    ensures Passed(old(a[..]), a[..], k, j)
    ensures multiset(a[..]) == multiset(old(a[..]))
  {
    ghost var s := a[..];
    ghost var up: nat -> bool, partner: nat -> nat := (x: nat) => And(x, k) == 0, (x: nat) => Xor(x, j);
    NetworkPairs(a.Length, k, j, up, partner);
    for i := 0 to a.Length
      invariant DoneBefore(s, a[..], up, partner, i)
      invariant multiset(a[..]) == multiset(s)
    {
      PairStep(a, i, Xor(i, j), And(i, k) == 0, s, up, partner);
    }
    AllPairsDone(s, a[..], k, j, up, partner);
  }

  // ------------------------------------------------------------------ what a pass achieves

  function Block(s: seq<int>, w: nat, q: nat): seq<int>
    requires IsPowerOfTwo(w) && Start(q, w) + w <= |s|
  {
    s[Start(q, w)..Start(q, w) + w]
  }

  ghost predicate BitonicBlocks(s: seq<int>, w: nat)
    requires IsPowerOfTwo(w)
  {
    forall q: nat :: Start(q, w) + w <= |s| ==> IsBitonic(Block(s, w, q))
  }

  /** Inside each block of length `k`, what lies in different blocks of length `w` is in
      order: rising if the number of the great block is even, and else falling. */
  ghost predicate InOrder(s: seq<int>, k: nat, w: nat)
    requires IsPowerOfTwo(k) && IsPowerOfTwo(w)
  {
    forall x: nat, y: nat {:trigger InOrderAt(s, k, w, x, y)} :: x < |s| && y < |s| ==> InOrderAt(s, k, w, x, y)
  }

  ghost predicate InOrderAt(s: seq<int>, k: nat, w: nat, x: nat, y: nat)
    requires IsPowerOfTwo(k) && IsPowerOfTwo(w) && x < |s| && y < |s|
  {
    Shift(x, k) == Shift(y, k) && Shift(x, w) < Shift(y, w) ==>
      if Shift(x, k) % 2 == 0 then s[x] <= s[y] else s[x] >= s[y]
  }

  /** The pairs between positions `b` and `b + 2 * j` have been put in order. */
  ghost predicate PairsDone(s: seq<int>, r: seq<int>, b: nat, j: nat, up: bool)
  {
    && |s| == |r| && b + 2 * j <= |s|
    && (forall x {:trigger r[x]} :: b <= x < b + j ==> r[x] == if up then Min(s[x], s[x + j]) else Max(s[x], s[x + j]))
    && (forall x {:trigger r[x]} :: b + j <= x < b + 2 * j ==>
          r[x] == if up then Max(s[x - j], s[x]) else Min(s[x - j], s[x]))
  }

  /** In an even block the partner lies `j` ahead, in an odd one `j` behind. */
  lemma {:induction false} PairInBlock(x: nat, h: nat, j: nat)
    requires IsPowerOfTwo(j) && Start(h, j) <= x < Start(h, j) + j
    ensures h % 2 == 0 ==> Xor(x, j) == x + j
    ensures h % 2 == 1 ==> Xor(x, j) == x - j
  {
    BlockSpan(x, h, j);
    if h % 2 == 0 {
      UpThenDown(x, j);
    } else {
      DownThenUp(x, j);
    }
  }

  lemma {:induction false} PairInGreatBlock(x: nat, p: nat, q: nat, j: nat, b: nat)
    requires IsPowerOfTwo(j) && p % 2 == 0 && q % 2 == 1 && Start(p, j) == b && Start(q, j) == b + j && b <= x < b + 2 * j
    ensures Xor(x, j) == if x < b + j then x + j else x - j
  {
    if x < b + j {
      PairInBlock(x, p, j);
    } else {
      PairInBlock(x, q, j);
    }
  }

  /** All positions of a block belong to runs of the same direction. */
  lemma {:induction false} BlockDirection(x: nat, q: nat, w: nat, k: nat)
    requires IsPowerOfTwo(w) && IsPowerOfTwo(k) && w <= k && Start(q, w) <= x < Start(q, w) + w
    ensures Shift(x, k) == Shift(Start(q, w), k)
    ensures And(x, k) == 0 <==> Shift(Start(q, w), k) % 2 == 0
  {
    BlockSpan(x, q, w);
    BlockSpan(Start(q, w), q, w);
    SameCoarser(x, Start(q, w), w, k);
    AndTests(x, k);
  }

  lemma {:induction false} PassDoesPair(s: seq<int>, r: seq<int>, k: nat, j: nat, q: nat, b: nat, x: nat)
    requires Sizes(|s|, k, j) && Passed(s, r, k, j)
    requires b == Start(q, 2 * j) && b <= x < b + 2 * j <= |s|
    ensures r[x] == Exchanged(s, k, x, if x < b + j then x + j else x - j)
    ensures And(x, k) == 0 <==> Shift(b, k) % 2 == 0
  {
    PairFacts(x, q, j, k, b);
  }

  lemma {:induction false} PairFacts(x: nat, q: nat, j: nat, k: nat, b: nat)
    requires IsHalf(j) && IsPowerOfTwo(k) && 2 * j <= k && b == Start(q, 2 * j) && b <= x < b + 2 * j
    ensures Xor(x, j) == if x < b + j then x + j else x - j
    ensures And(x, k) == 0 <==> Shift(b, k) % 2 == 0
  {
    StartOfHalves(q, j);
    PairInGreatBlock(x, 2 * q, 2 * q + 1, j, b);
    BlockDirection(x, q, 2 * j, k);
  }

  lemma {:induction false} PassDoesPairs(s: seq<int>, r: seq<int>, k: nat, j: nat, q: nat, b: nat)
    requires Sizes(|s|, k, j) && Passed(s, r, k, j) && b == Start(q, 2 * j) && b + 2 * j <= |s|
    ensures PairsDone(s, r, b, j, Shift(b, k) % 2 == 0)
  {
    var up := Shift(b, k) % 2 == 0;
    forall x: nat {:trigger r[x]} | b <= x < b + j
      ensures r[x] == if up then Min(s[x], s[x + j]) else Max(s[x], s[x + j])
    {
      PassDoesPair(s, r, k, j, q, b, x);
    }
    forall x: nat {:trigger r[x]} | b + j <= x < b + 2 * j
      ensures r[x] == if up then Max(s[x - j], s[x]) else Min(s[x - j], s[x])
    {
      PassDoesPair(s, r, k, j, q, b, x);
    }
  }

  /** On a block, the pass is a half-cleaner, upside down where runs are to fall. */
  lemma {:induction false} PairsAreHalves(s: seq<int>, r: seq<int>, b: nat, j: nat, up: bool)
    requires PairsDone(s, r, b, j, up)
    ensures if up then Halves(s[b..b + 2 * j], r[b..b + j], r[b + j..b + 2 * j])
      else Halves(s[b..b + 2 * j], r[b + j..b + 2 * j], r[b..b + j])
  {
  }

  lemma {:induction false} PairsClean(s: seq<int>, r: seq<int>, b: nat, j: nat, up: bool)
    requires PairsDone(s, r, b, j, up) && IsBitonic(s[b..b + 2 * j])
    ensures IsBitonic(r[b..b + j]) && IsBitonic(r[b + j..b + 2 * j])
    ensures forall x, y :: b <= x < b + j <= y < b + 2 * j ==> if up then r[x] <= r[y] else r[x] >= r[y]
  {
    var first, second := r[b..b + j], r[b + j..b + 2 * j];
    PairsAreHalves(s, r, b, j, up);
    if up {
      HalfClean(s[b..b + 2 * j], first, second);
    } else {
      HalfClean(s[b..b + 2 * j], second, first);
    }
    forall x, y | b <= x < b + j <= y < b + 2 * j
      ensures if up then r[x] <= r[y] else r[x] >= r[y]
    {
      assert first[x - b] == r[x] && second[y - (b + j)] == r[y];
    }
  }

  lemma {:induction false} PassCleans(s: seq<int>, r: seq<int>, k: nat, j: nat, q: nat, b: nat)
    requires Sizes(|s|, k, j) && Passed(s, r, k, j) && BitonicBlocks(s, 2 * j)
    requires b == Start(q, 2 * j) && b + 2 * j <= |s|
    ensures IsBitonic(r[b..b + j]) && IsBitonic(r[b + j..b + 2 * j])
    ensures forall x, y :: b <= x < b + j <= y < b + 2 * j ==>
      if Shift(b, k) % 2 == 0 then r[x] <= r[y] else r[x] >= r[y]
  {
    assert IsBitonic(Block(s, 2 * j, q));
    PassDoesPairs(s, r, k, j, q, b);
    PairsClean(s, r, b, j, Shift(b, k) % 2 == 0);
  }

  lemma {:induction false} PassKeepsBitonic(s: seq<int>, r: seq<int>, k: nat, j: nat)
    requires Sizes(|s|, k, j) && Passed(s, r, k, j) && BitonicBlocks(s, 2 * j)
    ensures BitonicBlocks(r, j)
  {
    forall h: nat | Start(h, j) + j <= |r|
      ensures IsBitonic(Block(r, j, h))
    {
      WholeBlockFits(|s|, j, h);
      PassKeepsHalfBitonic(s, r, k, j, h / 2, Start(h / 2, 2 * j), h);
    }
  }

  lemma {:induction false} PassKeepsHalfBitonic(s: seq<int>, r: seq<int>, k: nat, j: nat, q: nat, b: nat, h: nat)
    requires Sizes(|s|, k, j) && Passed(s, r, k, j) && BitonicBlocks(s, 2 * j)
    requires b == Start(q, 2 * j) && b + 2 * j <= |s| && (h == 2 * q || h == 2 * q + 1)
    ensures Start(h, j) + j <= |s| && IsBitonic(r[Start(h, j)..Start(h, j) + j])
  {
    PassCleans(s, r, k, j, q, b);
    StartOfHalves(q, j);
  }

  lemma {:induction false} WholeBlockFits(n: nat, j: nat, h: nat)
    requires IsPowerOfTwo(n) && IsHalf(j) && 2 * j <= n && Start(h, j) + j <= n
    ensures Start(h / 2, 2 * j) + 2 * j <= n
  {
    BlockSpan(Start(h, j), h, j);
    HalfOfGreatBlock(Start(h, j), h, j, n);
  }

  lemma {:induction false} HalfOfGreatBlock(x: nat, h: nat, j: nat, n: nat)
    requires IsPowerOfTwo(n) && IsHalf(j) && 2 * j <= n && x < n && Shift(x, j) == h
    ensures Start(h / 2, 2 * j) + 2 * j <= n
  {
    ShiftTwice(x, j);
    GreatBlockFits(x, h / 2, 2 * j, n);
  }

  lemma {:induction false} GreatBlockFits(x: nat, q: nat, w: nat, n: nat)
    requires IsPowerOfTwo(w) && IsPowerOfTwo(n) && w <= n && x < n && Shift(x, w) == q
    ensures Start(q, w) <= x < Start(q, w) + w <= n
  {
    BlockFits(x, w, n);
    BlockSpan(x, q, w);
  }

  lemma {:induction false} InOneBlock(x: nat, y: nat, n: nat, j: nat) returns (q: nat)
    requires IsPowerOfTwo(n) && IsHalf(j) && 2 * j <= n && x < n && y < n
    requires Shift(x, 2 * j) == Shift(y, 2 * j) && Shift(x, j) < Shift(y, j)
    ensures Start(q, 2 * j) <= x < Start(q, 2 * j) + j <= y < Start(q, 2 * j) + 2 * j <= n
  {
    q := Shift(x, 2 * j);
    ShiftTwice(x, j);
    ShiftTwice(y, j);
    GreatBlockFits(x, q, 2 * j, n);
    InBothHalves(x, y, q, j);
  }

  lemma {:induction false} InBothHalves(x: nat, y: nat, q: nat, j: nat)
    requires IsHalf(j) && Shift(x, j) == 2 * q && Shift(y, j) == 2 * q + 1
    ensures Start(q, 2 * j) <= x < Start(q, 2 * j) + j <= y < Start(q, 2 * j) + 2 * j
  {
    StartOfHalves(q, j);
    BlockSpan(x, 2 * q, j);
    BlockSpan(y, 2 * q + 1, j);
  }

  /** Within one block of length `2 * j`, the pass puts its halves in order. */
  lemma {:induction false} PassOrdersHalves(s: seq<int>, r: seq<int>, k: nat, j: nat, x: nat, y: nat)
    requires Sizes(|s|, k, j) && Passed(s, r, k, j) && BitonicBlocks(s, 2 * j)
    requires x < |s| && y < |s| && Shift(x, 2 * j) == Shift(y, 2 * j) && Shift(x, j) < Shift(y, j)
    ensures if Shift(x, k) % 2 == 0 then r[x] <= r[y] else r[x] >= r[y]
  {
    var q := InOneBlock(x, y, |s|, j);
    BlockDirection(x, q, 2 * j, k);
    PassCleans(s, r, k, j, q, Start(q, 2 * j));
  }

  /** Every element comes from its own block. */
  lemma {:induction false} PassStaysInBlock(s: seq<int>, r: seq<int>, k: nat, j: nat, x: nat) returns (u: nat)
    requires Sizes(|s|, k, j) && Passed(s, r, k, j) && x < |s|
    ensures u < |s| && r[x] == s[u] && Shift(u, 2 * j) == Shift(x, 2 * j) && Shift(u, k) == Shift(x, k)
  {
    PartnerFacts(x, |s|, k, j);
    u := if r[x] == s[x] then x else Xor(x, j);
  }

  /** Between blocks of length `2 * j`, the pass keeps the order. */
  lemma {:induction false} PassKeepsOrder(s: seq<int>, r: seq<int>, k: nat, j: nat, x: nat, y: nat)
    requires Sizes(|s|, k, j) && Passed(s, r, k, j) && InOrder(s, k, 2 * j)
    requires x < |s| && y < |s| && Shift(x, k) == Shift(y, k) && Shift(x, 2 * j) < Shift(y, 2 * j)
    ensures if Shift(x, k) % 2 == 0 then r[x] <= r[y] else r[x] >= r[y]
  {
    var u := PassStaysInBlock(s, r, k, j, x);
    var v := PassStaysInBlock(s, r, k, j, y);
    assert InOrderAt(s, k, 2 * j, u, v);
  }

  lemma {:induction false} PassOrders(s: seq<int>, r: seq<int>, k: nat, j: nat)
    requires Sizes(|s|, k, j) && Passed(s, r, k, j) && BitonicBlocks(s, 2 * j) && InOrder(s, k, 2 * j)
    ensures InOrder(r, k, j)
  {
    forall x: nat, y: nat | x < |r| && y < |r|
      ensures InOrderAt(r, k, j, x, y)
    {
      if Shift(x, k) == Shift(y, k) && Shift(x, j) < Shift(y, j) {
        PassOrdersAt(s, r, k, j, x, y);
      }
    }
  }

  lemma {:induction false} PassOrdersAt(s: seq<int>, r: seq<int>, k: nat, j: nat, x: nat, y: nat)
    requires Sizes(|s|, k, j) && Passed(s, r, k, j) && BitonicBlocks(s, 2 * j) && InOrder(s, k, 2 * j)
    requires x < |s| && y < |s| && Shift(x, k) == Shift(y, k) && Shift(x, j) < Shift(y, j)
    ensures if Shift(x, k) % 2 == 0 then r[x] <= r[y] else r[x] >= r[y]
  {
    ShiftTwice(x, j);
    ShiftTwice(y, j);
    if Shift(x, 2 * j) == Shift(y, 2 * j) {
      PassOrdersHalves(s, r, k, j, x, y);
    } else {
      PassKeepsOrder(s, r, k, j, x, y);
    }
  }

  lemma {:induction false} RunOfBlock(s: seq<int>, h: nat, q: nat, b: nat)
    requires IsPowerOfTwo(h) && InOrder(s, h, 1) && b == Start(q, h) && b + h <= |s|
    ensures Monotone(s[b..b + h], q % 2 == 0)
  {
    forall x: nat, y: nat | b <= x < y < b + h
      ensures if q % 2 == 0 then s[x] <= s[y] else s[x] >= s[y]
    {
      BlockSpan(x, q, h);
      BlockSpan(y, q, h);
      assert Shift(x, 1) < Shift(y, 1);
      assert InOrderAt(s, h, 1, x, y);
    }
  }

  /** A rising and a falling run side by side form a bitonic block. */
  lemma {:induction false} RunsFormBitonicBlocks(s: seq<int>, h: nat)
    requires IsHalf(h) && InOrder(s, h, 1)
    ensures BitonicBlocks(s, 2 * h) && InOrder(s, 2 * h, 2 * h)
  {
    forall q: nat | Start(q, 2 * h) + 2 * h <= |s|
      ensures IsBitonic(Block(s, 2 * h, q))
    {
      StartOfHalves(q, h);
      TwoRunsAreBitonic(s, h, 2 * q, 2 * q + 1, Start(q, 2 * h));
    }
  }

  lemma {:induction false} TwoRunsAreBitonic(s: seq<int>, h: nat, p: nat, q: nat, b: nat)
    requires IsPowerOfTwo(h) && InOrder(s, h, 1) && p % 2 == 0 && q % 2 == 1
    requires Start(p, h) == b && Start(q, h) == b + h && b + 2 * h <= |s|
    ensures IsBitonic(s[b..b + 2 * h])
  {
    RunOfBlock(s, h, p, b);
    RunOfBlock(s, h, q, b + h);
    RunsAreBitonic(s, b, h);
  }

  lemma {:induction false} RunsAreBitonic(s: seq<int>, b: nat, h: nat)
    requires b + 2 * h <= |s| && Monotone(s[b..b + h], true) && Monotone(s[b + h..b + 2 * h], false)
    ensures IsBitonic(s[b..b + 2 * h])
  {
    var whole := s[b..b + 2 * h];
    assert whole[..h] == s[b..b + h] && whole[h..] == s[b + h..b + 2 * h];
    RiseAndFallIsBitonic(whole, h);
  }

  lemma {:induction false} OneGreatBlock(x: nat, n: nat)
    requires IsPowerOfTwo(n) && x < n
    ensures Shift(x, n) == 0
  {
    if n > 1 {
      OneGreatBlock(x / 2, n / 2);
    }
  }

  lemma {:induction false} GreatRunIsSorted(s: seq<int>)
    requires IsPowerOfTwo(|s|) && InOrder(s, |s|, 1)
    ensures Monotone(s, true)
  {
    forall a, b | 0 <= a < b < |s|
      ensures s[a] <= s[b]
    {
      OneGreatBlock(a, |s|);
      OneGreatBlock(b, |s|);
      assert Shift(a, 1) < Shift(b, 1);
      assert InOrderAt(s, |s|, 1, a, b);
    }
  }

  // --------------------------------------------------------------------------- the network

  /** Within a stage: blocks of length `w` are bitonic and lie in order. */
  ghost predicate Merging(s: seq<int>, k: nat, w: nat)
    requires IsPowerOfTwo(k) && IsPowerOfTwo(w)
  {
    BitonicBlocks(s, w) && InOrder(s, k, w)
  }

  lemma {:induction false} PassMerges(s: seq<int>, r: seq<int>, k: nat, j: nat)
    requires Sizes(|s|, k, j) && Passed(s, r, k, j) && Merging(s, k, 2 * j)
    ensures Merging(r, k, j)
  {
    PassKeepsBitonic(s, r, k, j);
    PassOrders(s, r, k, j);
  }

  /** One stage: from runs of length `k / 2` to runs of length `k`. */
  method Stage(a: array<int>, k: nat)
    requires IsPowerOfTwo(a.Length) && IsPowerOfTwo(k) && 2 <= k <= a.Length && InOrder(a[..], k / 2, 1)
    modifies a
    ensures InOrder(a[..], k, 1)
    ensures multiset(a[..]) == multiset(old(a[..]))
  {
    RunsFormBitonicBlocks(a[..], k / 2);
    ghost var w := k;
    var j: nat := k / 2;
    while j > 0
      invariant j == w / 2 && IsPowerOfTwo(w) && w <= k && Merging(a[..], k, w)
      invariant multiset(a[..]) == multiset(old(a[..]))
    {
      ghost var s := a[..];
      assert w == 2 * j && IsHalf(j);
      Pass(a, k, j);
      PassMerges(s, a[..], k, j);
      w := j;
      j := j / 2;
    }
  }

  /** The whole network: for every array whose length is a power of two it leaves the same
      elements in rising order. */
  method Sort(a: array<int>)
    requires a.Length == 0 || IsPowerOfTwo(a.Length)
    modifies a
    ensures Monotone(a[..], true)
    ensures multiset(a[..]) == multiset(old(a[..]))
  {
    var k := 2;
    while k <= a.Length
      invariant IsPowerOfTwo(k) && k >= 2
      invariant a.Length > 0 ==> k / 2 <= a.Length && InOrder(a[..], k / 2, 1)
      invariant multiset(a[..]) == multiset(old(a[..]))
      decreases 2 * a.Length - k
    {
      Stage(a, k);
      k := 2 * k;
    }
    if a.Length > 0 {
      PowersAreSparse(k / 2, a.Length);
      GreatRunIsSorted(a[..]);
    }
  }
}
