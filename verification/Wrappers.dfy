// Option, and streams whose items travel on numbered ports.
module Wrappers {
  datatype Option<+T> = None | Some(value: T)
}

/** Pipes as slices of a longer stream. */
module Slices {
  import opened Wrappers

  function Front<T>(pipe: seq<T>, available: bool): Option<T>
  {
    if available && pipe != [] then Some(pipe[0]) else None
  }

  function Rest<T>(pipe: seq<T>, taken: bool): seq<T>
  {
    if taken && pipe != [] then pipe[1..] else pipe
  }

  /** Taking from the front of a slice, and appending the item that comes next. */
  lemma SliceMoves<T>(all: seq<T>, i: nat, j: nat, take: bool, add: bool)
    requires i <= j <= |all| && (take ==> i < j) && (add ==> j < |all|)
    ensures Rest(all[i..j], take) + (if add then [all[j]] else [])
      == all[i + (if take then 1 else 0)..j + (if add then 1 else 0)]
  {
  }
}

/** Streams split over several ports.  `Lane(s, k)` is what travels on port `k`. */
module Lanes {
  datatype Laned<+T> = Laned(port: nat, item: T)

  function Lane<T>(s: seq<Laned<T>>, k: nat): (r: seq<T>)
    ensures |r| <= |s|
  {
    if s == [] then []
    else if s[0].port == k then [s[0].item] + Lane(s[1..], k)
    else Lane(s[1..], k)
  }

  /** Splitting a stream into ports commutes with concatenation. */
  lemma {:induction false} LaneConcat<T>(s: seq<Laned<T>>, t: seq<Laned<T>>, k: nat)
    ensures Lane(s + t, k) == Lane(s, k) + Lane(t, k)
  {
    if s == [] {
      assert s + t == t;
    } else {
      assert (s + t)[1..] == s[1..] + t;
      LaneConcat(s[1..], t, k);
    }
  }

  lemma LaneAppend<T>(s: seq<Laned<T>>, x: Laned<T>, k: nat)
    ensures Lane(s + [x], k) == Lane(s, k) + (if x.port == k then [x.item] else [])
  {
    LaneConcat(s, [x], k);
    assert Lane([x], k) == if x.port == k then [x.item] else [] by {
      assert [x][1..] == [];
    }
  }

  /** Every item of a lane comes from somewhere in the stream. */
  lemma {:induction false} LaneMember<T>(s: seq<Laned<T>>, p: nat, i: nat) returns (h: nat)
    requires i < |Lane(s, p)|
    ensures h < |s| && s[h] == Laned(p, Lane(s, p)[i])
  {
    if s[0].port == p && i == 0 {
      h := 0;
    } else {
      h := LaneMember(s[1..], p, if s[0].port == p then i - 1 else i);
      h := h + 1;
    }
  }
}

/** Sums over ports. */
module Sums {
  function Total(s: seq<nat>): nat
  {
    if s == [] then 0 else s[0] + Total(s[1..])
  }

  /** Totals grow with their terms, and strictly if one of them does. */
  lemma {:induction false} TotalGrows(s: seq<nat>, r: seq<nat>)
    requires |s| == |r| && forall i :: 0 <= i < |s| ==> s[i] <= r[i]
    ensures Total(s) <= Total(r) && (Total(s) == Total(r) ==> s == r)
  {
    if s != [] {
      TotalGrows(s[1..], r[1..]);
      if Total(s) == Total(r) {
        assert s == [s[0]] + s[1..] && r == [r[0]] + r[1..];
      }
    }
  }

  lemma {:induction false} TotalIsBounded(s: seq<nat>, c: nat)
    requires forall i :: 0 <= i < |s| ==> s[i] <= c
    ensures Total(s) <= |s| * c
  {
    if s != [] {
      TotalIsBounded(s[1..], c);
      assert |s| * c == |s[1..]| * c + c;
    }
  }

  lemma {:induction false} TotalUpdate(s: seq<nat>, i: nat, x: nat)
    requires i < |s|
    ensures Total(s[i := x]) + s[i] == Total(s) + x
  {
    if i > 0 {
      assert s[i := x][1..] == s[1..][i - 1 := x];
      TotalUpdate(s[1..], i - 1, x);
    } else {
      assert s[i := x][1..] == s[1..];
    }
  }
}
