/**
 Selections from a list, and a stack on which everything is put at most once: what is on it, and
 what is taken next, said of the list of all arrivals.
 */
module Arrivals {
  /** The entries of `s` that are in `keep`, in order. */
  function Selected(s: seq<nat>, keep: set<nat>): seq<nat>
  {
    if s == [] then []
    else Selected(s[..|s| - 1], keep) + if s[|s| - 1] in keep then [s[|s| - 1]] else []
  }

  predicate Increasing(at: seq<nat>)
  {
    forall i, j :: 0 <= i < j < |at| ==> at[i] < at[j]
  }

  /** `r` has the entries of `s` at the places `at`, from left to right. */
  predicate Picks(r: seq<nat>, s: seq<nat>, at: seq<nat>)
  {
    Increasing(at) && |at| == |r| && forall k :: 0 <= k < |r| ==> at[k] < |s| && s[at[k]] == r[k]
  }

  lemma {:induction false} PicksGrow(r: seq<nat>, s: seq<nat>, at: seq<nat>, x: nat)
    requires Picks(r, s, at)
    ensures Picks(r, s + [x], at) && Picks(r + [x], s + [x], at + [|s|])
  {
  }

  /** These are all the places with entries in `keep`. */
  lemma {:induction false} SelectedPicks(s: seq<nat>, keep: set<nat>) returns (at: seq<nat>)
    ensures Picks(Selected(s, keep), s, at)
    ensures forall i: nat :: i in at <==> i < |s| && s[i] in keep
  {
    if s == [] {
      at := [];
    } else {
      var before, x := s[..|s| - 1], s[|s| - 1];
      at := SelectedPicks(before, keep);
      PicksGrow(Selected(before, keep), before, at, x);
      assert s == before + [x];
      at := at + if x in keep then [|before|] else [];
    }
  }

  lemma SelectedGrows(s: seq<nat>, keep: set<nat>, x: nat)
    ensures Selected(s + [x], keep) == Selected(s, keep) + if x in keep then [x] else []
  {
    assert (s + [x])[..|s + [x]| - 1] == s;
  }

  lemma {:induction false} SelectedHas(s: seq<nat>, keep: set<nat>, x: nat)
    ensures x in Selected(s, keep) <==> x in s && x in keep
  {
    if s != [] {
      SelectedHas(s[..|s| - 1], keep, x);
      assert s == s[..|s| - 1] + [s[|s| - 1]];
    }
  }

  // ---------------------------------------------------------------------- the stack

  /** What has arrived and not been taken, by first arrival. */
  function Fresh(s: seq<nat>, taken: seq<nat>): seq<nat>
  {
    if s == [] then []
    else
      var x := s[|s| - 1];
      var before := s[..|s| - 1];
      Fresh(before, taken) + if x in before || x in taken then [] else [x]
  }

  /** `x` arrives first at place `i`, and what arrives behind it has been taken or has arrived
      before. */
  predicate LastAt(s: seq<nat>, taken: seq<nat>, x: nat, i: nat)
  {
    && i < |s| && s[i] == x && x !in s[..i] && x !in taken
    && forall k :: i < k < |s| ==> s[k] in taken || s[k] in s[..i + 1]
  }

  /** Of all that has arrived and not been taken, the first arrival of `x` is the last. */
  ghost predicate LastNew(s: seq<nat>, taken: seq<nat>, x: nat)
  {
    exists i: nat :: LastAt(s, taken, x, i)
  }

  lemma PrefixesGrow(s: seq<nat>)
    ensures forall i, k, x :: 0 <= i <= k <= |s| && x in s[..i] ==> x in s[..k]
  {
  }

  lemma LastNewIsUnique(s: seq<nat>, taken: seq<nat>, x: nat, y: nat)
    requires LastNew(s, taken, x) && LastNew(s, taken, y)
    ensures x == y
  {
    var i: nat :| LastAt(s, taken, x, i);
    var k: nat :| LastAt(s, taken, y, k);
    PrefixesGrow(s);
  }

  lemma {:induction false} FreshHas(s: seq<nat>, taken: seq<nat>, x: nat)
    ensures x in Fresh(s, taken) <==> x in s && x !in taken
  {
    if s != [] {
      FreshHas(s[..|s| - 1], taken, x);
      assert s == s[..|s| - 1] + [s[|s| - 1]];
    }
  }

  /** A source that arrives is put on the stack if it is one of `keep` and has not been there. */
  lemma Arrives(s: seq<nat>, taken: seq<nat>, keep: set<nat>, sources: seq<nat>, x: nat)
    ensures Selected(sources + [x], keep) == Selected(sources, keep) + if x in keep then [x] else []
    ensures var stack := Fresh(s + Selected(sources, keep), taken);
      Fresh(s + Selected(sources + [x], keep), taken) ==
        if x in keep && x !in taken && x !in stack then stack + [x] else stack
  {
    var all := s + Selected(sources, keep);
    SelectedGrows(sources, keep, x);
    FreshGrows(all, taken, x);
    FreshHas(all, taken, x);
    if x in keep {
      assert s + Selected(sources + [x], keep) == all + [x];
    } else {
      assert s + Selected(sources + [x], keep) == all;
    }
  }

  lemma FreshGrows(s: seq<nat>, taken: seq<nat>, x: nat)
    ensures Fresh(s + [x], taken) == Fresh(s, taken) + if x in s || x in taken then [] else [x]
  {
    assert (s + [x])[..|s + [x]| - 1] == s;
  }

  lemma {:induction false} FreshLast(s: seq<nat>, taken: seq<nat>)
    requires Fresh(s, taken) != []
    ensures LastNew(s, taken, Fresh(s, taken)[|Fresh(s, taken)| - 1])
  {
    var x, before := s[|s| - 1], s[..|s| - 1];
    if x !in before && x !in taken {
      assert LastAt(s, taken, x, |s| - 1);
    } else {
      FreshLast(before, taken);
      var y := Fresh(s, taken)[|Fresh(s, taken)| - 1];
      var i: nat :| LastAt(before, taken, y, i);
      assert s[..i] == before[..i] && s[..i + 1] == before[..i + 1];
      if x in before && x !in taken {
        var h :| 0 <= h < |before| && before[h] == x;
        assert h > i || before[h] in before[..i + 1];
      }
      assert LastAt(s, taken, y, i);
    }
  }

  lemma {:induction false} FreshWithout(s: seq<nat>, taken: seq<nat>, x: nat)
    requires x !in s
    ensures Fresh(s, taken + [x]) == Fresh(s, taken)
  {
    if s != [] {
      FreshWithout(s[..|s| - 1], taken, x);
      assert s[|s| - 1] in s;
    }
  }

  /** Taking the top of the stack. */
  lemma {:induction false} FreshTaken(s: seq<nat>, taken: seq<nat>)
    requires Fresh(s, taken) != []
    ensures var r := Fresh(s, taken); Fresh(s, taken + [r[|r| - 1]]) == r[..|r| - 1]
  {
    var x, before := s[|s| - 1], s[..|s| - 1];
    if x !in before && x !in taken {
      FreshWithout(before, taken, x);
    } else {
      FreshTaken(before, taken);
    }
  }
}
