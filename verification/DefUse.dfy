/**
 The search whether an instruction lies on a def-use path that leads to another one.  Its list
 holds duplicates, and instructions already done are processed again when they come up.
 */
module DefUse {
  /** The instructions among the operands of each instruction, and for phi nodes the
      terminators of the incoming blocks. */
  datatype Code = Code(operands: map<nat, seq<nat>>, incoming: map<nat, seq<nat>>)

  predicate Closed(c: Code)
  {
    && c.operands.Keys == c.incoming.Keys
    && (forall x, y :: x in c.operands && y in c.operands[x] ==> y in c.operands)
    && forall x, y :: x in c.incoming && y in c.incoming[x] ==> y in c.operands
  }

  predicate Step(c: Code, x: nat, y: nat)
  {
    x in c.operands && x in c.incoming && (y in c.operands[x] || y in c.incoming[x])
  }

  ghost predicate Chain(c: Code, p: seq<nat>, x: nat, y: nat)
  {
    p != [] && p[0] == x && p[|p| - 1] == y && forall i :: 0 <= i < |p| - 1 ==> Step(c, p[i], p[i + 1])
  }

  ghost predicate Reaches(c: Code, x: nat, y: nat)
  {
    exists p :: Chain(c, p, x, y)
  }

  /** `src` is an operand of `dst`, or of what `dst` depends on. */
  ghost predicate InDefUsePath(c: Code, src: nat, dst: nat)
  {
    exists x :: Reaches(c, dst, x) && x in c.operands && src in c.operands[x]
  }

  lemma ReachesOn(c: Code, x: nat, y: nat, z: nat)
    requires Reaches(c, x, y) && Step(c, y, z)
    ensures Reaches(c, x, z)
  {
    var p :| Chain(c, p, x, y);
    assert Chain(c, p + [z], x, z);
  }

  lemma {:induction false} ReachesWithin(c: Code, inside: set<nat>, p: seq<nat>, x: nat, y: nat)
    requires Chain(c, p, x, y) && x in inside
    requires forall a, b :: a in inside && Step(c, a, b) ==> b in inside
    ensures y in inside
    decreases |p|
  {
    if |p| > 1 {
      assert Step(c, p[0], p[0 + 1]);
      var rest := p[1..];
      forall i | 0 <= i < |rest| - 1
        ensures Step(c, rest[i], rest[i + 1])
      {
        assert rest[i] == p[i + 1] && rest[i + 1] == p[i + 1 + 1];
      }
      ReachesWithin(c, inside, rest, p[1], y);
    }
  }

  /** `s` waits in the list above every copy of `d`. */
  predicate Above(list: seq<nat>, d: nat, s: nat)
  {
    exists j :: 0 <= j < |list| && list[j] == s && forall i :: j <= i < |list| ==> list[i] != d
  }

  /** What is done has its successors done, or waiting above all its own copies: when it comes
      up again there is nothing left to push. */
  ghost predicate DepthFirst(c: Code, list: seq<nat>, done: set<nat>)
  {
    forall d, s :: d in done && Step(c, d, s) && s !in done ==> Above(list, d, s)
  }

  /** No operand of what is done is the instruction that is looked for. */
  ghost predicate Missed(c: Code, src: nat, done: set<nat>)
  {
    forall d :: d in done ==> d in c.operands && src !in c.operands[d]
  }

  /** The members of `items` not done yet, in order. */
  function Fresh(items: seq<nat>, done: set<nat>): (r: seq<nat>)
    ensures forall x :: x in r <==> x in items && x !in done
  {
    if items == [] then []
    else
      var rest := Fresh(items[..|items| - 1], done);
      var last := items[|items| - 1];
      if last in done then rest else rest + [last]
  }

  lemma {:induction false} FreshOfDone(items: seq<nat>, done: set<nat>)
    requires forall x :: x in items ==> x in done
    ensures Fresh(items, done) == []
  {
    if items != [] {
      FreshOfDone(items[..|items| - 1], done);
    }
  }

  method Push(list: seq<nat>, items: seq<nat>, doneList: seq<nat>, ghost done: set<nat>) returns (r: seq<nat>)
    requires forall x :: x in doneList <==> x in done
    ensures r == list + Fresh(items, done)
  {
    r := list;
    for i := 0 to |items|
      invariant r == list + Fresh(items[..i], done)
    {
      assert items[..i + 1][..i] == items[..i];
      if items[i] !in doneList {
        r := r + [items[i]];
      }
    }
    assert items[..|items|] == items;
  }

  /** The first loop of the original also returns when it meets `src` among the operands. */
  method PushOperands(list: seq<nat>, items: seq<nat>, src: nat, doneList: seq<nat>, ghost done: set<nat>)
    returns (found: bool, r: seq<nat>)
    requires forall x :: x in doneList <==> x in done
    ensures found <==> src in items
    ensures !found ==> r == list + Fresh(items, done)
  {
    r := list;
    for i := 0 to |items|
      invariant src !in items[..i]
      invariant r == list + Fresh(items[..i], done)
    {
      assert items[..i + 1][..i] == items[..i];
      if items[i] == src {
        return true, r;
      }
      if items[i] !in doneList {
        r := r + [items[i]];
      }
    }
    assert items[..|items|] == items;
    found := false;
  }

  lemma StepsDeeper(c: Code, rest: seq<nat>, current: nat, done: set<nat>, list: seq<nat>, a: seq<nat>, b: seq<nat>)
    requires Closed(c) && current in c.operands && DepthFirst(c, rest + [current], done)
    requires a == Fresh(c.operands[current], done + {current}) && b == Fresh(c.incoming[current], done + {current})
    requires list == rest + a + b
    ensures DepthFirst(c, list, done + {current})
  {
    forall d, s | d in done + {current} && Step(c, d, s) && s !in done + {current}
      ensures Above(list, d, s)
    {
      if d == current {
        assert s in a || s in b;
        assert s in a + b;
        var k :| 0 <= k < |a + b| && (a + b)[k] == s;
        assert list[|rest| + k] == s;
        forall i | |rest| + k <= i < |list|
          ensures list[i] != d
        {
          assert list[i] == (a + b)[i - |rest|];
          assert list[i] in a || list[i] in b;
        }
      } else {
        assert Above(rest + [current], d, s);
        var j :| 0 <= j < |rest + [current]| && (rest + [current])[j] == s &&
          forall i :: j <= i < |rest + [current]| ==> (rest + [current])[i] != d;
        assert list[j] == s;
        forall i | j <= i < |list|
          ensures list[i] != d
        {
          if i < |rest| {
            assert list[i] == (rest + [current])[i];
          } else {
            assert list[i] in a || list[i] in b;
          }
        }
      }
    }
  }

  /** Nothing is pushed for an instruction that comes up again. */
  lemma NothingToPush(c: Code, rest: seq<nat>, current: nat, done: set<nat>)
    requires Closed(c) && current in c.operands && current in done && DepthFirst(c, rest + [current], done)
    ensures Fresh(c.operands[current], done) == [] && Fresh(c.incoming[current], done) == []
  {
    var list := rest + [current];
    forall s | Step(c, current, s)
      ensures s in done
    {
      assert list[|list| - 1] == current;
      assert !Above(list, current, s);
    }
    FreshOfDone(c.operands[current], done);
    FreshOfDone(c.incoming[current], done);
  }

  /** The search. */
  method IsInDefUsePath(c: Code, src: nat, dst: nat) returns (found: bool)
    requires Closed(c) && dst in c.operands
    ensures found <==> InDefUsePath(c, src, dst)
  {
    var workList, doneList: seq<nat> := [dst], [];
    ghost var done: set<nat> := {};
    assert Chain(c, [dst], dst, dst);
    while workList != []
      invariant forall x :: x in doneList <==> x in done
      invariant forall x :: x in workList ==> x in c.operands && Reaches(c, dst, x)
      invariant done <= c.operands.Keys && Missed(c, src, done)
      invariant DepthFirst(c, workList, done)
      invariant dst in done || dst in workList
      decreases c.operands.Keys - done, |workList|
    {
      ghost var whole := workList;
      var current := workList[|workList| - 1];
      workList := workList[..|workList| - 1];
      ghost var rest := workList;
      assert whole == rest + [current];
      doneList := doneList + [current];
      if current in done {
        NothingToPush(c, rest, current, done);
      }
      ghost var now := done + {current};
      found, workList := PushOperands(workList, c.operands[current], src, doneList, now);
      if found {
        return true;
      }
      workList := Push(workList, c.incoming[current], doneList, now);
      ghost var a, b := Fresh(c.operands[current], now), Fresh(c.incoming[current], now);
      StepsDeeper(c, rest, current, done, workList, a, b);
      forall x | x in workList
        ensures x in c.operands && Reaches(c, dst, x)
      {
        assert x in rest || x in a || x in b;
        if x !in rest {
          ReachesOn(c, dst, current, x);
        }
      }
      if current in done {
        assert now == done;
      }
      done := now;
    }
    forall x | Reaches(c, dst, x)
      ensures x in done
    {
      var p :| Chain(c, p, dst, x);
      ReachesWithin(c, done, p, dst, x);
    }
    return false;
  }
}
