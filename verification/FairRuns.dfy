/**
 Runs of a system of clients and a server, under weak fairness: if every step without work
 leaves the clients as they are, and the server's turn shortens a bounded wait whenever all
 clients are blocked, then fair runs get the work done.
 */
module FairRuns {

  /** `next` is the step relation, `inv` an invariant, `done` the goal.  `ready` says which
      clients (0, 1, ...) can move; `client` and `server` say which steps are somebody's turn. */
  datatype Machine<!T(!new)> = Machine(
    clients: nat, next: (T, T) -> bool, inv: T -> bool, done: T -> bool, work: T -> nat, wait: T -> nat,
    ready: (nat, T) -> bool, client: (nat, T, T) -> bool, server: (T, T) -> bool)

  ghost predicate Blocked<T(!new)>(m: Machine<T>, y: T)
  {
    forall p: nat {:trigger m.ready(p, y)} :: p < m.clients ==> !m.ready(p, y)
  }

  ghost predicate SameReady<T(!new)>(m: Machine<T>, y: T, z: T)
  {
    forall p: nat {:trigger m.ready(p, y)} {:trigger m.ready(p, z)} :: p < m.clients ==> m.ready(p, z) == m.ready(p, y)
  }

  /** Work is never undone; a step without work changes neither readiness nor the goal and
      does not lengthen the wait. */
  ghost predicate Monotone<T(!new)>(m: Machine<T>)
  {
    forall y, z {:trigger m.next(y, z)} :: m.inv(y) && m.next(y, z) ==>
      && m.inv(z) && m.work(z) >= m.work(y)
      && (m.work(z) == m.work(y) ==>
            m.wait(z) <= m.wait(y) && m.done(z) == m.done(y) && SameReady(m, y, z))
  }

  /** A ready client does work at its turn. */
  ghost predicate ClientsWork<T(!new)>(m: Machine<T>)
  {
    forall p: nat, y, z {:trigger m.client(p, y, z)} :: p < m.clients && m.inv(y) && m.client(p, y, z) && m.ready(p, y) ==>
      m.work(z) > m.work(y)
  }

  /** With all clients blocked, the server's turn does work or shortens the wait. */
  ghost predicate ServerWorks<T(!new)>(m: Machine<T>)
  {
    forall y, z {:trigger m.server(y, z)} ::
      m.inv(y) && m.server(y, z) && !m.done(y) && Blocked(m, y) ==>
        m.work(z) > m.work(y) || m.wait(z) < m.wait(y)
  }

  ghost predicate Bounded<T(!new)>(m: Machine<T>, bound: nat, total: nat)
  {
    forall y :: m.inv(y) ==> m.wait(y) < bound && m.work(y) < total
  }

  ghost predicate Live<T(!new)>(m: Machine<T>, bound: nat, total: nat)
  {
    Monotone(m) && ClientsWork(m) && ServerWorks(m) && Bounded(m, bound, total)
  }

  ghost predicate Steps<T(!new)>(m: Machine<T>, run: seq<T>)
  {
    forall i :: 0 <= i < |run| - 1 ==> m.next(run[i], run[i + 1])
  }

  ghost predicate ClientAt<T(!new)>(m: Machine<T>, run: seq<T>, p: nat, i: nat)
  {
    i < |run| - 1 && m.client(p, run[i], run[i + 1])
  }

  ghost predicate ServerAt<T(!new)>(m: Machine<T>, run: seq<T>, i: nat)
  {
    i < |run| - 1 && m.server(run[i], run[i + 1])
  }

  ghost predicate ClientBetween<T(!new)>(m: Machine<T>, run: seq<T>, p: nat, lo: nat, hi: nat)
  {
    exists i: nat :: lo <= i < hi && ClientAt(m, run, p, i)
  }

  /** Between `lo` and `hi` every client and the server get a turn. */
  ghost predicate Fair<T(!new)>(m: Machine<T>, run: seq<T>, lo: nat, hi: nat)
  {
    && lo < hi < |run|
    && (forall p: nat {:trigger ClientBetween(m, run, p, lo, hi)} :: p < m.clients ==> ClientBetween(m, run, p, lo, hi))
    && (exists i: nat :: lo <= i < hi && ServerAt(m, run, i))
  }

  /** `marks` cut a run into fair stretches. */
  ghost predicate FairRun<T(!new)>(m: Machine<T>, run: seq<T>, marks: seq<nat>)
  {
    && Steps(m, run) && marks != [] && marks[0] < |run|
    && forall i :: 0 <= i < |marks| - 1 ==> Fair(m, run, marks[i], marks[i + 1])
  }

  lemma {:induction false} StretchKeeps<T(!new)>(m: Machine<T>, run: seq<T>, lo: nat, i: nat)
    requires Monotone(m) && Steps(m, run) && lo <= i < |run| && m.inv(run[lo])
    ensures m.inv(run[i]) && m.work(run[i]) >= m.work(run[lo])
    ensures m.work(run[i]) == m.work(run[lo]) ==>
      m.wait(run[i]) <= m.wait(run[lo]) && m.done(run[i]) == m.done(run[lo]) && SameReady(m, run[lo], run[i])
  {
    if lo < i {
      StretchKeeps(m, run, lo, i - 1);
      assert m.next(run[i - 1], run[i - 1 + 1]);
    }
  }

  /** At a step inside a stretch without work nothing has changed for the clients. */
  lemma {:induction false} NoWorkAt<T(!new)>(m: Machine<T>, run: seq<T>, lo: nat, i: nat, hi: nat)
    requires Monotone(m) && Steps(m, run) && lo <= i < hi < |run| && m.inv(run[lo])
    requires m.work(run[hi]) == m.work(run[lo])
    ensures m.inv(run[i]) && m.work(run[i + 1]) == m.work(run[i]) && m.done(run[i]) == m.done(run[lo])
    ensures SameReady(m, run[lo], run[i])
    ensures m.wait(run[hi]) <= m.wait(run[i + 1]) && m.wait(run[i]) <= m.wait(run[lo])
  {
    StretchKeeps(m, run, lo, i);
    StretchKeeps(m, run, i, i + 1);
    StretchKeeps(m, run, i + 1, hi);
  }

  /** A stretch without work has all clients blocked from the start. */
  lemma {:induction false} ClientsAreBlocked<T(!new)>(m: Machine<T>, run: seq<T>, lo: nat, hi: nat)
    requires Monotone(m) && ClientsWork(m)
    requires Steps(m, run) && Fair(m, run, lo, hi) && m.inv(run[lo]) && m.work(run[hi]) == m.work(run[lo])
    ensures Blocked(m, run[lo])
  {
    forall p: nat | p < m.clients
      ensures !m.ready(p, run[lo])
    {
      assert ClientBetween(m, run, p, lo, hi);
      var a: nat :| lo <= a < hi && ClientAt(m, run, p, a);
      NoWorkAt(m, run, lo, a, hi);
      assert m.ready(p, run[a]) == m.ready(p, run[lo]);
    }
  }

  lemma {:induction false} FairStretchWorks<T(!new)>(m: Machine<T>, run: seq<T>, lo: nat, hi: nat)
    requires Monotone(m) && ClientsWork(m) && ServerWorks(m)
    requires Steps(m, run) && Fair(m, run, lo, hi) && m.inv(run[lo]) && !m.done(run[lo])
    ensures m.inv(run[hi]) && m.work(run[hi]) >= m.work(run[lo])
    ensures m.work(run[hi]) > m.work(run[lo]) || (m.wait(run[hi]) < m.wait(run[lo]) && !m.done(run[hi]))
  {
    StretchKeeps(m, run, lo, hi);
    if m.work(run[hi]) == m.work(run[lo]) {
      ClientsAreBlocked(m, run, lo, hi);
      var q: nat :| lo <= q < hi && ServerAt(m, run, q);
      NoWorkAt(m, run, lo, q, hi);
    }
  }

  lemma {:induction false} FairRunTail<T(!new)>(m: Machine<T>, run: seq<T>, marks: seq<nat>)
    requires FairRun(m, run, marks) && |marks| > 1
    ensures FairRun(m, run, marks[1..]) && Fair(m, run, marks[0], marks[1])
  {
    assert Fair(m, run, marks[0], marks[0 + 1]);
    forall i | 0 <= i < |marks[1..]| - 1
      ensures Fair(m, run, marks[1..][i], marks[1..][i + 1])
    {
      assert Fair(m, run, marks[i + 1], marks[i + 1 + 1]);
    }
  }

  lemma {:induction false} FairRunKeeps<T(!new)>(m: Machine<T>, run: seq<T>, marks: seq<nat>)
    requires Monotone(m) && FairRun(m, run, marks) && m.inv(run[marks[0]])
    ensures marks[|marks| - 1] < |run| && m.inv(run[marks[|marks| - 1]])
    ensures m.work(run[marks[|marks| - 1]]) >= m.work(run[marks[0]])
    decreases |marks|
  {
    if |marks| > 1 {
      FairRunTail(m, run, marks);
      StretchKeeps(m, run, marks[0], marks[1]);
      FairRunKeeps(m, run, marks[1..]);
    }
  }

  /** More fair stretches than the wait at the start get work done. */
  lemma {:induction false} FairRunAdvances<T(!new)>(m: Machine<T>, run: seq<T>, marks: seq<nat>)
    requires Monotone(m) && ClientsWork(m) && ServerWorks(m) && FairRun(m, run, marks)
    requires m.inv(run[marks[0]]) && !m.done(run[marks[0]]) && m.wait(run[marks[0]]) + 1 < |marks|
    ensures marks[|marks| - 1] < |run| && m.work(run[marks[|marks| - 1]]) > m.work(run[marks[0]])
    decreases |marks|
  {
    FairRunTail(m, run, marks);
    FairStretchWorks(m, run, marks[0], marks[1]);
    if m.work(run[marks[1]]) > m.work(run[marks[0]]) {
      FairRunKeeps(m, run, marks[1..]);
    } else {
      FairRunAdvances(m, run, marks[1..]);
    }
  }

  /** `bound * total`. */
  function Stretches(bound: nat, total: nat): nat
  {
    if total == 0 then 0 else bound + Stretches(bound, total - 1)
  }

  lemma {:induction false} StretchesIsProduct(bound: nat, total: nat)
    ensures Stretches(bound, total) == bound * total
  {
    if total > 0 {
      StretchesIsProduct(bound, total - 1);
      assert bound * total == bound * (total - 1) + bound;
    }
  }

  lemma {:induction false} StretchesGrow(bound: nat, a: nat, b: nat)
    requires a < b
    ensures Stretches(bound, a) + bound <= Stretches(bound, b)
  {
    if a + 1 < b {
      StretchesGrow(bound, a, b - 1);
    }
  }

  /** What a state can still go through: at most `bound` fair stretches for each unit of work. */
  ghost function Left<T(!new)>(m: Machine<T>, bound: nat, total: nat, y: T): nat
    requires m.work(y) <= total
  {
    Stretches(bound, total - m.work(y)) + m.wait(y)
  }

  lemma {:induction false} LeftIsBounded<T(!new)>(m: Machine<T>, bound: nat, total: nat, y: T)
    requires m.work(y) <= total && m.wait(y) < bound
    ensures Left(m, bound, total, y) <= bound * (total + 1)
  {
    StretchesIsProduct(bound, total + 1);
    StretchesGrow(bound, total - m.work(y), total + 1);
  }

  lemma {:induction false} LeftFalls<T(!new)>(m: Machine<T>, bound: nat, total: nat, y: T, z: T)
    requires Bounded(m, bound, total) && m.inv(y) && m.inv(z)
    requires m.work(z) > m.work(y) || (m.work(z) == m.work(y) && m.wait(z) < m.wait(y))
    ensures m.work(y) < total && m.work(z) < total
    ensures Left(m, bound, total, z) < Left(m, bound, total, y)
  {
    if m.work(z) > m.work(y) {
      StretchesGrow(bound, total - m.work(z), total - m.work(y));
    }
  }

  lemma {:induction false} SomeLeft<T(!new)>(m: Machine<T>, bound: nat, total: nat, y: T)
    requires Bounded(m, bound, total) && m.inv(y)
    ensures m.work(y) < total && Left(m, bound, total, y) >= 1
  {
    StretchesGrow(bound, 0, total - m.work(y));
  }

  /** A fair run with `bound` stretches for each unit of work reaches the goal. */
  lemma {:induction false} FairRunCompletes<T(!new)>(
    m: Machine<T>, run: seq<T>, marks: seq<nat>, bound: nat, total: nat) returns (i: nat)
    requires Live(m, bound, total) && FairRun(m, run, marks) && m.inv(run[marks[0]])
    requires m.work(run[marks[0]]) <= total && Left(m, bound, total, run[marks[0]]) < |marks|
    ensures i < |marks| && marks[i] < |run| && m.inv(run[marks[i]]) && m.done(run[marks[i]])
    decreases |marks|
  {
    if m.done(run[marks[0]]) {
      i := 0;
    } else {
      SomeLeft(m, bound, total, run[marks[0]]);
      FairRunTail(m, run, marks);
      FairStretchWorks(m, run, marks[0], marks[1]);
      LeftFalls(m, bound, total, run[marks[0]], run[marks[1]]);
      i := FairRunCompletes(m, run, marks[1..], bound, total);
      i := i + 1;
    }
  }

  /** What has reached the goal stays there. */
  ghost predicate Stable<T(!new)>(m: Machine<T>)
  {
    forall y, z {:trigger m.next(y, z)} :: m.inv(y) && m.done(y) && m.next(y, z) ==> m.inv(z) && m.done(z)
  }

  lemma {:induction false} DoneToTheEnd<T(!new)>(m: Machine<T>, run: seq<T>, i: nat, n: nat)
    requires Stable(m) && Steps(m, run) && i <= n < |run| && m.inv(run[i]) && m.done(run[i])
    ensures m.inv(run[n]) && m.done(run[n])
  {
    if i < n {
      DoneToTheEnd(m, run, i, n - 1);
      assert m.next(run[n - 1], run[n - 1 + 1]);
    }
  }

  /** A fair run with `bound` stretches for each unit of work ends at the goal. */
  lemma {:induction false} FairRunEnds<T(!new)>(m: Machine<T>, run: seq<T>, marks: seq<nat>, bound: nat, total: nat)
    requires Live(m, bound, total) && Stable(m) && FairRun(m, run, marks) && m.inv(run[marks[0]])
    requires |marks| > bound * (total + 1)
    ensures m.inv(run[|run| - 1]) && m.done(run[|run| - 1])
  {
    LeftIsBounded(m, bound, total, run[marks[0]]);
    var i := FairRunCompletes(m, run, marks, bound, total);
    DoneToTheEnd(m, run, marks[i], |run| - 1);
  }
}
