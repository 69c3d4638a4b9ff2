/** Options, results and the sequence vocabulary the other modules share. */
module Common {

  datatype Option<+T> = None | Some(value: T)

  datatype Result<+T, +E> = Ok(value: T) | Err(error: E)

  // ---------------------------------------------------------------------------------------------------------------
  // Filtering
  // ---------------------------------------------------------------------------------------------------------------

  /** The elements of `xs` that `keep` accepts, in order. */
  function Filter<T(!new)>(xs: seq<T>, keep: T -> bool): (kept: seq<T>)
    ensures forall x :: x in kept <==> x in xs && keep(x)
    ensures |kept| <= |xs|
  {
    if xs == [] then []
    else (if keep(xs[0]) then [xs[0]] else []) + Filter(xs[1..], keep)
  }

  lemma {:induction false} FilterAppend<T(!new)>(a: seq<T>, b: seq<T>, keep: T -> bool)
    ensures Filter(a + b, keep) == Filter(a, keep) + Filter(b, keep)
  {
    if a == [] {
      assert a + b == b;
    } else {
      assert (a + b)[1..] == a[1..] + b;
      FilterAppend(a[1..], b, keep);
    }
  }

  /** A filter depends only on what it decides about the elements there are. */
  lemma {:induction false} FilterAgree<T(!new)>(xs: seq<T>, p: T -> bool, q: T -> bool)
    requires forall x :: x in xs ==> p(x) == q(x)
    ensures Filter(xs, p) == Filter(xs, q)
  {
    if xs != [] {
      assert xs[0] in xs;
      forall x | x in xs[1..] ensures p(x) == q(x) {
        assert x in xs;
      }
      FilterAgree(xs[1..], p, q);
    }
  }

  lemma {:induction false} FilterAll<T(!new)>(xs: seq<T>, keep: T -> bool)
    requires forall x :: x in xs ==> keep(x)
    ensures Filter(xs, keep) == xs
  {
    if xs != [] {
      assert xs[0] in xs;
      forall x | x in xs[1..] ensures keep(x) {
        assert x in xs;
      }
      FilterAll(xs[1..], keep);
    }
  }

  ghost predicate Distinct<T>(xs: seq<T>) {
    forall i, j :: 0 <= i < j < |xs| ==> xs[i] != xs[j]
  }

  lemma {:induction false} FilterDistinct<T(!new)>(xs: seq<T>, keep: T -> bool)
    requires Distinct(xs)
    ensures Distinct(Filter(xs, keep))
  {
    if xs != [] {
      FilterDistinct(xs[1..], keep);
    }
  }

  lemma NotTheFirst<T(!new)>(xs: seq<T>, keep: T -> bool, k: nat, p: nat)
    requires Distinct(xs) && xs != [] && p < |xs|
    requires k < |Filter(xs[1..], keep)| && Filter(xs[1..], keep)[k] == xs[p]
    ensures p > 0
  {
    var x := Filter(xs[1..], keep)[k];
    assert x in Filter(xs[1..], keep) && x in xs[1..];
  }

  /** What a filter keeps stays in order. */
  lemma {:induction false} FilterInOrder<T(!new)>(xs: seq<T>, keep: T -> bool, i: nat, j: nat, p: nat, q: nat)
    requires Distinct(xs) && i < j < |Filter(xs, keep)| && p < |xs| && q < |xs|
    requires Filter(xs, keep)[i] == xs[p] && Filter(xs, keep)[j] == xs[q]
    ensures p < q
  {
    var first: nat := if keep(xs[0]) then 1 else 0;
    NotTheFirst(xs, keep, j - first, q);
    if i >= first {
      NotTheFirst(xs, keep, i - first, p);
      FilterInOrder(xs[1..], keep, i - first, j - first, p - 1, q - 1);
    }
  }

  /** A filter that drops something keeps fewer. */
  lemma {:induction false} FilterDrops<T(!new)>(xs: seq<T>, keep: T -> bool, x: T)
    requires x in xs && !keep(x)
    ensures |Filter(xs, keep)| < |xs|
  {
    if keep(xs[0]) {
      FilterDrops(xs[1..], keep, x);
    }
  }

  /** What a filter keeps and what it drops are together everything there was. */
  lemma {:induction false} FilterSplits<T(!new)>(xs: seq<T>, keep: T -> bool, drop: T -> bool)
    requires forall x :: x in xs ==> drop(x) == !keep(x)
    ensures |Filter(xs, keep)| + |Filter(xs, drop)| == |xs|
  {
    if xs != [] {
      assert xs[0] in xs;
      forall x | x in xs[1..] ensures drop(x) == !keep(x) {
        assert x in xs;
      }
      FilterSplits(xs[1..], keep, drop);
    }
  }

  // ---------------------------------------------------------------------------------------------------------------
  // Numbering
  // ---------------------------------------------------------------------------------------------------------------

  /** The numbers below `n`. */
  function Numbers(n: nat): (numbers: seq<nat>)
    ensures |numbers| == n && forall i :: 0 <= i < n ==> numbers[i] == i
  {
    if n == 0 then [] else Numbers(n - 1) + [n - 1]
  }

  lemma InNumbers(n: nat, i: nat)
    ensures i in Numbers(n) <==> i < n
  {
  }

  function Members(xs: seq<nat>): set<nat> {
    set x | x in xs
  }

  lemma {:induction false} DistinctSize(xs: seq<nat>)
    requires Distinct(xs)
    ensures |Members(xs)| == |xs|
  {
    if xs != [] {
      var rest := xs[1..];
      DistinctSize(rest);
      assert Members(xs) == {xs[0]} + Members(rest) && xs[0] !in rest;
    }
  }

  lemma NumbersSize(n: nat)
    ensures |Members(Numbers(n))| == n
  {
    DistinctSize(Numbers(n));
  }

  lemma {:induction false} MembersSize(xs: seq<nat>)
    ensures |Members(xs)| <= |xs|
  {
    if xs != [] {
      MembersSize(xs[1..]);
      assert Members(xs) == {xs[0]} + Members(xs[1..]);
    }
  }

  lemma SubsetSize<T>(a: set<T>, b: set<T>)
    requires a <= b
    ensures |a| <= |b|
  {
    assert b == a + (b - a);
  }

  // ---------------------------------------------------------------------------------------------------------------
  // Searching
  // ---------------------------------------------------------------------------------------------------------------

  /** Where a binary search from `low`, rounding up, ends: each step keeps the upper half when its start is accepted. */
  function LastAccepted(ok: nat -> bool, low: nat, high: nat): (last: nat)
    requires low <= high
    ensures low <= last <= high
    ensures last > low ==> ok(last)
    ensures last < high ==> !ok(last + 1)
    decreases high - low
  {
    if low == high then low
    else
      var middle := (low + high + 1) / 2;
      if ok(middle) then LastAccepted(ok, middle, high) else LastAccepted(ok, low, middle - 1)
  }

  method SearchLast(ok: nat -> bool, from: nat, to: nat) returns (low: nat)
    requires from <= to
    ensures low == LastAccepted(ok, from, to)
  {
    low := from;
    var high: nat := to;
    while low < high
      invariant from <= low <= high <= to
      invariant LastAccepted(ok, low, high) == LastAccepted(ok, from, to)
    {
      var middle: nat := (low + high + 1) / 2;
      if ok(middle) {
        low := middle;
      } else {
        high := middle - 1;
      }
    }
  }

  /** Where a binary search from `low`, rounding down, ends: each step keeps the lower half when its end is accepted. */
  function FirstAccepted(ok: nat -> bool, low: nat, high: nat): (first: nat)
    requires low <= high
    ensures low <= first <= high
    ensures first < high ==> ok(first)
    ensures first > low ==> !ok(first - 1)
    decreases high - low
  {
    if low == high then low
    else
      var middle := (low + high) / 2;
      if ok(middle) then FirstAccepted(ok, low, middle) else FirstAccepted(ok, middle + 1, high)
  }

  method SearchFirst(ok: nat -> bool, from: nat, to: nat) returns (low: nat)
    requires from <= to
    ensures low == FirstAccepted(ok, from, to)
  {
    low := from;
    var high: nat := to;
    while low < high
      invariant from <= low <= high <= to
      invariant FirstAccepted(ok, low, high) == FirstAccepted(ok, from, to)
    {
      var middle: nat := (low + high) / 2;
      if ok(middle) {
        high := middle;
      } else {
        low := middle + 1;
      }
    }
  }

  // ---------------------------------------------------------------------------------------------------------------
  // Paths
  // ---------------------------------------------------------------------------------------------------------------

  /** States each of which is reached from the one before by a turn with its label. */
  ghost predicate IsPath<S(!new), R(!new)>(turn: (S, R, S) -> bool, states: seq<S>, labels: seq<R>) {
    |states| == |labels| + 1 && forall i :: 0 <= i < |labels| ==> turn(states[i], labels[i], states[i + 1])
  }

  lemma PathFurther<S(!new), R(!new)>(turn: (S, R, S) -> bool, states: seq<S>, labels: seq<R>, mark: R, next: S)
    requires IsPath(turn, states, labels) && turn(states[|states| - 1], mark, next)
    ensures IsPath(turn, states + [next], labels + [mark])
  {
  }

  /** What one state has and every turn keeps, every later state of a path has. */
  lemma {:induction false} PathKeeps<S(!new), R(!new)>(
    turn: (S, R, S) -> bool, good: S -> bool, states: seq<S>, labels: seq<R>, from: nat, to: nat)
    requires IsPath(turn, states, labels) && from <= to < |states| && good(states[from])
    requires forall s, r, t :: good(s) && turn(s, r, t) ==> good(t)
    ensures good(states[to])
  {
    if from < to {
      PathKeeps(turn, good, states, labels, from, to - 1);
      assert turn(states[to - 1], labels[to - 1], states[to - 1 + 1]);
    }
  }

  /** From one state, a turn with one label leads to one state. */
  ghost predicate Settled<S(!new), R(!new)>(turn: (S, R, S) -> bool) {
    forall s, p, q, t, u :: turn(s, p, t) && turn(s, q, u) ==> p == q && t == u
  }

  /** Two settled paths from the same state are the same as far as both go. */
  lemma {:induction false} PathsAgree<S(!new), R(!new)>(
    turn: (S, R, S) -> bool, a: seq<S>, p: seq<R>, b: seq<S>, q: seq<R>, i: nat)
    requires Settled(turn) && IsPath(turn, a, p) && IsPath(turn, b, q) && a[0] == b[0]
    requires i < |a| && i < |b|
    ensures a[..i + 1] == b[..i + 1] && p[..i] == q[..i]
  {
    if i > 0 {
      PathsAgree(turn, a, p, b, q, i - 1);
      assert a[i - 1] == a[..i][i - 1] && b[i - 1] == b[..i][i - 1];
      assert turn(a[i - 1], p[i - 1], a[i - 1 + 1]) && turn(b[i - 1], q[i - 1], b[i - 1 + 1]);
      assert a[..i + 1] == a[..i] + [a[i]] && b[..i + 1] == b[..i] + [b[i]];
      assert p[..i] == p[..i - 1] + [p[i - 1]] && q[..i] == q[..i - 1] + [q[i - 1]];
    }
  }

  ghost predicate Stuck<S(!new), R(!new)>(turn: (S, R, S) -> bool, s: S) {
    forall r, t :: !turn(s, r, t)
  }

  lemma GoesOn<S(!new), R(!new)>(turn: (S, R, S) -> bool, a: seq<S>, p: seq<R>, b: seq<S>, q: seq<R>, i: nat)
    requires Settled(turn) && IsPath(turn, a, p) && IsPath(turn, b, q) && a[0] == b[0]
    requires i < |a| && i + 1 < |b|
    ensures !Stuck(turn, a[i])
  {
    PathsAgree(turn, a, p, b, q, i);
    assert a[..i + 1][i] == b[..i + 1][i];
    assert turn(b[i], q[i], b[i + 1]);
  }

  /** Where nothing goes on from their ends, two settled paths from the same state are the same. */
  lemma PathsEndTogether<S(!new), R(!new)>(
    turn: (S, R, S) -> bool, a: seq<S>, p: seq<R>, b: seq<S>, q: seq<R>)
    requires Settled(turn) && IsPath(turn, a, p) && IsPath(turn, b, q) && a[0] == b[0]
    requires Stuck(turn, a[|a| - 1]) && Stuck(turn, b[|b| - 1])
    ensures a == b && p == q
  {
    if |a| < |b| {
      GoesOn(turn, a, p, b, q, |a| - 1);
    } else if |b| < |a| {
      GoesOn(turn, b, q, a, p, |b| - 1);
    }
    PathsAgree(turn, a, p, b, q, |a| - 1);
    assert a[..|a|] == a && b[..|b|] == b && p[..|p|] == p && q[..|q|] == q;
  }
}
