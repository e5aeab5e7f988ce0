/** What it means that a loop keeps some elements of a list, in order. */
module Selections {

  /** r holds the elements of s at the kept positions below n, each once and in order; at lists
      those positions. */
  ghost predicate SelectsTo<T(!new)>(s: seq<T>, n: nat, keep: nat -> bool, at: seq<nat>, r: seq<T>) {
    && n <= |s| && |at| == |r| && Increasing(at)
    && (forall k | 0 <= k < |at| :: at[k] < n && keep(at[k]) && r[k] == s[at[k]])
    && forall i: nat | i < n && keep(i) :: i in at
  }

  ghost predicate Increasing(at: seq<nat>) {
    forall j, k | 0 <= j < k < |at| :: at[j] < at[k]
  }

  ghost predicate Selects<T(!new)>(s: seq<T>, keep: nat -> bool, r: seq<T>) {
    exists at :: SelectsTo(s, |s|, keep, at, r)
  }

  lemma SelectsNext<T(!new)>(s: seq<T>, n: nat, keep: nat -> bool, at: seq<nat>, r: seq<T>)
    requires SelectsTo(s, n, keep, at, r) && n < |s|
    ensures keep(n) ==> SelectsTo(s, n + 1, keep, at + [n], r + [s[n]])
    ensures !keep(n) ==> SelectsTo(s, n + 1, keep, at, r)
  {
    var more := at + [n];
    if keep(n) {
      assert Increasing(more);
      forall i: nat | i < n + 1 && keep(i) ensures i in more {
        assert i < n ==> i in at;
      }
    }
  }

  /** The kept elements determine the outcome. */
  lemma {:induction false} SelectsOnce<T(!new)>(s: seq<T>, keep: nat -> bool, r: seq<T>, q: seq<T>)
    requires Selects(s, keep, r) && Selects(s, keep, q)
    ensures r == q
  {
    var at :| SelectsTo(s, |s|, keep, at, r);
    var to :| SelectsTo(s, |s|, keep, to, q);
    assert forall i: nat :: i in at <==> i in to;
    SamePositions(at, to);
  }

  lemma {:induction false} SamePositions(at: seq<nat>, to: seq<nat>)
    requires Increasing(at) && Increasing(to) && forall i: nat :: i in at <==> i in to
    ensures at == to
  {
    assert to != [] ==> to[0] in to;
    if at != [] {
      assert at[0] in to;
      SameLast(at, to);
      var at', to' := at[..|at| - 1], to[..|to| - 1];
      forall i: nat ensures i in at' <==> i in to' {
        FrontOf(at, i);
        FrontOf(to, i);
      }
      SamePositions(at', to');
      assert at == at' + [at[|at| - 1]] && to == to' + [to[|to| - 1]];
    }
  }

  lemma SameLast(at: seq<nat>, to: seq<nat>)
    requires Increasing(at) && Increasing(to) && at != [] && to != [] && forall i: nat :: i in at <==> i in to
    ensures at[|at| - 1] == to[|to| - 1]
  {
    assert at[|at| - 1] in to && to[|to| - 1] in at;
  }

  lemma FrontOf(at: seq<nat>, i: nat)
    requires Increasing(at) && at != []
    ensures i in at[..|at| - 1] <==> i in at && i != at[|at| - 1]
  {
    if i in at {
      var k :| 0 <= k < |at| && at[k] == i;
      assert k < |at| - 1 ==> at[..|at| - 1][k] == i;
    }
  }

  /** If as many are kept as there are, all are. */
  lemma {:induction false} WholeSelection<T(!new)>(s: seq<T>, keep: nat -> bool, at: seq<nat>, r: seq<T>)
    requires SelectsTo(s, |s|, keep, at, r) && |r| == |s|
    ensures r == s && forall k | 0 <= k < |at| :: at[k] == k
  {
    forall k | 0 <= k < |at| ensures at[k] == k {
      AtLeast(at, k);
      AtMost(at, |s|, k);
    }
  }

  lemma {:induction false} AtLeast(at: seq<nat>, k: nat)
    requires Increasing(at) && k < |at|
    ensures at[k] >= k
  {
    if k > 0 {
      AtLeast(at, k - 1);
    }
  }

  lemma {:induction false} AtMost(at: seq<nat>, n: nat, k: nat)
    requires Increasing(at) && k < |at| && forall j | 0 <= j < |at| :: at[j] < n
    ensures at[k] <= n - |at| + k
    decreases |at| - k
  {
    if k + 1 < |at| {
      AtMost(at, n, k + 1);
    }
  }
}
