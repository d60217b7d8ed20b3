/** In-order selections: `xs` is `ys` with some elements left out. */
module Selections {
  /** The positions `at` pick `xs` out of `ys` in order. */
  predicate PicksInOrder<T(==)>(xs: seq<T>, ys: seq<T>, at: seq<nat>) {
    && |at| == |xs|
    && (forall i :: 0 <= i < |at| ==> at[i] < |ys| && ys[at[i]] == xs[i])
    && (forall i, j :: 0 <= i < j < |at| ==> at[i] < at[j])
  }

  ghost predicate InOrder<T>(xs: seq<T>, ys: seq<T>) {
    exists at :: PicksInOrder(xs, ys, at)
  }

  lemma NothingInOrder<T>(ys: seq<T>)
    ensures InOrder([], ys)
  {
    assert PicksInOrder([], ys, []);
  }

  lemma PrefixInOrder<T>(xs: seq<T>, ys: seq<T>, k: nat)
    requires InOrder(xs, ys) && k <= |xs|
    ensures InOrder(xs[..k], ys)
  {
    var at: seq<nat> :| PicksInOrder(xs, ys, at);
    assert PicksInOrder(xs[..k], ys, at[..k]);
  }

  /** A further element on the right may be picked or left out. */
  lemma InOrderNext<T>(xs: seq<T>, ys: seq<T>, y: T)
    requires InOrder(xs, ys)
    ensures InOrder(xs, ys + [y]) && InOrder(xs + [y], ys + [y])
  {
    var at: seq<nat> :| PicksInOrder(xs, ys, at);
    assert PicksInOrder(xs, ys + [y], at);
    assert PicksInOrder(xs + [y], ys + [y], at + [|ys|]);
  }

  lemma InOrderMembers<T>(xs: seq<T>, ys: seq<T>)
    requires InOrder(xs, ys)
    ensures |xs| <= |ys| && forall x :: x in xs ==> x in ys
  {
    var at: seq<nat> :| PicksInOrder(xs, ys, at);
    if xs != [] {
      Increasing(at, |at| - 1);
    }
  }

  lemma {:induction false} Increasing(at: seq<nat>, i: nat)
    requires i < |at| && forall j, k :: 0 <= j < k < |at| ==> at[j] < at[k]
    ensures i <= at[i]
  {
    if i == 0 {
    } else {
      Increasing(at, i - 1);
    }
  }
}
