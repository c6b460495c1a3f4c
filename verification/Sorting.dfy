/** Sorting a slice with a comparison, and what survives the reordering. */
module Sorting {
  import opened Prelude

  ghost predicate TotalPreorder<T(!new)>(le: (T, T) -> bool) {
    && (forall a, b :: le(a, b) || le(b, a))
    && (forall a, b, c :: le(a, b) && le(b, c) ==> le(a, c))
  }

  ghost predicate SortedBy<T>(xs: seq<T>, le: (T, T) -> bool) {
    forall i, j | 0 <= i < j < |xs| :: le(xs[i], xs[j])
  }

  ghost predicate DistinctBy<T>(xs: seq<T>, idOf: T -> Id) {
    forall i, j | 0 <= i < j < |xs| :: idOf(xs[i]) != idOf(xs[j])
  }

  method Insert<T(!new)>(sorted: seq<T>, x: T, le: (T, T) -> bool) returns (out: seq<T>)
    requires TotalPreorder(le) && SortedBy(sorted, le)
    ensures SortedBy(out, le) && multiset(out) == multiset(sorted) + multiset{x}
  {
    var i := 0;
    while i < |sorted| && le(sorted[i], x)
      invariant 0 <= i <= |sorted|
      invariant forall k | 0 <= k < i :: le(sorted[k], x)
    {
      i := i + 1;
    }
    if i < |sorted| {
      assert forall k | i <= k < |sorted| :: le(x, sorted[k]);
    }
    out := sorted[..i] + [x] + sorted[i..];
    assert sorted == sorted[..i] + sorted[i..];
  }

  method Sort<T(!new)>(xs: seq<T>, le: (T, T) -> bool) returns (out: seq<T>)
    requires TotalPreorder(le)
    ensures SortedBy(out, le) && multiset(out) == multiset(xs)
  {
    out := [];
    for i := 0 to |xs|
      invariant SortedBy(out, le) && multiset(out) == multiset(xs[..i])
    {
      out := Insert(out, xs[i], le);
      assert xs[..i + 1] == xs[..i] + [xs[i]];
    }
    assert xs[..|xs|] == xs;
  }

  lemma TwiceCountsTwo<T>(xs: seq<T>, i: int, j: int)
    requires 0 <= i < j < |xs| && xs[i] == xs[j]
    ensures multiset(xs)[xs[i]] >= 2
  {
    assert xs == xs[..i] + [xs[i]] + xs[i + 1..j] + [xs[j]] + xs[j + 1..];
  }

  lemma {:induction false} DistinctCountsOnce<T>(xs: seq<T>, idOf: T -> Id, x: T)
    requires DistinctBy(xs, idOf)
    ensures multiset(xs)[x] <= 1
  {
    if xs != [] {
      var last := |xs| - 1;
      DistinctCountsOnce(xs[..last], idOf, x);
      assert forall k | 0 <= k < last :: idOf(xs[..last][k]) != idOf(xs[last]);
      assert xs == xs[..last] + [xs[last]];
    }
  }

  lemma SameElements<T>(xs: seq<T>, ys: seq<T>)
    requires multiset(xs) == multiset(ys)
    ensures forall x :: x in xs <==> x in ys
  {
    assert forall x :: x in xs <==> x in multiset(xs);
    assert forall y :: y in ys <==> y in multiset(ys);
  }

  lemma DistinctSurvives<T>(xs: seq<T>, ys: seq<T>, idOf: T -> Id)
    requires multiset(xs) == multiset(ys) && DistinctBy(xs, idOf)
    requires forall x <- xs, y <- xs :: idOf(x) == idOf(y) ==> x == y
    ensures DistinctBy(ys, idOf)
  {
    SameElements(xs, ys);
    forall i, j | 0 <= i < j < |ys| ensures idOf(ys[i]) != idOf(ys[j]) {
      if ys[i] == ys[j] {
        DistinctCountsOnce(xs, idOf, ys[i]);
        TwiceCountsTwo(ys, i, j);
      }
    }
  }
}
