/** Small generic helpers shared by the whole model: an optional value, the
    order-preserving filter (`Array.prototype.filter`), the first-match search
    (`Array.prototype.find`), subsequences, and index permutations that stand
    in for the outcome of a shuffle. */
module Util {

  /** `undefined`/`null` versus a present value. */
  datatype Option<+T> = None | Some(value: T)

  /** `xs` can be obtained from `ys` by deleting elements, keeping the order. */
  predicate IsSubsequence<T(==)>(xs: seq<T>, ys: seq<T>)
    decreases |ys|
  {
    if |xs| == 0 then true
    else if |ys| == 0 then false
    else (xs[0] == ys[0] && IsSubsequence(xs[1..], ys[1..])) || IsSubsequence(xs, ys[1..])
  }

  /** No element occurs twice. */
  predicate Distinct<T(==)>(xs: seq<T>) {
    forall i, j :: 0 <= i < j < |xs| ==> xs[i] != xs[j]
  }

  /** `order` lists every index below `n` exactly once: the order in which a
      shuffle leaves the `n` elements of an array. */
  predicate IsPermutation(order: seq<nat>, n: nat) {
    && |order| == n
    && (forall i :: 0 <= i < n ==> order[i] < n)
    && Distinct(order)
  }

  /** The elements of `xs` that satisfy `p`, in their original order. */
  function Filter<T(==)>(xs: seq<T>, p: T -> bool): (r: seq<T>)
    ensures |r| <= |xs|
    ensures forall i :: 0 <= i < |r| ==> r[i] in xs && p(r[i])
    ensures forall i :: 0 <= i < |xs| && p(xs[i]) ==> xs[i] in r
    ensures IsSubsequence(r, xs)
  {
    if |xs| == 0 then []
    else if p(xs[0]) then [xs[0]] + Filter(xs[1..], p)
    else Filter(xs[1..], p)
  }

  /** `Filter` keeps every occurrence of a satisfying element and none of
      the others, so duplicates survive as often as they occur. */
  lemma {:induction false} FilterCounts<T>(xs: seq<T>, p: T -> bool, x: T)
    ensures multiset(Filter(xs, p))[x] == if p(x) then multiset(xs)[x] else 0
  {
    if |xs| != 0 {
      var rest := Filter(xs[1..], p);
      FilterCounts(xs[1..], p, x);
      assert xs == [xs[0]] + xs[1..];
      assert multiset(xs) == multiset{xs[0]} + multiset(xs[1..]);
      if p(xs[0]) {
        assert multiset(Filter(xs, p)) == multiset{xs[0]} + multiset(rest);
      } else {
        assert Filter(xs, p) == rest;
      }
    }
  }

  /** The first element of `xs` that satisfies `p`, if any. */
  function Find<T>(xs: seq<T>, p: T -> bool): (r: Option<T>)
    ensures r.None? <==> forall i :: 0 <= i < |xs| ==> !p(xs[i])
    ensures r.Some? ==> exists i :: 0 <= i < |xs| && xs[i] == r.value && p(xs[i])
                                    && forall j :: 0 <= j < i ==> !p(xs[j])
  {
    if |xs| == 0 then None
    else if p(xs[0]) then Some(xs[0])
    else
      var r := Find(xs[1..], p);
      assert forall i :: 1 <= i < |xs| ==> xs[1..][i - 1] == xs[i];
      r
  }

  lemma {:induction false} SubsequenceOfCons<T>(xs: seq<T>, y: T, ys: seq<T>)
    requires IsSubsequence(xs, ys)
    ensures IsSubsequence(xs, [y] + ys)
  {
    if |xs| != 0 {
      assert ([y] + ys)[1..] == ys;
    }
  }

  /** Filtering a list whose elements all satisfy `p` changes nothing. */
  lemma {:induction false} FilterKeepsAll<T>(xs: seq<T>, p: T -> bool)
    requires forall i :: 0 <= i < |xs| ==> p(xs[i])
    ensures Filter(xs, p) == xs
  {
    if |xs| != 0 {
      assert forall i :: 0 <= i < |xs| - 1 ==> xs[1..][i] == xs[i + 1];
      FilterKeepsAll(xs[1..], p);
      assert [xs[0]] + xs[1..] == xs;
    }
  }

  /** A stronger criterion keeps a subsequence of what a weaker one keeps. */
  lemma {:induction false} FilterMonotone<T>(xs: seq<T>, p: T -> bool, q: T -> bool)
    requires forall i :: 0 <= i < |xs| && p(xs[i]) ==> q(xs[i])
    ensures IsSubsequence(Filter(xs, p), Filter(xs, q))
  {
    if |xs| != 0 {
      assert forall i :: 0 <= i < |xs| - 1 ==> xs[1..][i] == xs[i + 1];
      FilterMonotone(xs[1..], p, q);
      var a, b := Filter(xs[1..], p), Filter(xs[1..], q);
      if p(xs[0]) {
        assert ([xs[0]] + a)[1..] == a && ([xs[0]] + b)[1..] == b;
      } else if q(xs[0]) {
        SubsequenceOfCons(a, xs[0], b);
      }
    }
  }

  /** Two criteria that agree on every element keep the same elements. */
  lemma {:induction false} FilterExtensional<T>(xs: seq<T>, p: T -> bool, q: T -> bool)
    requires forall i :: 0 <= i < |xs| ==> p(xs[i]) == q(xs[i])
    ensures Filter(xs, p) == Filter(xs, q)
  {
    if |xs| != 0 {
      assert forall i :: 0 <= i < |xs| - 1 ==> xs[1..][i] == xs[i + 1];
      FilterExtensional(xs[1..], p, q);
    }
  }

  /** Filtering twice with the same criterion is the same as filtering once. */
  lemma {:induction false} FilterIdempotent<T>(xs: seq<T>, p: T -> bool)
    ensures Filter(Filter(xs, p), p) == Filter(xs, p)
  {
    if |xs| != 0 {
      FilterIdempotent(xs[1..], p);
      if p(xs[0]) {
        var r := [xs[0]] + Filter(xs[1..], p);
        assert r[0] == xs[0] && r[1..] == Filter(xs[1..], p);
      }
    }
  }

  /** Appending one element extends the filtered list by that element exactly
      when it satisfies the criterion. */
  lemma {:induction false} FilterAppend<T>(xs: seq<T>, x: T, p: T -> bool)
    ensures Filter(xs + [x], p) == Filter(xs, p) + (if p(x) then [x] else [])
  {
    if |xs| == 0 {
      assert xs + [x] == [x];
      assert [x][1..] == [];
    } else {
      assert (xs + [x])[0] == xs[0] && (xs + [x])[1..] == xs[1..] + [x];
      FilterAppend(xs[1..], x, p);
    }
  }

  /** Appending after a match does not change which element is found first. */
  lemma {:induction false} FindAppend<T>(xs: seq<T>, x: T, p: T -> bool)
    requires Find(xs, p).Some?
    ensures Find(xs + [x], p) == Find(xs, p)
  {
    assert (xs + [x])[0] == xs[0];
    if !p(xs[0]) {
      assert (xs + [x])[1..] == xs[1..] + [x];
      FindAppend(xs[1..], x, p);
    }
  }
}
