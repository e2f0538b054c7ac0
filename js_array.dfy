/** The JavaScript array operations the components rely on, over sequences. */
module JsArray {
  import opened Options

  /** `xs` is obtained from `ys` by deleting elements, keeping the order of the rest. */
  predicate IsSubsequence<T(==)>(xs: seq<T>, ys: seq<T>)
    decreases |ys|
  {
    || xs == []
    || (ys != [] && ((xs[0] == ys[0] && IsSubsequence(xs[1..], ys[1..])) || IsSubsequence(xs, ys[1..])))
  }

  /** `xs.filter(p)`: the elements of `xs` that satisfy `p`, every occurrence
      of them and nothing else, in their original order. */
  function Filter<T(==, !new)>(xs: seq<T>, p: T -> bool): (r: seq<T>)
    ensures |r| <= |xs|
    ensures IsSubsequence(r, xs)
    ensures forall i :: 0 <= i < |r| ==> p(r[i])
    ensures forall x :: multiset(r)[x] == if p(x) then multiset(xs)[x] else 0
  {
    if xs == [] then []
    else
      assert xs == [xs[0]] + xs[1..];
      var rest := Filter(xs[1..], p);
      if p(xs[0]) then
        assert ([xs[0]] + rest)[1..] == rest;
        [xs[0]] + rest
      else
        rest
  }

  /** An element is kept by `Filter` exactly when it is in the input and satisfies `p`. */
  lemma FilterMembership<T(!new)>(xs: seq<T>, p: T -> bool, x: T)
    ensures x in Filter(xs, p) <==> x in xs && p(x)
  {
    var r := Filter(xs, p);
    assert x in r <==> multiset(r)[x] > 0;
    assert x in xs <==> multiset(xs)[x] > 0;
  }

  /** When every element satisfies `p`, `Filter` keeps the whole sequence. */
  lemma {:induction false} FilterKeepsAll<T(!new)>(xs: seq<T>, p: T -> bool)
    requires forall i :: 0 <= i < |xs| ==> p(xs[i])
    ensures Filter(xs, p) == xs
  {
    if xs != [] {
      assert p(xs[0]);
      FilterKeepsAll(xs[1..], p);
      assert [xs[0]] + xs[1..] == xs;
    }
  }

  /** Two predicates that agree on the elements of `xs` filter it alike. */
  lemma {:induction false} FilterCongruent<T(!new)>(xs: seq<T>, p: T -> bool, q: T -> bool)
    requires forall i :: 0 <= i < |xs| ==> p(xs[i]) == q(xs[i])
    ensures Filter(xs, p) == Filter(xs, q)
  {
    if xs != [] {
      assert p(xs[0]) == q(xs[0]);
      FilterCongruent(xs[1..], p, q);
    }
  }

  /** `xs.findIndex(p)`, with `None` standing for -1: the index of the first
      element that satisfies `p`. */
  function FindIndex<T>(xs: seq<T>, p: T -> bool): (r: Option<nat>)
    ensures r.Some? ==> r.value < |xs| && p(xs[r.value])
    ensures r.Some? ==> forall j :: 0 <= j < r.value ==> !p(xs[j])
    ensures r.None? ==> forall j :: 0 <= j < |xs| ==> !p(xs[j])
  {
    if xs == [] then None
    else if p(xs[0]) then Some(0)
    else
      match FindIndex(xs[1..], p)
      case None => None
      case Some(k) => Some(k + 1)
  }

  /** `xs.find(p)`, with `None` standing for `undefined`: the first element
      that satisfies `p`. */
  function Find<T>(xs: seq<T>, p: T -> bool): (r: Option<T>)
    ensures r.None? <==> forall j :: 0 <= j < |xs| ==> !p(xs[j])
    ensures forall j :: 0 <= j < |xs| && p(xs[j]) && (forall i :: 0 <= i < j ==> !p(xs[i])) ==> r == Some(xs[j])
  {
    match FindIndex(xs, p)
    case None => None
    case Some(k) => Some(xs[k])
  }

  /** The number of elements of `xs` whose key is `k`. */
  function CountBy<T, K(==)>(xs: seq<T>, key: T -> K, k: K): (n: nat)
    ensures n <= |xs|
  {
    if xs == [] then 0 else (if key(xs[0]) == k then 1 else 0) + CountBy(xs[1..], key, k)
  }

  /** `xs.filter(p).length` is `CountBy(xs, key, k)` when `p` holds of
      exactly the elements whose key is `k`. */
  lemma {:induction false} CountByIsFilterLength<T(!new), K>(xs: seq<T>, key: T -> K, k: K, p: T -> bool)
    requires forall i :: 0 <= i < |xs| ==> p(xs[i]) == (key(xs[i]) == k)
    ensures |Filter(xs, p)| == CountBy(xs, key, k)
  {
    if xs != [] {
      assert p(xs[0]) == (key(xs[0]) == k);
      CountByIsFilterLength(xs[1..], key, k, p);
    }
  }

  /** Counting by key, one element at a time. */
  lemma CountByCons<T, K>(xs: seq<T>, key: T -> K, k: K)
    requires xs != []
    ensures CountBy(xs, key, k) == (if key(xs[0]) == k then 1 else 0) + CountBy(xs[1..], key, k)
  {
  }

  /** Replacing one element changes each count by at most the two elements
      involved: the old one leaves its count and the new one joins its own. */
  lemma {:induction false} CountByUpdate<T, K>(xs: seq<T>, i: nat, y: T, key: T -> K, k: K)
    requires i < |xs|
    ensures CountBy(xs[i := y], key, k) + (if key(xs[i]) == k then 1 else 0)
         == CountBy(xs, key, k) + (if key(y) == k then 1 else 0)
  {
    var ys := xs[i := y];
    CountByCons(xs, key, k);
    CountByCons(ys, key, k);
    if i > 0 {
      assert ys[1..] == xs[1..][i - 1 := y];
      CountByUpdate(xs[1..], i - 1, y, key, k);
    } else {
      assert ys[1..] == xs[1..];
    }
  }
}
