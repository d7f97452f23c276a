/** Sequence vocabulary shared by the dashboard's views: occurrence counts,
    the first-seen distinct values that a JavaScript `Set` or the key order
    of a plain object yields, flattening (`flatMap`), `slice(0, n)` and
    order-preserving subsequences (what `Array.prototype.filter` returns). */
module Seqs {

  function Min(a: int, b: int): int { if a <= b then a else b }

  /** `s.slice(0, n)` */
  function Take<T>(s: seq<T>, n: nat): (r: seq<T>)
    ensures |r| == Min(n, |s|)
    ensures r == s[..|r|]
  {
    s[..Min(n, |s|)]
  }

  lemma TakeAll<T>(s: seq<T>)
    ensures s[..|s|] == s
  {
  }

  /** `a` followed by the first `i + 1` elements of `xs`, one element at a time. */
  lemma AppendNext<T>(a: seq<T>, xs: seq<T>, i: nat)
    requires i < |xs|
    ensures (a + xs[..i]) + [xs[i]] == a + xs[..i + 1]
  {
    assert xs[..i + 1] == xs[..i] + [xs[i]];
  }

  /** `a` followed by none, then all, of `xs`. */
  lemma AppendEnds<T>(a: seq<T>, xs: seq<T>)
    ensures a + xs[..0] == a && a + xs[..|xs|] == a + xs
  {
    assert xs[..0] == [] && xs[..|xs|] == xs;
  }

  /** Number of occurrences of `x` in `xs`. */
  function Count<T(==)>(xs: seq<T>, x: T): (n: nat)
    ensures n <= |xs|
    ensures n == 0 <==> x !in xs
  {
    if xs == [] then 0
    else
      assert xs == xs[..|xs| - 1] + [xs[|xs| - 1]];
      Count(xs[..|xs| - 1], x) + (if xs[|xs| - 1] == x then 1 else 0)
  }

  lemma {:induction false} CountAppend<T>(xs: seq<T>, ys: seq<T>, x: T)
    ensures Count(xs + ys, x) == Count(xs, x) + Count(ys, x)
    decreases |ys|
  {
    if ys == [] {
      assert xs + ys == xs;
    } else {
      var n := |ys| - 1;
      assert (xs + ys)[..|xs + ys| - 1] == xs + ys[..n];
      CountAppend(xs, ys[..n], x);
    }
  }

  lemma CountCons<T>(x: T, xs: seq<T>, y: T)
    ensures Count([x] + xs, y) == (if x == y then 1 else 0) + Count(xs, y)
  {
    CountAppend([x], xs, y);
    assert [x][..0] == [];
  }

  predicate NoDuplicates<T(==)>(s: seq<T>) {
    forall i, j :: 0 <= i < j < |s| ==> s[i] != s[j]
  }

  lemma NoDuplicatesCons<T>(x: T, s: seq<T>)
    requires x !in s && NoDuplicates(s)
    ensures NoDuplicates([x] + s)
  {
    forall i, j | 0 <= i < j < |[x] + s| ensures ([x] + s)[i] != ([x] + s)[j] {
      if i > 0 {
        assert ([x] + s)[i] == s[i - 1];
      }
      assert ([x] + s)[j] == s[j - 1];
    }
  }

  /** The distinct values of `xs`, each at the place where it first occurs:
      the iteration order of `new Set(xs)` and the key order of an object
      whose properties were created while scanning `xs`. */
  function Distinct<T(==,!new)>(xs: seq<T>): (d: seq<T>)
    ensures forall x :: x in d <==> x in xs
    ensures NoDuplicates(d)
    ensures |d| <= |xs|
  {
    if xs == [] then []
    else
      var p, x := Distinct(xs[..|xs| - 1]), xs[|xs| - 1];
      assert xs == xs[..|xs| - 1] + [x];
      if x in p then p else p + [x]
  }

  /** Index of the first occurrence of `x` in `xs`. */
  function FirstIndex<T(==)>(xs: seq<T>, x: T): (i: nat)
    requires x in xs
    ensures i < |xs| && xs[i] == x && x !in xs[..i]
  {
    if xs[0] == x then 0 else 1 + FirstIndex(xs[1..], x)
  }

  lemma {:induction false} FirstIndexPrefix<T>(xs: seq<T>, n: nat, x: T)
    requires n <= |xs| && x in xs[..n]
    ensures FirstIndex(xs, x) == FirstIndex(xs[..n], x)
  {
    if xs[0] != x {
      assert xs[..n][1..] == xs[1..][..n - 1];
      FirstIndexPrefix(xs[1..], n - 1, x);
    }
  }

  /** `Distinct` lists the values in the order of their first occurrence. */
  lemma {:induction false} DistinctFirstSeenOrder<T(!new)>(xs: seq<T>)
    ensures forall i, j :: 0 <= i < j < |Distinct(xs)| ==>
      FirstIndex(xs, Distinct(xs)[i]) < FirstIndex(xs, Distinct(xs)[j])
  {
    if xs != [] {
      var n := |xs| - 1;
      var p, x := Distinct(xs[..n]), xs[n];
      DistinctFirstSeenOrder(xs[..n]);
      forall y | y in p
        ensures FirstIndex(xs, y) == FirstIndex(xs[..n], y) < n
      {
        FirstIndexPrefix(xs, n, y);
      }
      if x in p {
        assert Distinct(xs) == p;
      } else {
        assert Distinct(xs) == p + [x];
        assert x !in xs[..n];
        assert FirstIndex(xs, x) == n;
      }
    }
  }

  /** `lists.flat()`: the lists one after the other. */
  function Flatten<T>(lists: seq<seq<T>>): (r: seq<T>)
  {
    if lists == [] then [] else Flatten(lists[..|lists| - 1]) + lists[|lists| - 1]
  }

  /** Flattening one more list appends it. */
  lemma FlattenNext<T>(lists: seq<seq<T>>, i: nat)
    requires i < |lists|
    ensures Flatten(lists[..i + 1]) == Flatten(lists[..i]) + lists[i]
  {
    assert lists[..i + 1][..i] == lists[..i];
  }

  /** Flattening none, then all, of the lists. */
  lemma FlattenEnds<T>(lists: seq<seq<T>>)
    ensures Flatten(lists[..0]) == [] && Flatten(lists[..|lists|]) == Flatten(lists)
  {
    assert lists[..0] == [] && lists[..|lists|] == lists;
  }

  lemma {:induction false} CountFlatten<T>(lists: seq<seq<T>>, x: T)
    ensures Count(Flatten(lists), x) == CountInLists(lists, x)
  {
    if lists != [] {
      var n := |lists| - 1;
      CountFlatten(lists[..n], x);
      CountAppend(Flatten(lists[..n]), lists[n], x);
    }
  }

  /** A value is in the flattened list exactly when one of the lists holds it. */
  lemma {:induction false} FlattenMember<T>(lists: seq<seq<T>>, x: T)
    ensures x in Flatten(lists) <==> exists i :: 0 <= i < |lists| && x in lists[i]
  {
    if lists != [] {
      var n := |lists| - 1;
      FlattenMember(lists[..n], x);
      assert forall i :: 0 <= i < n ==> lists[..n][i] == lists[i];
    }
  }

  function CountInLists<T(==)>(lists: seq<seq<T>>, x: T): nat {
    if lists == [] then 0 else CountInLists(lists[..|lists| - 1], x) + Count(lists[|lists| - 1], x)
  }

  function Sum(s: seq<int>): int {
    if s == [] then 0 else s[0] + Sum(s[1..])
  }

  lemma {:induction false} SumSnoc(s: seq<int>, x: int)
    ensures Sum(s + [x]) == Sum(s) + x
  {
    if s == [] {
      assert s + [x] == [x];
    } else {
      assert (s + [x])[1..] == s[1..] + [x];
      SumSnoc(s[1..], x);
    }
  }

  /** `a` is obtained from `b` by deleting elements: order is preserved. */
  predicate SubsequenceOf<T(==)>(a: seq<T>, b: seq<T>)
    decreases |b|
  {
    if a == [] then true
    else if b == [] then false
    else (a[0] == b[0] && SubsequenceOf(a[1..], b[1..])) || SubsequenceOf(a, b[1..])
  }
}
