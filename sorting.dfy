/** `Array.prototype.sort(cmp)` as the dashboard uses it: a stable sort
    driven by a comparator that returns a negative number when its first
    argument must come first, a positive number when it must come last and
    0 when either order will do. `Sort` is the order such a sort produces
    (insertion sort, which is stable); `InsertionSort` computes it in place on
    an array, and `SortedCopy` is `[...s].sort(cmp)`. */
module Sorting {
  import opened Seqs

  /** What a sort needs of its comparator: the sign of `cmp(a, b)` is the
      opposite of that of `cmp(b, a)`, and "may come first" is transitive. */
  ghost predicate Consistent<T(!new)>(cmp: (T, T) -> int) {
    && (forall a, b :: cmp(a, b) < 0 <==> cmp(b, a) > 0)
    && (forall a, b, c :: Chain(cmp, a, b, c))
  }

  /** If `a` may come before `b` and `b` before `c`, then `a` before `c`. */
  ghost predicate Chain<T>(cmp: (T, T) -> int, a: T, b: T, c: T) {
    cmp(a, b) <= 0 && cmp(b, c) <= 0 ==> cmp(a, c) <= 0
  }

  lemma Trans<T(!new)>(cmp: (T, T) -> int, a: T, b: T, c: T)
    requires Consistent(cmp) && cmp(a, b) <= 0 && cmp(b, c) <= 0
    ensures cmp(a, c) <= 0
  {
    assert Chain(cmp, a, b, c);
  }

  /** No element has to come before one that precedes it. */
  predicate Sorted<T>(s: seq<T>, cmp: (T, T) -> int) {
    forall i, j :: 0 <= i < j < |s| ==> cmp(s[i], s[j]) <= 0
  }

  /** `x` placed after every element of `s` that may come first. */
  function Insert<T>(s: seq<T>, x: T, cmp: (T, T) -> int): (r: seq<T>)
    ensures |r| == |s| + 1
  {
    if s == [] || cmp(s[0], x) > 0 then [x] + s
    else
      assert s == [s[0]] + s[1..];
      [s[0]] + Insert(s[1..], x, cmp)
  }

  /** The order in which a stable sort with comparator `cmp` leaves `s`. */
  function Sort<T>(s: seq<T>, cmp: (T, T) -> int): (r: seq<T>)
    ensures |r| == |s|
  {
    if s == [] then []
    else
      assert s == s[..|s| - 1] + [s[|s| - 1]];
      Insert(Sort(s[..|s| - 1], cmp), s[|s| - 1], cmp)
  }

  /** Inserting adds `x` and keeps every other element. */
  lemma {:induction false} InsertPermutes<T>(s: seq<T>, x: T, cmp: (T, T) -> int)
    ensures multiset(Insert(s, x, cmp)) == multiset(s) + multiset{x}
  {
    if s != [] && cmp(s[0], x) <= 0 {
      InsertPermutes(s[1..], x, cmp);
      assert s == [s[0]] + s[1..];
    }
  }

  /** Sorting is a permutation: it keeps every element as often as it occurs. */
  lemma {:induction false} SortPermutes<T>(s: seq<T>, cmp: (T, T) -> int)
    ensures multiset(Sort(s, cmp)) == multiset(s)
  {
    if s != [] {
      var init := s[..|s| - 1];
      SortPermutes(init, cmp);
      InsertPermutes(Sort(init, cmp), s[|s| - 1], cmp);
      assert s == init + [s[|s| - 1]];
    }
  }

  /** `s.slice(0, n)` of the sorted copy: the first `n` in sorted order. */
  function TopN<T>(s: seq<T>, cmp: (T, T) -> int, n: nat): seq<T> {
    Take(Sort(s, cmp), n)
  }

  /** The elements of `s` that compare equal to `z`, in the order of `s`. */
  function Ties<T>(s: seq<T>, z: T, cmp: (T, T) -> int): (r: seq<T>)
    ensures forall y :: y in r ==> y in s && cmp(y, z) == 0
  {
    if s == [] then []
    else
      var last := s[|s| - 1];
      assert s == s[..|s| - 1] + [last];
      Ties(s[..|s| - 1], z, cmp) + (if cmp(last, z) == 0 then [last] else [])
  }

  lemma {:induction false} TiesAppend<T>(a: seq<T>, b: seq<T>, z: T, cmp: (T, T) -> int)
    ensures Ties(a + b, z, cmp) == Ties(a, z, cmp) + Ties(b, z, cmp)
    decreases |b|
  {
    if b == [] {
      assert a + b == a;
    } else {
      var n := |b| - 1;
      SplitLast(a, b);
      TiesSnoc(a + b[..n], b[n], z, cmp);
      TiesSnoc(b[..n], b[n], z, cmp);
      TiesAppend(a, b[..n], z, cmp);
    }
  }

  lemma SplitLast<T>(a: seq<T>, b: seq<T>)
    requires b != []
    ensures a + b == (a + b[..|b| - 1]) + [b[|b| - 1]]
    ensures b == b[..|b| - 1] + [b[|b| - 1]]
  {
  }

  lemma TiesSnoc<T>(s: seq<T>, x: T, z: T, cmp: (T, T) -> int)
    ensures Ties(s + [x], z, cmp) == Ties(s, z, cmp) + (if cmp(x, z) == 0 then [x] else [])
  {
    assert (s + [x])[..|s|] == s;
  }

  /** An element that ties with `z` is among the ties. */
  lemma {:induction false} TiesMember<T>(s: seq<T>, i: nat, z: T, cmp: (T, T) -> int)
    requires i < |s| && cmp(s[i], z) == 0
    ensures s[i] in Ties(s, z, cmp)
  {
    var n := |s| - 1;
    var init := s[..n];
    assert s == init + [s[n]];
    TiesSnoc(init, s[n], z, cmp);
    if i < n {
      assert init[i] == s[i];
      TiesMember(init, i, z, cmp);
    }
  }

  /** Two elements that tie with `z` keep their relative order among the ties. */
  lemma {:induction false} TiesInOrder<T>(s: seq<T>, i: nat, j: nat, z: T, cmp: (T, T) -> int)
    returns (p: nat, q: nat)
    requires i < j < |s| && cmp(s[i], z) == 0 && cmp(s[j], z) == 0
    ensures p < q < |Ties(s, z, cmp)|
    ensures Ties(s, z, cmp)[p] == s[i] && Ties(s, z, cmp)[q] == s[j]
  {
    var n := |s| - 1;
    var init := s[..n];
    assert s == init + [s[n]];
    TiesSnoc(init, s[n], z, cmp);
    assert init[i] == s[i];
    var u := Ties(init, z, cmp);
    if j < n {
      assert init[j] == s[j];
      p, q := TiesInOrder(init, i, j, z, cmp);
    } else {
      TiesMember(init, i, z, cmp);
      p :| 0 <= p < |u| && u[p] == s[i];
      q := |u|;
    }
  }

  /** Two positions among the ties come from positions of the list in the
      same order. */
  lemma {:induction false} TiesFrom<T>(s: seq<T>, p: nat, q: nat, z: T, cmp: (T, T) -> int)
    returns (a: nat, b: nat)
    requires p < q < |Ties(s, z, cmp)|
    ensures a < b < |s| && s[a] == Ties(s, z, cmp)[p] && s[b] == Ties(s, z, cmp)[q]
  {
    assert s != [];
    var n := |s| - 1;
    var init := s[..n];
    assert s == init + [s[n]];
    TiesSnoc(init, s[n], z, cmp);
    var u := Ties(init, z, cmp);
    if q < |u| {
      a, b := TiesFrom(init, p, q, z, cmp);
      assert s[a] == init[a] && s[b] == init[b];
    } else {
      assert u[p] in u;
      a :| 0 <= a < |init| && init[a] == u[p];
      b := n;
    }
  }

  lemma {:induction false} InsertSorted<T(!new)>(s: seq<T>, x: T, cmp: (T, T) -> int)
    requires Consistent(cmp) && Sorted(s, cmp)
    ensures Sorted(Insert(s, x, cmp), cmp)
  {
    if s != [] && cmp(s[0], x) > 0 {
      forall k | 0 <= k < |s| ensures cmp(x, s[k]) <= 0 {
        Trans(cmp, x, s[0], s[k]);
      }
    } else if s != [] {
      var t := Insert(s[1..], x, cmp);
      InsertSorted(s[1..], x, cmp);
      InsertPermutes(s[1..], x, cmp);
      forall y | y in t ensures cmp(s[0], y) <= 0 {
        assert y in multiset(t);
        if y != x {
          assert y in s[1..];
        }
      }
    }
  }

  /** A stable sort leaves its result sorted. */
  lemma {:induction false} SortSorted<T(!new)>(s: seq<T>, cmp: (T, T) -> int)
    requires Consistent(cmp)
    ensures Sorted(Sort(s, cmp), cmp)
  {
    if s != [] {
      SortSorted(s[..|s| - 1], cmp);
      InsertSorted(Sort(s[..|s| - 1], cmp), s[|s| - 1], cmp);
    }
  }

  lemma {:induction false} InsertTies<T(!new)>(s: seq<T>, x: T, z: T, cmp: (T, T) -> int)
    requires Consistent(cmp) && Sorted(s, cmp)
    ensures Ties(Insert(s, x, cmp), z, cmp) == Ties(s, z, cmp) + Ties([x], z, cmp)
  {
    if s == [] {
      assert Insert(s, x, cmp) == [x];
    } else if cmp(s[0], x) > 0 {
      InsertTiesFront(s, x, z, cmp);
    } else {
      var t := Insert(s[1..], x, cmp);
      SortedRest(s, cmp);
      calc {
        Ties(Insert(s, x, cmp), z, cmp);
        Ties([s[0]] + t, z, cmp);
        { TiesAppend([s[0]], t, z, cmp); }
        Ties([s[0]], z, cmp) + Ties(t, z, cmp);
        { InsertTies(s[1..], x, z, cmp); }
        Ties([s[0]], z, cmp) + (Ties(s[1..], z, cmp) + Ties([x], z, cmp));
        (Ties([s[0]], z, cmp) + Ties(s[1..], z, cmp)) + Ties([x], z, cmp);
        { TiesAppend([s[0]], s[1..], z, cmp); assert [s[0]] + s[1..] == s; }
        Ties(s, z, cmp) + Ties([x], z, cmp);
      }
    }
  }

  lemma InsertTiesFront<T(!new)>(s: seq<T>, x: T, z: T, cmp: (T, T) -> int)
    requires Consistent(cmp) && Sorted(s, cmp) && s != [] && cmp(s[0], x) > 0
    ensures Ties(Insert(s, x, cmp), z, cmp) == Ties(s, z, cmp) + Ties([x], z, cmp)
  {
      TiesAppend([x], s, z, cmp);
      if cmp(x, z) == 0 && Ties(s, z, cmp) != [] {
        var y := Ties(s, z, cmp)[0];
        assert y in s && cmp(y, z) == 0;
        assert cmp(s[0], y) <= 0;
        Trans(cmp, s[0], y, z);
        Trans(cmp, s[0], z, x);
        assert false;
      }
  }

  /** Stability: the elements that tie with any `z` keep their input order. */
  lemma {:induction false} SortStable<T(!new)>(s: seq<T>, z: T, cmp: (T, T) -> int)
    requires Consistent(cmp)
    ensures Ties(Sort(s, cmp), z, cmp) == Ties(s, z, cmp)
  {
    if s != [] {
      var p, x := s[..|s| - 1], s[|s| - 1];
      SortStable(p, z, cmp);
      SortSorted(p, cmp);
      InsertTies(Sort(p, cmp), x, z, cmp);
    }
  }

  lemma {:induction false} InsertKeepsDistinct<T(!new)>(s: seq<T>, x: T, cmp: (T, T) -> int)
    requires NoDuplicates(s) && x !in s
    ensures NoDuplicates(Insert(s, x, cmp))
  {
    if s != [] && cmp(s[0], x) <= 0 {
      InsertKeepsDistinct(s[1..], x, cmp);
      var t := Insert(s[1..], x, cmp);
      InsertPermutes(s[1..], x, cmp);
      assert s[0] !in multiset(t);
    }
  }

  /** Sorting distinct values leaves them distinct. */
  lemma {:induction false} SortKeepsDistinct<T(!new)>(s: seq<T>, cmp: (T, T) -> int)
    requires NoDuplicates(s)
    ensures NoDuplicates(Sort(s, cmp))
  {
    if s != [] {
      var p, x := s[..|s| - 1], s[|s| - 1];
      SortKeepsDistinct(p, cmp);
      SortPermutes(p, cmp);
      assert x !in multiset(Sort(p, cmp));
      InsertKeepsDistinct(Sort(p, cmp), x, cmp);
    }
  }

  /** The first `n` of a stable sort: as many as there are (up to `n`), in
      sorted order, drawn from `s`; the kept elements tying with any `z` are
      the first such elements of `s`, in order; and nothing left out has to
      come before the last one kept. */
  lemma TopNFacts<T(!new)>(s: seq<T>, cmp: (T, T) -> int, n: nat)
    requires Consistent(cmp)
    ensures |TopN(s, cmp, n)| == Min(n, |s|)
    ensures Sorted(TopN(s, cmp, n), cmp)
    ensures multiset(TopN(s, cmp, n)) <= multiset(s)
    ensures forall z :: Ties(TopN(s, cmp, n), z, cmp) <= Ties(s, z, cmp)
    ensures 0 < n ==> forall e :: e in multiset(s) - multiset(TopN(s, cmp, n)) ==>
      TopN(s, cmp, n) != [] && cmp(TopN(s, cmp, n)[|TopN(s, cmp, n)| - 1], e) <= 0
  {
    var sorted, r := Sort(s, cmp), TopN(s, cmp, n);
    var rest := sorted[|r|..];
    assert sorted == r + rest;
    SortSorted(s, cmp);
    SortPermutes(s, cmp);
    forall i, j | 0 <= i < j < |r| ensures cmp(r[i], r[j]) <= 0 {
      assert r[i] == sorted[i] && r[j] == sorted[j];
    }
    TopNStable(s, cmp, n, r, rest);
    if 0 < n {
      TopNLeftOut(s, cmp, r, rest);
    }
  }

  lemma TopNStable<T(!new)>(s: seq<T>, cmp: (T, T) -> int, n: nat, r: seq<T>, rest: seq<T>)
    requires Consistent(cmp) && r == TopN(s, cmp, n) && Sort(s, cmp) == r + rest
    ensures forall z :: Ties(r, z, cmp) <= Ties(s, z, cmp)
  {
    forall z ensures Ties(r, z, cmp) <= Ties(s, z, cmp) {
      SortStable(s, z, cmp);
      TiesAppend(r, rest, z, cmp);
    }
  }

  lemma TopNLeftOut<T(!new)>(s: seq<T>, cmp: (T, T) -> int, r: seq<T>, rest: seq<T>)
    requires Sorted(r + rest, cmp) && multiset(r + rest) == multiset(s)
    requires rest != [] ==> r != []
    ensures multiset(r) <= multiset(s)
    ensures forall e :: e in multiset(s) - multiset(r) ==> r != [] && cmp(r[|r| - 1], e) <= 0
  {
    assert multiset(s) == multiset(r) + multiset(rest);
    forall e | e in multiset(s) - multiset(r)
      ensures r != [] && cmp(r[|r| - 1], e) <= 0
    {
      assert e in multiset(rest);
      var k :| 0 <= k < |rest| && rest[k] == e;
      assert (r + rest)[|r| + k] == e;
      assert (r + rest)[|r| - 1] == r[|r| - 1];
    }
  }

  /** Where the in-place insertion stops, the functional insertion puts `x` too. */
  lemma {:induction false} InsertAt<T(!new)>(s: seq<T>, x: T, j: nat, cmp: (T, T) -> int)
    requires Consistent(cmp) && Sorted(s, cmp) && j <= |s|
    requires forall k :: j <= k < |s| ==> cmp(s[k], x) > 0
    requires j == 0 || cmp(s[j - 1], x) <= 0
    ensures Insert(s, x, cmp) == s[..j] + [x] + s[j..]
  {
    if j == 0 {
      if s != [] {
        assert cmp(s[0], x) > 0;
      }
      assert s[..0] + [x] + s[0..] == [x] + s;
    } else {
      var t := s[1..];
      assert cmp(s[0], x) <= 0 by {
        if j > 1 {
          assert cmp(s[0], s[j - 1]) <= 0;
          Trans(cmp, s[0], s[j - 1], x);
        }
      }
      SortedRest(s, cmp);
      RestAfter(s, x, j, cmp);
      InsertAt(t, x, j - 1, cmp);
      SpliceCons(s, x, j);
    }
  }

  /** Dropping the first element of a sorted sequence leaves it sorted. */
  lemma SortedRest<T>(s: seq<T>, cmp: (T, T) -> int)
    requires s != [] && Sorted(s, cmp)
    ensures Sorted(s[1..], cmp)
  {
    forall i, k | 0 <= i < k < |s| - 1 ensures cmp(s[1..][i], s[1..][k]) <= 0 {
      assert s[1..][i] == s[i + 1] && s[1..][k] == s[k + 1];
    }
  }

  /** The insertion conditions of `InsertAt`, one place further along. */
  lemma RestAfter<T>(s: seq<T>, x: T, j: nat, cmp: (T, T) -> int)
    requires 0 < j <= |s|
    requires forall k :: j <= k < |s| ==> cmp(s[k], x) > 0
    requires j == 1 || cmp(s[j - 1], x) <= 0
    ensures forall k :: j - 1 <= k < |s[1..]| ==> cmp(s[1..][k], x) > 0
    ensures j - 1 == 0 || cmp(s[1..][j - 2], x) <= 0
  {
    forall k | j - 1 <= k < |s[1..]| ensures cmp(s[1..][k], x) > 0 {
      assert s[1..][k] == s[k + 1];
    }
  }

  /** Putting the head back in front of a splice into the tail. */
  lemma SpliceCons<T>(s: seq<T>, x: T, j: nat)
    requires 0 < j <= |s|
    ensures [s[0]] + (s[1..][..j - 1] + [x] + s[1..][j - 1..]) == s[..j] + [x] + s[j..]
  {
    assert s[..j] == [s[0]] + s[1..][..j - 1];
    assert s[j..] == s[1..][j - 1..];
  }

  /** The in-place insertion sort: each element in turn is moved left past
      the sorted elements that must come after it. */
  method InsertionSort<T(!new)>(a: array<T>, cmp: (T, T) -> int)
    requires Consistent(cmp)
    modifies a
    ensures a[..] == Sort(old(a[..]), cmp)
  {
    ghost var s := a[..];
    var i := 0;
    while i < a.Length
      invariant 0 <= i <= a.Length
      invariant a[..i] == Sort(s[..i], cmp)
      invariant forall k :: i <= k < a.Length ==> a[k] == s[k]
    {
      SortSorted(s[..i], cmp);
      InsertLast(a, i, cmp);
      SortSnoc(s, i, cmp);
      i := i + 1;
    }
    assert a[..] == a[..a.Length] && s == s[..a.Length];
  }

  lemma SortSnoc<T>(s: seq<T>, i: nat, cmp: (T, T) -> int)
    requires i < |s|
    ensures Sort(s[..i + 1], cmp) == Insert(Sort(s[..i], cmp), s[i], cmp)
  {
    assert s[..i + 1][..i] == s[..i];
  }

  /** Inserts `a[i]` into the sorted prefix `a[..i]`, shifting right the
      elements that must come after it. */
  method InsertLast<T(!new)>(a: array<T>, i: nat, cmp: (T, T) -> int)
    requires Consistent(cmp) && i < a.Length && Sorted(a[..i], cmp)
    modifies a
    ensures a[..i + 1] == Insert(old(a[..i]), old(a[i]), cmp)
    ensures forall k :: i < k < a.Length ==> a[k] == old(a[k])
  {
    ghost var sorted := a[..i];
    var x := a[i];
    var j := ShiftRight(a, i, x, cmp, sorted);
    a[j] := x;
    InsertAt(sorted, x, j, cmp);
    Spliced(a[..i + 1], sorted, x, j);
  }

  /** Moves one place right each element of the sorted prefix `a[..i]`, from
      the end, that must come after `x`, and returns the slot left free. */
  method ShiftRight<T>(a: array<T>, i: nat, x: T, cmp: (T, T) -> int, ghost sorted: seq<T>) returns (j: nat)
    requires i < a.Length && sorted == a[..i]
    modifies a
    ensures j <= i
    ensures forall k :: 0 <= k < j ==> a[k] == sorted[k]
    ensures forall k :: j < k <= i ==> a[k] == sorted[k - 1]
    ensures forall k :: i < k < a.Length ==> a[k] == old(a[k])
    ensures forall k :: j <= k < i ==> cmp(sorted[k], x) > 0
    ensures j == 0 || cmp(sorted[j - 1], x) <= 0
  {
    j := i;
    while j > 0 && cmp(a[j - 1], x) > 0
      invariant 0 <= j <= i
      invariant forall k :: 0 <= k < j ==> a[k] == sorted[k]
      invariant forall k :: j < k <= i ==> a[k] == sorted[k - 1]
      invariant forall k :: i < k < a.Length ==> a[k] == old(a[k])
      invariant forall k :: j <= k < i ==> cmp(sorted[k], x) > 0
    {
      a[j] := a[j - 1];
      j := j - 1;
    }
  }

  /** A sequence that agrees with `sorted` before `j`, holds `x` at `j` and
      agrees with `sorted` shifted by one after `j` is `sorted` with `x` spliced in. */
  lemma Spliced<T>(t: seq<T>, sorted: seq<T>, x: T, j: nat)
    requires j <= |sorted| && |t| == |sorted| + 1
    requires forall k :: 0 <= k < j ==> t[k] == sorted[k]
    requires t[j] == x
    requires forall k :: j < k < |t| ==> t[k] == sorted[k - 1]
    ensures t == sorted[..j] + [x] + sorted[j..]
  {
  }

  /** `[...s].sort(cmp)`: sorts a fresh copy, leaving `s` as it was. */
  method SortedCopy<T(!new)>(s: seq<T>, cmp: (T, T) -> int) returns (r: seq<T>)
    requires Consistent(cmp)
    ensures r == Sort(s, cmp)
  {
    var a := new T[|s|](i requires 0 <= i < |s| => s[i]);
    assert a[..] == s;
    InsertionSort(a, cmp);
    r := a[..];
  }
}
