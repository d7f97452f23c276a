/** Counting with a plain object: `acc[x] = (acc[x] || 0) + 1` over a list
    of values, then `Object.entries(acc)`. The object keeps its keys in the
    order they were first created, so the entries come out in first-seen
    order; `Tally` is the specification of that result and `Counter` the
    object being updated. */
module Counting {
  import opened Seqs
  import opened Sorting

  /** One `[key, count]` pair of `Object.entries`. */
  datatype Entry<K> = Entry(key: K, count: nat)

  function EntriesFor<K(==)>(keys: seq<K>, xs: seq<K>): seq<Entry<K>> {
    seq(|keys|, i requires 0 <= i < |keys| => Entry(keys[i], Count(xs, keys[i])))
  }

  /** The entries of a counter fed `xs`: each distinct value once, where it
      first occurs, with its number of occurrences. */
  function Tally<K(==,!new)>(xs: seq<K>): seq<Entry<K>> {
    EntriesFor(Distinct(xs), xs)
  }

  function Keys<K>(t: seq<Entry<K>>): (ks: seq<K>)
    ensures |ks| == |t| && forall i :: 0 <= i < |t| ==> ks[i] == t[i].key
  {
    seq(|t|, i requires 0 <= i < |t| => t[i].key)
  }

  function SumCounts<K>(t: seq<Entry<K>>): nat {
    if t == [] then 0 else t[0].count + SumCounts(t[1..])
  }

  lemma {:induction false} SumCountsAppend<K>(a: seq<Entry<K>>, b: seq<Entry<K>>)
    ensures SumCounts(a + b) == SumCounts(a) + SumCounts(b)
  {
    if a == [] {
      assert a + b == b;
    } else {
      assert (a + b)[1..] == a[1..] + b;
      SumCountsAppend(a[1..], b);
    }
  }

  lemma {:induction false} SumCountsPrefix<K>(t: seq<Entry<K>>, n: nat)
    requires n <= |t|
    ensures SumCounts(t[..n]) <= SumCounts(t)
  {
    assert t == t[..n] + t[n..];
    SumCountsAppend(t[..n], t[n..]);
  }

  lemma {:induction false} SumCountsInsert<K>(s: seq<Entry<K>>, x: Entry<K>, cmp: (Entry<K>, Entry<K>) -> int)
    ensures SumCounts(Insert(s, x, cmp)) == SumCounts(s) + x.count
  {
    if s != [] && cmp(s[0], x) <= 0 {
      assert Insert(s, x, cmp)[1..] == Insert(s[1..], x, cmp);
      SumCountsInsert(s[1..], x, cmp);
    }
  }

  /** Sorting the entries does not change their total. */
  lemma {:induction false} SumCountsSort<K>(s: seq<Entry<K>>, cmp: (Entry<K>, Entry<K>) -> int)
    ensures SumCounts(Sort(s, cmp)) == SumCounts(s)
  {
    if s != [] {
      var n := |s| - 1;
      SumCountsSort(s[..n], cmp);
      SumCountsInsert(Sort(s[..n], cmp), s[n], cmp);
      assert s == s[..n] + [s[n]];
      SumCountsAppend(s[..n], [s[n]]);
    }
  }

  /** Step of `TallySum`: one more value adds one to the total of any
      duplicate-free key list that contains it. */
  lemma {:induction false} SumEntriesSnoc<K>(keys: seq<K>, xs: seq<K>, x: K)
    requires NoDuplicates(keys)
    ensures SumCounts(EntriesFor(keys, xs + [x])) ==
            SumCounts(EntriesFor(keys, xs)) + (if x in keys then 1 else 0)
  {
    if keys != [] {
      CountAppend(xs, [x], keys[0]);
      assert Count([x], keys[0]) == if x == keys[0] then 1 else 0 by {
        assert [x][..0] == [];
      }
      assert EntriesFor(keys, xs + [x])[1..] == EntriesFor(keys[1..], xs + [x]);
      assert EntriesFor(keys, xs)[1..] == EntriesFor(keys[1..], xs);
      SumEntriesSnoc(keys[1..], xs, x);
      assert x in keys <==> x == keys[0] || x in keys[1..] by {
        assert keys == [keys[0]] + keys[1..];
      }
    }
  }

  /** Every value is counted exactly once: the counts add up to `|xs|`. */
  lemma {:induction false} TallySum<K(!new)>(xs: seq<K>)
    ensures SumCounts(Tally(xs)) == |xs|
  {
    if xs != [] {
      var n := |xs| - 1;
      var d, x := Distinct(xs[..n]), xs[n];
      assert xs == xs[..n] + [x];
      TallySum(xs[..n]);
      SumEntriesSnoc(d, xs[..n], x);
      if x !in d {
        assert EntriesFor(d + [x], xs) == EntriesFor(d, xs) + [Entry(x, Count(xs, x))];
        SumCountsAppend(EntriesFor(d, xs), [Entry(x, Count(xs, x))]);
        assert Count(xs, x) == 1 by {
          assert x !in xs[..n];
        }
      }
    }
  }

  /** What `Object.entries` of the counter yields: every value of `xs`
      exactly once, in the order of first occurrence, each with its number
      of occurrences, and the counts add up to `|xs|`. */
  lemma TallyFacts<K(!new)>(xs: seq<K>)
    ensures NoDuplicates(Keys(Tally(xs)))
    ensures forall k :: k in Keys(Tally(xs)) <==> k in xs
    ensures forall e :: e in Tally(xs) ==> e.count == Count(xs, e.key) >= 1
    ensures forall i, j :: 0 <= i < j < |Tally(xs)| ==>
      FirstIndex(xs, Tally(xs)[i].key) < FirstIndex(xs, Tally(xs)[j].key)
    ensures SumCounts(Tally(xs)) == |xs|
  {
    assert Keys(Tally(xs)) == Distinct(xs);
    DistinctFirstSeenOrder(xs);
    TallySum(xs);
  }

  /** `keys` and `counts` hold the tally of `seen`: the keys are its
      distinct values in first-seen order and each count is a number of
      occurrences. */
  ghost predicate Tracking<K(!new)>(keys: seq<K>, counts: map<K, nat>, seen: seq<K>) {
    && keys == Distinct(seen)
    && (forall k :: k in counts <==> k in seen)
    && (forall k :: k in counts ==> counts[k] == Count(seen, k))
  }

  /** One increment keeps keys and counts in step with the values seen. */
  lemma Increment<K(!new)>(keys: seq<K>, counts: map<K, nat>, seen: seq<K>, x: K)
    requires Tracking(keys, counts, seen)
    ensures Tracking(if x in counts then keys else keys + [x],
                     counts[x := (if x in counts then counts[x] else 0) + 1],
                     seen + [x])
  {
    var s := seen + [x];
    assert s[..|s| - 1] == seen;
    assert x in counts <==> x in Distinct(seen);
    IncrementCounts(counts, seen, x);
  }

  lemma IncrementCounts<K(!new)>(counts: map<K, nat>, seen: seq<K>, x: K)
    requires forall k :: k in counts <==> k in seen
    requires forall k :: k in counts ==> counts[k] == Count(seen, k)
    ensures forall k :: k in counts[x := (if x in counts then counts[x] else 0) + 1] <==> k in seen + [x]
    ensures forall k :: k in counts[x := (if x in counts then counts[x] else 0) + 1] ==>
      counts[x := (if x in counts then counts[x] else 0) + 1][k] == Count(seen + [x], k)
  {
    var s := seen + [x];
    var counts' := counts[x := (if x in counts then counts[x] else 0) + 1];
    assert s[..|s| - 1] == seen;
    forall k ensures k in counts' <==> k in s {
      assert k in s <==> k in seen || k == x;
    }
    forall k | k in counts' ensures counts'[k] == Count(s, k) {
      assert Count(s, k) == Count(seen, k) + (if x == k then 1 else 0);
    }
  }

  /** The object being counted into. `keys` is its property order and
      `counts` maps each property to its value. */
  class Counter<K(==,!new)> {
    var keys: seq<K>
    var counts: map<K, nat>

    /** The counter holds the tally of `seen`. */
    ghost predicate Tracks(seen: seq<K>)
      reads this
    {
      Tracking(keys, counts, seen)
    }

    /** `{}` */
    constructor ()
      ensures keys == [] && counts == map[]
      ensures Tracks([])
    {
      keys := [];
      counts := map[];
    }

    /** `acc[x] = (acc[x] || 0) + 1`: a missing key is created at the end
        of the key order with count 1, a present one is incremented in
        place; the counter then tracks one more value. */
    method Add(x: K, ghost seen: seq<K>)
      requires Tracks(seen)
      modifies this
      ensures keys == if x in old(counts) then old(keys) else old(keys) + [x]
      ensures counts == old(counts)[x := (if x in old(counts) then old(counts)[x] else 0) + 1]
      ensures Tracks(seen + [x])
    {
      var newKeys := if x in counts then keys else keys + [x];
      var newCounts := counts[x := (if x in counts then counts[x] else 0) + 1];
      Increment(keys, counts, seen, x);
      keys, counts := newKeys, newCounts;
    }

    /** `list.forEach(x => { acc[x] = (acc[x] || 0) + 1 })` */
    method AddAll(xs: seq<K>, ghost seen: seq<K>)
      requires Tracks(seen)
      modifies this
      ensures Tracks(seen + xs)
    {
      AppendEnds(seen, xs);
      var i := 0;
      while i < |xs|
        invariant 0 <= i <= |xs|
        invariant Tracks(seen + xs[..i])
      {
        AppendNext(seen, xs, i);
        Add(xs[i], seen + xs[..i]);
        i := i + 1;
      }
    }

    /** `Object.entries(acc)` */
    function Entries(): (t: seq<Entry<K>>)
      reads this
      ensures Keys(t) == keys
    {
      var ks, cs := keys, counts;
      seq(|ks|, i requires 0 <= i < |ks| => Entry(ks[i], if ks[i] in cs then cs[ks[i]] else 0))
    }

    /** A counter that tracks `seen` lists exactly `Tally(seen)`. */
    lemma EntriesTally(seen: seq<K>)
      requires Tracks(seen)
      ensures Entries() == Tally(seen)
    {
      forall i | 0 <= i < |keys| ensures keys[i] in counts {
        assert keys[i] in Distinct(seen);
      }
    }
  }

  /** `xs.forEach(x => { acc[x] = (acc[x] || 0) + 1 })` into a fresh object,
      then `Object.entries(acc)`. */
  method CountValues<K(==,!new)>(xs: seq<K>) returns (t: seq<Entry<K>>)
    ensures t == Tally(xs)
  {
    var c := new Counter<K>();
    c.AddAll(xs, []);
    assert [] + xs == xs;
    c.EntriesTally(xs);
    t := c.Entries();
  }

  /** The nested form: `lists.forEach(l => l.forEach(x => { acc[x] = (acc[x] || 0) + 1 }))`,
      then `Object.entries(acc)`. */
  method CountLists<K(==,!new)>(lists: seq<seq<K>>) returns (t: seq<Entry<K>>)
    ensures t == Tally(Flatten(lists))
  {
    var c := new Counter<K>();
    FlattenEnds(lists);
    for i := 0 to |lists|
      invariant c.Tracks(Flatten(lists[..i]))
    {
      FlattenNext(lists, i);
      c.AddAll(lists[i], Flatten(lists[..i]));
    }
    c.EntriesTally(Flatten(lists));
    t := c.Entries();
  }

  function Counts<K>(t: seq<Entry<K>>): (cs: seq<int>)
    ensures |cs| == |t| && forall i :: 0 <= i < |t| ==> cs[i] == t[i].count
  {
    seq(|t|, i requires 0 <= i < |t| => t[i].count)
  }

  lemma {:induction false} SumOfCounts<K>(t: seq<Entry<K>>)
    ensures Sum(Counts(t)) == SumCounts(t)
  {
    if t != [] {
      assert Counts(t)[1..] == Counts(t[1..]);
      SumOfCounts(t[1..]);
    }
  }

  lemma {:induction false} KeysOfInsert<K>(s: seq<Entry<K>>, x: Entry<K>, cmp: (Entry<K>, Entry<K>) -> int)
    ensures forall k :: k in Keys(Insert(s, x, cmp)) <==> k in Keys(s) || k == x.key
  {
    InsertPermutes(s, x, cmp);
    forall k ensures k in Keys(Insert(s, x, cmp)) <==> k in Keys(s) || k == x.key {
      var r := Insert(s, x, cmp);
      if k in Keys(r) {
        var i :| 0 <= i < |r| && r[i].key == k;
        assert r[i] in multiset(r);
      }
      if k in Keys(s) {
        var i :| 0 <= i < |s| && s[i].key == k;
        assert s[i] in multiset(r);
      }
      if k == x.key {
        assert x in multiset(r);
      }
    }
  }

  lemma {:induction false} InsertKeepsKeysDistinct<K>(s: seq<Entry<K>>, x: Entry<K>, cmp: (Entry<K>, Entry<K>) -> int)
    requires NoDuplicates(Keys(s)) && x.key !in Keys(s)
    ensures NoDuplicates(Keys(Insert(s, x, cmp)))
  {
    if s == [] || cmp(s[0], x) > 0 {
      assert Keys(Insert(s, x, cmp)) == [x.key] + Keys(s);
      NoDuplicatesCons(x.key, Keys(s));
    } else {
      var rest := Insert(s[1..], x, cmp);
      assert Keys(s) == [s[0].key] + Keys(s[1..]);
      assert NoDuplicates(Keys(s[1..])) && s[0].key !in Keys(s[1..]);
      InsertKeepsKeysDistinct(s[1..], x, cmp);
      KeysOfInsert(s[1..], x, cmp);
      assert Keys(Insert(s, x, cmp)) == [s[0].key] + Keys(rest);
      NoDuplicatesCons(s[0].key, Keys(rest));
    }
  }

  /** Sorting entries whose keys are distinct keeps the keys distinct. */
  lemma {:induction false} SortKeepsKeysDistinct<K>(s: seq<Entry<K>>, cmp: (Entry<K>, Entry<K>) -> int)
    requires NoDuplicates(Keys(s))
    ensures NoDuplicates(Keys(Sort(s, cmp)))
    ensures forall k :: k in Keys(Sort(s, cmp)) <==> k in Keys(s)
  {
    if s != [] {
      var n := |s| - 1;
      assert Keys(s[..n]) == Keys(s)[..n];
      SortKeepsKeysDistinct(s[..n], cmp);
      KeysOfInsert(Sort(s[..n], cmp), s[n], cmp);
      InsertKeepsKeysDistinct(Sort(s[..n], cmp), s[n], cmp);
      assert Keys(s) == Keys(s[..n]) + [s[n].key];
    }
  }

  /** Every value that was counted has its entry in the tally. */
  lemma TallyEntry<K(!new)>(xs: seq<K>, k: K)
    requires k in xs
    ensures Entry(k, Count(xs, k)) in Tally(xs)
  {
    var d := Distinct(xs);
    var i :| 0 <= i < |d| && d[i] == k;
    assert Tally(xs)[i] == Entry(k, Count(xs, k));
  }

  /** `([, a], [, b]) => b - a`: larger counts first. */
  function ByCountDesc<K>(a: Entry<K>, b: Entry<K>): int {
    b.count - a.count
  }

  lemma ByCountDescConsistent<K(!new)>()
    ensures Consistent(ByCountDesc<K>)
  {
    forall a: Entry<K>, b: Entry<K>, c: Entry<K> ensures Chain(ByCountDesc, a, b, c) {
    }
  }

  /** Sorted by count, largest first, cut to `n`: at most `n` entries, each
      no smaller than the next, entries with equal counts in their original
      order, none invented, and no entry left out has a larger count than
      the last one kept. */
  lemma TopByCount<K(!new)>(t: seq<Entry<K>>, n: nat)
    ensures |TopN(t, ByCountDesc, n)| == Min(n, |t|)
    ensures forall i, j :: 0 <= i < j < |TopN(t, ByCountDesc, n)| ==>
      TopN(t, ByCountDesc, n)[i].count >= TopN(t, ByCountDesc, n)[j].count
    ensures multiset(TopN(t, ByCountDesc, n)) <= multiset(t)
    ensures forall z :: Ties(TopN(t, ByCountDesc, n), z, ByCountDesc) <= Ties(t, z, ByCountDesc)
    ensures 0 < n ==> forall e :: e in multiset(t) - multiset(TopN(t, ByCountDesc, n)) ==>
      e.count <= TopN(t, ByCountDesc, n)[|TopN(t, ByCountDesc, n)| - 1].count
    ensures SumCounts(TopN(t, ByCountDesc, n)) <= SumCounts(t)
  {
    ByCountDescConsistent<K>();
    TopNFacts(t, ByCountDesc, n);
    SumCountsPrefix(Sort(t, ByCountDesc), Min(n, |t|));
    SumCountsSort(t, ByCountDesc);
  }
  lemma TopTallyKeys<K(!new)>(xs: seq<K>, t: seq<Entry<K>>, r: seq<Entry<K>>, n: nat)
    requires t == Tally(xs) && r == TopN(t, ByCountDesc, n)
    ensures NoDuplicates(Keys(r))
  {
    assert Keys(t) == Distinct(xs);
    SortKeepsKeysDistinct(t, ByCountDesc);
    assert Keys(r) == Keys(Sort(t, ByCountDesc))[..|r|];
  }

  lemma TopTallyCounts<K(!new)>(xs: seq<K>, t: seq<Entry<K>>, r: seq<Entry<K>>, n: nat)
    requires t == Tally(xs) && r == TopN(t, ByCountDesc, n)
    ensures forall e :: e in r ==> e.count == Count(xs, e.key) >= 1
  {
    SortPermutes(t, ByCountDesc);
    forall e | e in r ensures e.count == Count(xs, e.key) >= 1 {
      assert e in multiset(Sort(t, ByCountDesc));
      assert e in t;
      var i :| 0 <= i < |t| && t[i] == e;
      assert Distinct(xs)[i] in xs;
    }
  }

  /** An entry of `t` that `r` does not hold is among what `r` leaves out. */
  lemma NotKept<K>(t: seq<Entry<K>>, r: seq<Entry<K>>, e: Entry<K>)
    requires e in t && e !in r
    ensures e in multiset(t) - multiset(r)
  {
    assert multiset(r)[e] == 0 && multiset(t)[e] > 0;
  }

  lemma TopTallyLeftOut<K(!new)>(xs: seq<K>, t: seq<Entry<K>>, r: seq<Entry<K>>, n: nat)
    requires t == Tally(xs) && r == TopN(t, ByCountDesc, n) && 0 < n
    ensures forall k :: k in xs && k !in Keys(r) ==> 0 < |r| && Count(xs, k) <= r[|r| - 1].count
  {
    forall k | k in xs && k !in Keys(r) ensures 0 < |r| && Count(xs, k) <= r[|r| - 1].count {
      TallyEntry(xs, k);
      var e := Entry(k, Count(xs, k));
      forall i | 0 <= i < |r| ensures r[i] != e {
        assert Keys(r)[i] == r[i].key != k;
      }
      NotKept(t, r, e);
      LeftOutBound(t, r, n, e);
    }
  }

  /** An entry the top `n` leave out counts no more than the last one kept. */
  lemma LeftOutBound<K(!new)>(t: seq<Entry<K>>, r: seq<Entry<K>>, n: nat, e: Entry<K>)
    requires r == TopN(t, ByCountDesc, n) && 0 < n
    requires e in multiset(t) - multiset(r)
    ensures 0 < |r| && e.count <= r[|r| - 1].count
  {
    TopByCount(t, n);
  }

  /** The `n` most frequent values of a tally, as the views rank them:
      at most `n` entries with distinct keys, each count the number of
      occurrences of its key, counts non-increasing, equal counts in the
      tally's first-seen order, and no value left out that occurs more often
      than the last one kept. */
  lemma TopTallyFacts<K(!new)>(xs: seq<K>, n: nat)
    ensures |TopN(Tally(xs), ByCountDesc, n)| == Min(n, |Distinct(xs)|)
    ensures NoDuplicates(Keys(TopN(Tally(xs), ByCountDesc, n)))
    ensures forall e :: e in TopN(Tally(xs), ByCountDesc, n) ==> e.count == Count(xs, e.key) >= 1
    ensures forall i, j :: 0 <= i < j < |TopN(Tally(xs), ByCountDesc, n)| ==>
      TopN(Tally(xs), ByCountDesc, n)[i].count >= TopN(Tally(xs), ByCountDesc, n)[j].count
    ensures forall z :: Ties(TopN(Tally(xs), ByCountDesc, n), z, ByCountDesc) <= Ties(Tally(xs), z, ByCountDesc)
    ensures 0 < n ==> forall k :: k in xs && k !in Keys(TopN(Tally(xs), ByCountDesc, n)) ==>
      Count(xs, k) <= TopN(Tally(xs), ByCountDesc, n)[|TopN(Tally(xs), ByCountDesc, n)| - 1].count
    ensures SumCounts(TopN(Tally(xs), ByCountDesc, n)) <= |xs|
  {
    TopTallyShape(xs, n);
    TopTallyContents(xs, n);
  }

  /** Length, order, ties and total of the top entries of a tally. */
  lemma TopTallyShape<K(!new)>(xs: seq<K>, n: nat)
    ensures |TopN(Tally(xs), ByCountDesc, n)| == Min(n, |Distinct(xs)|)
    ensures forall i, j :: 0 <= i < j < |TopN(Tally(xs), ByCountDesc, n)| ==>
      TopN(Tally(xs), ByCountDesc, n)[i].count >= TopN(Tally(xs), ByCountDesc, n)[j].count
    ensures forall z :: Ties(TopN(Tally(xs), ByCountDesc, n), z, ByCountDesc) <= Ties(Tally(xs), z, ByCountDesc)
    ensures SumCounts(TopN(Tally(xs), ByCountDesc, n)) <= |xs|
  {
    var t := Tally(xs);
    TallySum(xs);
    TopByCount(t, n);
  }

  /** Keys and counts of the top entries of a tally, and what they leave out. */
  lemma TopTallyContents<K(!new)>(xs: seq<K>, n: nat)
    ensures NoDuplicates(Keys(TopN(Tally(xs), ByCountDesc, n)))
    ensures forall e :: e in TopN(Tally(xs), ByCountDesc, n) ==> e.count == Count(xs, e.key) >= 1
    ensures 0 < n ==> forall k :: k in xs && k !in Keys(TopN(Tally(xs), ByCountDesc, n)) ==>
      Count(xs, k) <= TopN(Tally(xs), ByCountDesc, n)[|TopN(Tally(xs), ByCountDesc, n)| - 1].count
  {
    var t := Tally(xs);
    var r := TopN(t, ByCountDesc, n);
    TopTallyKeys(xs, t, r, n);
    TopTallyCounts(xs, t, r, n);
    if 0 < n {
      TopTallyLeftOut(xs, t, r, n);
    }
  }

  /** The keys of the top `n` entries occur in the values, and entries with
      equal counts come in the order their keys were first met. */
  lemma TopTallyTieOrder<K(!new)>(xs: seq<K>, n: nat)
    ensures forall e :: e in TopN(Tally(xs), ByCountDesc, n) ==> e.key in xs
    ensures forall i, j :: 0 <= i < j < |TopN(Tally(xs), ByCountDesc, n)| && TopN(Tally(xs), ByCountDesc, n)[i].count == TopN(Tally(xs), ByCountDesc, n)[j].count ==>
      FirstIndex(xs, TopN(Tally(xs), ByCountDesc, n)[i].key) < FirstIndex(xs, TopN(Tally(xs), ByCountDesc, n)[j].key)
  {
    var t := Tally(xs);
    var r := TopN(t, ByCountDesc, n);
    forall e | e in r ensures e.key in xs {
      TopKeyOccurs(xs, t, r, n, e);
    }
    forall i, j | 0 <= i < j < |r| && r[i].count == r[j].count
      ensures FirstIndex(xs, r[i].key) < FirstIndex(xs, r[j].key)
    {
      TieStep(xs, t, r, n, i, j);
    }
  }

  lemma TopKeyOccurs<K(!new)>(xs: seq<K>, t: seq<Entry<K>>, r: seq<Entry<K>>, n: nat, e: Entry<K>)
    requires t == Tally(xs) && r == TopN(t, ByCountDesc, n) && e in r
    ensures e.key in xs
  {
    TopByCount(t, n);
    assert e in multiset(r);
    var a :| 0 <= a < |t| && t[a] == e;
    TallyFacts(xs);
    assert Keys(t)[a] == e.key;
  }

  /** Two kept entries with equal counts: the first one's key was met first. */
  lemma TieStep<K(!new)>(xs: seq<K>, t: seq<Entry<K>>, r: seq<Entry<K>>, n: nat, i: nat, j: nat)
    requires t == Tally(xs) && r == TopN(t, ByCountDesc, n)
    requires i < j < |r| && r[i].count == r[j].count
    ensures r[i].key in xs && r[j].key in xs
    ensures FirstIndex(xs, r[i].key) < FirstIndex(xs, r[j].key)
  {
    var z := r[i];
    var p, q := TiesInOrder(r, i, j, z, ByCountDesc);
    TopByCount(t, n);
    assert Ties(r, z, ByCountDesc) <= Ties(t, z, ByCountDesc);
    var a, b := TiesFrom(t, p, q, z, ByCountDesc);
    assert t[a] == r[i] && t[b] == r[j];
    TallyFacts(xs);
    assert Keys(t)[a] == r[i].key && Keys(t)[b] == r[j].key;
  }
}
