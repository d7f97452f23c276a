/** The two pie charts of the insights panel: how often each production
    country and each spoken language occurs across the movies, the ten most
    frequent of each and an "Others" slice for the rest. */
module CountryLanguageInsights {
  import opened Seqs
  import opened Sorting
  import opened Counting
  import opened Movies

  /** One pie: its `labels` and `datasets[0].data`. */
  datatype Pie = Pie(labels: seq<string>, data: seq<int>)

  /** `{ countryData, languageData }` */
  datatype Insights = Insights(countryData: Pie, languageData: Pie)

  /** The ten most frequent entries of a count table, in order of count,
      then "Others" holding the sum of all counts less that of the ten. */
  function Rollup(t: seq<Entry<string>>): Pie {
    var top := TopN(t, ByCountDesc, 10);
    Pie(Keys(top) + ["Others"], Counts(top) + [Sum(Counts(t)) - Sum(Counts(top))])
  }

  /** The pie for one field, given its list of values per movie. */
  function PieOf(lists: seq<seq<string>>): Pie {
    Rollup(Tally(Flatten(lists)))
  }

  /** What the `insights` memo holds for `movies`. */
  function InsightsOf(movies: seq<Movie>): Insights {
    Insights(PieOf(CountryLists(movies)), PieOf(LanguageLists(movies)))
  }

  /** `Object.entries(count).sort((a, b) => b[1] - a[1]).slice(0, 10)`, the
      two sums and the two spread arrays. */
  method RollupEntries(t: seq<Entry<string>>) returns (p: Pie)
    ensures p == Rollup(t)
  {
    ByCountDescConsistent<string>();
    var sorted := SortedCopy(t, ByCountDesc);
    var top := Take(sorted, 10);
    var others := Sum(Counts(t)) - Sum(Counts(top));
    p := Pie(Keys(top) + ["Others"], Counts(top) + [others]);
  }

  /** The `insights` memo: one pass over the movies feeds every country into
      one count object and every language into another; each is then rolled
      up into a pie. */
  method ComputeInsights(movies: seq<Movie>) returns (r: Insights)
    ensures r == InsightsOf(movies)
  {
    var countryCount := new Counter<string>();
    var languageCount := new Counter<string>();
    ghost var countries, languages := CountryLists(movies), LanguageLists(movies);
    FlattenEnds(countries);
    FlattenEnds(languages);
    var i := 0;
    while i < |movies|
      invariant 0 <= i <= |movies|
      invariant countryCount.Tracks(Flatten(countries[..i]))
      invariant languageCount.Tracks(Flatten(languages[..i]))
    {
      FlattenNext(countries, i);
      FlattenNext(languages, i);
      countryCount.AddAll(movies[i].country, Flatten(countries[..i]));
      languageCount.AddAll(movies[i].language, Flatten(languages[..i]));
      i := i + 1;
    }
    countryCount.EntriesTally(Flatten(countries));
    languageCount.EntriesTally(Flatten(languages));
    var countryData := RollupEntries(countryCount.Entries());
    var languageData := RollupEntries(languageCount.Entries());
    r := Insights(countryData, languageData);
  }

  /** Total occurrences in `xs` of the keys `ks`. */
  function CountsOf<K(==)>(ks: seq<K>, xs: seq<K>): nat {
    if ks == [] then 0 else Count(xs, ks[0]) + CountsOf(ks[1..], xs)
  }

  /** Number of elements of `xs` that are not among `ks`. */
  function Outside<K(==)>(xs: seq<K>, ks: seq<K>): nat {
    if xs == [] then 0
    else Outside(xs[..|xs| - 1], ks) + (if xs[|xs| - 1] in ks then 0 else 1)
  }

  lemma {:induction false} CountsOfEmpty<K>(ks: seq<K>)
    ensures CountsOf(ks, []) == 0
  {
    if ks != [] {
      CountsOfEmpty(ks[1..]);
    }
  }

  lemma {:induction false} CountsOfSnoc<K>(ks: seq<K>, xs: seq<K>, x: K)
    requires NoDuplicates(ks)
    ensures CountsOf(ks, xs + [x]) == CountsOf(ks, xs) + (if x in ks then 1 else 0)
  {
    if ks != [] {
      assert (xs + [x])[..|xs|] == xs;
      assert NoDuplicates(ks[1..]) by {
        forall i, j | 0 <= i < j < |ks[1..]| ensures ks[1..][i] != ks[1..][j] {
          assert ks[1..][i] == ks[i + 1] && ks[1..][j] == ks[j + 1];
        }
      }
      assert ks[0] !in ks[1..] by {
        forall i | 0 <= i < |ks[1..]| ensures ks[1..][i] != ks[0] {
          assert ks[1..][i] == ks[i + 1];
        }
      }
      assert x in ks <==> x == ks[0] || x in ks[1..] by {
        assert ks == [ks[0]] + ks[1..];
      }
      CountsOfSnoc(ks[1..], xs, x);
    }
  }

  /** Every element of `xs` is either one of the (distinct) keys `ks`, and
      counted once under that key, or outside them. */
  lemma {:induction false} CountsAndOutside<K>(ks: seq<K>, xs: seq<K>)
    requires NoDuplicates(ks)
    ensures CountsOf(ks, xs) + Outside(xs, ks) == |xs|
  {
    if xs == [] {
      CountsOfEmpty(ks);
    } else {
      var n := |xs| - 1;
      CountsAndOutside(ks, xs[..n]);
      CountsOfSnoc(ks, xs[..n], xs[n]);
      assert xs == xs[..n] + [xs[n]];
    }
  }

  /** A count table whose counts are occurrences in `xs` adds up to the
      occurrences of its keys. */
  lemma {:induction false} SumCountsAsCounts<K>(t: seq<Entry<K>>, xs: seq<K>)
    requires forall e :: e in t ==> e.count == Count(xs, e.key)
    ensures SumCounts(t) == CountsOf(Keys(t), xs)
  {
    if t != [] {
      assert Keys(t)[1..] == Keys(t[1..]);
      assert forall e :: e in t[1..] ==> e in t;
      SumCountsAsCounts(t[1..], xs);
    }
  }

  /** No value lies outside keys that cover all of `xs`. */
  lemma {:induction false} NothingOutside<K>(xs: seq<K>, ks: seq<K>)
    requires forall x :: x in xs ==> x in ks
    ensures Outside(xs, ks) == 0
  {
    if xs != [] {
      var n := |xs| - 1;
      assert forall x :: x in xs[..n] ==> x in xs;
      NothingOutside(xs[..n], ks);
    }
  }

  /** Each pie has one slice per label: at most ten values, then "Others". */
  lemma PieShape(lists: seq<seq<string>>)
    ensures |PieOf(lists).labels| == |PieOf(lists).data| == Min(10, |Distinct(Flatten(lists))|) + 1
    ensures PieOf(lists).labels[|PieOf(lists).labels| - 1] == "Others"
  {
    TopTallyFacts(Flatten(lists), 10);
  }

  /** The named slices: distinct values, each with the number of times it
      occurs across the movies' lists, largest first. */
  lemma PieSlices(lists: seq<seq<string>>)
    ensures var p := PieOf(lists); var n := |p.labels| - 1;
      && NoDuplicates(p.labels[..n])
      && (forall i :: 0 <= i < n ==> p.data[i] == CountInLists(lists, p.labels[i]) >= 1)
      && (forall i, j :: 0 <= i < j < n ==> p.data[i] >= p.data[j])
    ensures var p := PieOf(lists); var n := |p.labels| - 1;
      && (forall i :: 0 <= i < n ==> p.labels[i] in Flatten(lists))
      && (forall i, j :: 0 <= i < j < n && p.data[i] == p.data[j] ==>
            FirstIndex(Flatten(lists), p.labels[i]) < FirstIndex(Flatten(lists), p.labels[j]))
  {
    var flat := Flatten(lists);
    var top := TopN(Tally(flat), ByCountDesc, 10);
    TopTallyFacts(flat, 10);
    var p := PieOf(lists);
    var n := |p.labels| - 1;
    assert n == |top|;
    assert p.labels[..n] == Keys(top);
    forall i | 0 <= i < n ensures p.data[i] == CountInLists(lists, p.labels[i]) >= 1 {
      assert top[i] in top;
      CountFlatten(lists, top[i].key);
    }
    SliceTies(flat, top, p);
  }

  /** The named slices in the top entries' order: equal slices in the order
      their values were first met. */
  lemma SliceTies(flat: seq<string>, top: seq<Entry<string>>, p: Pie)
    requires top == TopN(Tally(flat), ByCountDesc, 10)
    requires |p.labels| == |p.data| == |top| + 1
    requires p.labels[..|top|] == Keys(top) && p.data[..|top|] == Counts(top)
    ensures forall i :: 0 <= i < |top| ==> p.labels[i] in flat
    ensures forall i, j :: 0 <= i < j < |top| && p.data[i] == p.data[j] ==>
      FirstIndex(flat, p.labels[i]) < FirstIndex(flat, p.labels[j])
  {
    TopTallyTieOrder(flat, 10);
    forall i | 0 <= i < |top| ensures p.labels[i] == top[i].key && p.data[i] == top[i].count {
      assert p.labels[..|top|][i] == Keys(top)[i];
      assert p.data[..|top|][i] == Counts(top)[i];
    }
    forall i | 0 <= i < |top| ensures p.labels[i] in flat {
      assert top[i] in top;
    }
  }

  /** A value left out of the named slices occurs no more often than the
      smallest of them. */
  lemma PieLeftOut(lists: seq<seq<string>>, x: string)
    requires x in Flatten(lists)
    requires var p := PieOf(lists); x !in p.labels[..|p.labels| - 1]
    ensures var p := PieOf(lists); var n := |p.labels| - 1;
      n > 0 && CountInLists(lists, x) <= p.data[n - 1]
  {
    var flat := Flatten(lists);
    var top := TopN(Tally(flat), ByCountDesc, 10);
    TopTallyFacts(flat, 10);
    var p := PieOf(lists);
    var n := |p.labels| - 1;
    assert p.labels[..n] == Keys(top);
    assert x in Distinct(flat);
    CountFlatten(lists, x);
  }

  /** The "Others" slice is the number of (movie, value) pairs whose value
      has no slice of its own, so the slices add up to all pairs; it is 0
      when there are no more than ten distinct values. */
  lemma PieOthers(lists: seq<seq<string>>)
    ensures var p := PieOf(lists); var n := |p.labels| - 1;
      && p.data[n] == Outside(Flatten(lists), p.labels[..n]) >= 0
      && Sum(p.data) == |Flatten(lists)|
      && (|Distinct(Flatten(lists))| <= 10 ==> p.data[n] == 0)
  {
    var flat := Flatten(lists);
    var t := Tally(flat);
    var top := TopN(t, ByCountDesc, 10);
    var p := PieOf(lists);
    var n := |p.labels| - 1;
    assert p == Rollup(t);
    assert p.labels[..n] == Keys(top);
    assert p.data == Counts(top) + [p.data[n]];
    OthersSlice(flat, t, top);
    SumSnoc(Counts(top), p.data[n]);
    if |Distinct(flat)| <= 10 {
      AllKept(flat, t, top);
      NothingOutside(flat, Keys(top));
    }
  }

  /** What "Others" holds is the number of values outside the ten kept keys. */
  lemma OthersSlice(flat: seq<string>, t: seq<Entry<string>>, top: seq<Entry<string>>)
    requires t == Tally(flat) && top == TopN(t, ByCountDesc, 10)
    ensures Sum(Counts(t)) == |flat|
    ensures Sum(Counts(t)) - Sum(Counts(top)) == Outside(flat, Keys(top))
  {
    TallyFacts(flat);
    TopTallyFacts(flat, 10);
    SumOfCounts(t);
    SumOfCounts(top);
    SumCountsAsCounts(top, flat);
    CountsAndOutside(Keys(top), flat);
  }

  /** With no more than ten distinct values every value keeps its slice. */
  lemma AllKept(flat: seq<string>, t: seq<Entry<string>>, top: seq<Entry<string>>)
    requires t == Tally(flat) && top == TopN(t, ByCountDesc, 10)
    requires |Distinct(flat)| <= 10
    ensures forall x :: x in flat ==> x in Keys(top)
  {
    TallyFacts(flat);
    assert top == Sort(t, ByCountDesc) by {
      assert |t| <= 10;
      TakeAll(Sort(t, ByCountDesc));
    }
    SortPermutes(t, ByCountDesc);
    KeysOfPermutation(t, top);
  }

  lemma KeysOfPermutation<K>(a: seq<Entry<K>>, b: seq<Entry<K>>)
    requires multiset(a) == multiset(b)
    ensures forall x :: x in Keys(a) ==> x in Keys(b)
  {
    forall x | x in Keys(a) ensures x in Keys(b) {
      var i :| 0 <= i < |a| && Keys(a)[i] == x;
      assert a[i] in multiset(b);
      var j :| 0 <= j < |b| && b[j] == a[i];
      assert Keys(b)[j] == x;
    }
  }

  /** The two pies of the records the component tests render: one country,
      United States, in both movies; English in both and Italian in one. */
  lemma MockInsights()
    ensures InsightsOf(MockMovies()).countryData == Pie(["United States", "Others"], [2, 0])
    ensures InsightsOf(MockMovies()).languageData == Pie(["English", "Italian", "Others"], [2, 1, 0])
  {
    var ms := MockMovies();
    MockCountries(CountryLists(ms));
    MockLanguages(LanguageLists(ms));
  }

  lemma MockCountries(lists: seq<seq<string>>)
    requires lists == [["United States"], ["United States"]]
    ensures PieOf(lists) == Pie(["United States", "Others"], [2, 0])
  {
    var us := "United States";
    FlattenPair(lists);
    var t := CountriesTally(Flatten(lists));
    assert t[..0] == [];
    assert Sort(t, ByCountDesc) == t;
    RollupWhole(t);
    assert Counts(t) == [2];
    assert Keys(t) == [us];
  }

  lemma CountriesTally(flat: seq<string>) returns (t: seq<Entry<string>>)
    requires flat == ["United States"] + ["United States"]
    ensures t == Tally(flat) == [Entry("United States", 2)]
  {
    var us := "United States";
    assert flat[..1] == [us] && flat[..1][..0] == [];
    assert Distinct(flat[..1]) == [us];
    assert Distinct(flat) == [us];
    assert Count(flat[..1], us) == 1;
    assert Count(flat, us) == 2;
    t := Tally(flat);
  }

  lemma MockLanguages(lists: seq<seq<string>>)
    requires lists == [["English"], ["English", "Italian"]]
    ensures PieOf(lists) == Pie(["English", "Italian", "Others"], [2, 1, 0])
  {
    FlattenPair(lists);
    var t := LanguagesTally(Flatten(lists));
    LanguagesSorted(t);
    RollupWhole(t);
    assert Counts(t) == [2, 1];
    assert Keys(t) == ["English", "Italian"];
  }

  lemma LanguagesTally(flat: seq<string>) returns (t: seq<Entry<string>>)
    requires flat == ["English"] + ["English", "Italian"]
    ensures t == Tally(flat) == [Entry("English", 2), Entry("Italian", 1)]
  {
    var en, it := "English", "Italian";
    assert en[0] != it[0];
    assert flat == [en, en, it];
    DistinctAAB(en, it);
    CountAAB(en, it);
    t := Tally(flat);
    assert |t| == 2 && t[0] == Entry(en, 2) && t[1] == Entry(it, 1);
  }

  /** Two of one value then one of another: the distinct values in order. */
  lemma DistinctAAB<T(!new)>(a: T, b: T)
    requires a != b
    ensures Distinct([a, a, b]) == [a, b]
  {
    assert [a, a, b][..2] == [a, a] && [a, a][..1] == [a] && [a][..0] == [];
    assert Distinct([a]) == [a];
    assert Distinct([a, a]) == [a];
  }

  /** Two of one value then one of another: their numbers of occurrences. */
  lemma CountAAB<T>(a: T, b: T)
    requires a != b
    ensures Count([a, a, b], a) == 2 && Count([a, a, b], b) == 1
  {
    assert [a, a, b][..2] == [a, a] && [a, a][..1] == [a] && [a][..0] == [];
    assert Count([a], a) == 1 && Count([a, a], a) == 2;
    assert Count([a], b) == 0 && Count([a, a], b) == 0;
  }

  lemma LanguagesSorted(t: seq<Entry<string>>)
    requires t == [Entry("English", 2), Entry("Italian", 1)]
    ensures Sort(t, ByCountDesc) == t
  {
    assert t[..1] == [t[0]] && t[..1][..0] == [];
    assert Sort(t[..1], ByCountDesc) == [t[0]];
    assert Sort(t, ByCountDesc) == Insert([t[0]], t[1], ByCountDesc);
    assert ByCountDesc(t[0], t[1]) == -1;
    assert [t[0]][1..] == [] && Insert([], t[1], ByCountDesc) == [t[1]];
  }

  lemma FlattenPair<T>(lists: seq<seq<T>>)
    requires |lists| == 2
    ensures Flatten(lists) == lists[0] + lists[1]
  {
    assert lists[..1] == [lists[0]] && lists[..1][..0] == [];
    assert Flatten(lists[..1]) == lists[0];
  }

  /** A table already in order with at most ten entries is its own top ten,
      and nothing is left for "Others". */
  lemma RollupWhole(t: seq<Entry<string>>)
    requires Sort(t, ByCountDesc) == t && |t| <= 10
    ensures Rollup(t) == Pie(Keys(t) + ["Others"], Counts(t) + [0])
  {
    TakeAll(t);
    assert Take(t, 10) == t;
    var top := TopN(t, ByCountDesc, 10);
    assert top == t;
    assert Rollup(t) == Pie(Keys(top) + ["Others"], Counts(top) + [Sum(Counts(t)) - Sum(Counts(top))]);
  }
}
