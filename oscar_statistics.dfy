/** The Oscar bar chart: nominations and wins added up per release year,
    one bar pair per year, years in the order of `sort()` on their text. */
module OscarStatistics {
  import opened Seqs
  import opened Sorting
  import opened Decimal
  import opened Movies

  /** `{ nominations, wins }` of one year. */
  datatype Totals = Totals(nominations: int, wins: int)

  /** The chart's `labels` and the data of its two datasets. */
  datatype OscarSeries = OscarSeries(years: seq<string>, nominations: seq<int>, wins: seq<int>)

  function Plus(a: Totals, b: Totals): Totals {
    Totals(a.nominations + b.nominations, a.wins + b.wins)
  }

  /** What one movie adds to its year: `oscar_nominations || 0` and
      `oscar_winning || 0`. */
  function Contribution(m: Movie): Totals {
    Totals(OrZero(m.oscarNominations), OrZero(m.oscarWinning))
  }

  /** `if (movie.year)`: a year of 0 is falsy and the movie is skipped. */
  predicate Dated(m: Movie) { m.year != 0 }

  /** The property name `acc[movie.year]` uses: the year as text. */
  function YearKey(m: Movie): string {
    IntToDecimal(m.year)
  }

  /** The keys of the dated movies, in list order, repeats kept. */
  function DatedKeys(movies: seq<Movie>): seq<string> {
    if movies == [] then []
    else
      var init, m := movies[..|movies| - 1], movies[|movies| - 1];
      assert movies == init + [m];
      DatedKeys(init) + (if Dated(m) then [YearKey(m)] else [])
  }

  /** The totals of the dated movies whose key is `key`. */
  function TotalsFor(movies: seq<Movie>, key: string): Totals {
    if movies == [] then Totals(0, 0)
    else
      var init, m := movies[..|movies| - 1], movies[|movies| - 1];
      if Dated(m) && YearKey(m) == key then Plus(TotalsFor(init, key), Contribution(m)) else TotalsFor(init, key)
  }

  /** The totals of all dated movies. */
  function DatedTotal(movies: seq<Movie>): Totals {
    if movies == [] then Totals(0, 0)
    else
      var init, m := movies[..|movies| - 1], movies[|movies| - 1];
      if Dated(m) then Plus(DatedTotal(init), Contribution(m)) else DatedTotal(init)
  }

  /** `Object.keys(oscarStats).sort()` */
  function YearLabels(movies: seq<Movie>): seq<string> {
    Sort(Distinct(DatedKeys(movies)), StrCompare)
  }

  /** What the effect hands to the chart: nothing for an empty list (the
      effect returns early), otherwise the sorted years with the nominations
      and the wins of each. */
  function SeriesOf(movies: seq<Movie>): Option<OscarSeries> {
    if movies == [] then None
    else
      var years := YearLabels(movies);
      Some(OscarSeries(
        years,
        seq(|years|, i requires 0 <= i < |years| => TotalsFor(movies, years[i]).nominations),
        seq(|years|, i requires 0 <= i < |years| => TotalsFor(movies, years[i]).wins)))
  }

  /** The effect at OscarStatistics.jsx:41-58: nothing for an empty list;
      otherwise the `reduce` builds the per-year object, then the keys are
      sorted and the two data arrays read off the entries. */
  method ComputeOscarStats(movies: seq<Movie>) returns (r: Option<OscarSeries>)
    ensures r == SeriesOf(movies)
  {
    if |movies| == 0 {
      return None;
    }
    var acc, order := Accumulate(movies);
    var s := Chart(acc, order);
    ChartIsSeries(acc, order, movies, s);
    r := Some(s);
  }

  /** The `reduce`: an entry `{ nominations: 0, wins: 0 }` is created the
      first time a year is met and each movie's counts are added to it in
      place; `order` lists the keys in the order they were created. */
  method Accumulate(movies: seq<Movie>) returns (acc: map<string, Totals>, order: seq<string>)
    ensures Accumulated(acc, order, movies)
  {
    acc, order := map[], [];
    var i := 0;
    ghost var prefix: seq<Movie> := [];
    NothingAccumulated(prefix);
    while i < |movies|
      invariant 0 <= i <= |movies| && prefix == movies[..i]
      invariant Accumulated(acc, order, prefix)
    {
      var m := movies[i];
      acc, order := Reduce(acc, order, m, prefix);
      assert movies[..i + 1] == prefix + [m];
      prefix := prefix + [m];
      i := i + 1;
    }
    assert movies[..|movies|] == movies;
  }

  /** `acc` and its key order after the `reduce` has seen `prefix`. */
  ghost predicate Accumulated(acc: map<string, Totals>, order: seq<string>, prefix: seq<Movie>) {
    && order == Distinct(DatedKeys(prefix))
    && (forall k :: k in acc <==> k in order)
    && (forall k :: k in acc ==> acc[k] == TotalsFor(prefix, k))
  }

  /** One step of the `reduce`: a movie without a year is skipped. */
  method Reduce(acc: map<string, Totals>, order: seq<string>, m: Movie, ghost prefix: seq<Movie>)
    returns (acc': map<string, Totals>, order': seq<string>)
    requires Accumulated(acc, order, prefix)
    ensures Accumulated(acc', order', prefix + [m])
  {
    if m.year != 0 {
      acc', order' := AddToYear(acc, order, m);
      DatedStep(acc, order, prefix, m, acc', order');
    } else {
      acc', order' := acc, order;
      UndatedStep(acc, order, prefix, m);
    }
  }

  /** The body of the `reduce` for a movie with a year: the entry of its
      year is created (last in key order) when missing, then the movie's
      counts are added to it. */
  method AddToYear(acc: map<string, Totals>, order: seq<string>, m: Movie)
    returns (acc': map<string, Totals>, order': seq<string>)
    requires Dated(m)
    ensures acc' == acc[YearKey(m) := Plus(if YearKey(m) in acc then acc[YearKey(m)] else Totals(0, 0), Contribution(m))]
    ensures order' == if YearKey(m) in acc then order else order + [YearKey(m)]
  {
    var key := IntToDecimal(m.year);
    acc', order' := acc, order;
    if key !in acc' {
      acc' := acc'[key := Totals(0, 0)];
      order' := order' + [key];
    }
    var entry := acc'[key];
    acc' := acc'[key := Totals(entry.nominations + OrZero(m.oscarNominations),
                               entry.wins + OrZero(m.oscarWinning))];
    if key !in acc {
      Overwrite(acc, key, Totals(0, 0), Plus(Totals(0, 0), Contribution(m)));
    }
  }

  lemma Overwrite(acc: map<string, Totals>, key: string, x: Totals, y: Totals)
    ensures acc[key := x][key := y] == acc[key := y]
  {
  }

  lemma NothingAccumulated(prefix: seq<Movie>)
    requires prefix == []
    ensures Accumulated(map[], [], prefix)
  {
  }

  /** One step of the `reduce` on a movie without a year: nothing changes. */
  lemma UndatedStep(acc: map<string, Totals>, order: seq<string>, prefix: seq<Movie>, m: Movie)
    requires Accumulated(acc, order, prefix) && !Dated(m)
    ensures Accumulated(acc, order, prefix + [m])
  {
    DatedKeysSnoc(prefix, m);
    assert DatedKeys(prefix) + [] == DatedKeys(prefix);
    forall k | k in acc ensures acc[k] == TotalsFor(prefix + [m], k) {
      TotalsForSnoc(prefix, m, k);
    }
  }

  /** One step of the `reduce` on a dated movie: its counts are added to
      the entry of its year, which is created (last in key order) when
      missing. */
  lemma DatedStep(acc: map<string, Totals>, order: seq<string>, prefix: seq<Movie>, m: Movie,
                  acc': map<string, Totals>, order': seq<string>)
    requires Accumulated(acc, order, prefix) && Dated(m)
    requires acc' == acc[YearKey(m) := Plus(if YearKey(m) in acc then acc[YearKey(m)] else Totals(0, 0), Contribution(m))]
    requires order' == if YearKey(m) in acc then order else order + [YearKey(m)]
    ensures Accumulated(acc', order', prefix + [m])
  {
    DatedStepKeys(order, prefix, m);
    if YearKey(m) !in acc {
      TotalsForAbsent(prefix, YearKey(m));
    }
    DatedStepTotals(acc, prefix, m, acc');
    DatedStepMembers(acc, order, YearKey(m), acc', order');
  }

  lemma DatedStepTotals(acc: map<string, Totals>, prefix: seq<Movie>, m: Movie, acc': map<string, Totals>)
    requires Dated(m)
    requires forall k :: k in acc ==> acc[k] == TotalsFor(prefix, k)
    requires YearKey(m) !in acc ==> TotalsFor(prefix, YearKey(m)) == Totals(0, 0)
    requires acc' == acc[YearKey(m) := Plus(if YearKey(m) in acc then acc[YearKey(m)] else Totals(0, 0), Contribution(m))]
    ensures forall k :: k in acc' ==> acc'[k] == TotalsFor(prefix + [m], k)
  {
    forall k | k in acc' ensures acc'[k] == TotalsFor(prefix + [m], k) {
      TotalsForSnoc(prefix, m, k);
      if k == YearKey(m) {
        DatedStepAt(if k in acc then acc[k] else Totals(0, 0), TotalsFor(prefix, k), m, acc'[k]);
      }
    }
  }

  lemma DatedStepAt(entry: Totals, before: Totals, m: Movie, after: Totals)
    requires entry == before && after == Plus(entry, Contribution(m))
    ensures after == Plus(before, Contribution(m))
  {
  }

  lemma DatedStepMembers(acc: map<string, Totals>, order: seq<string>, key: string, acc': map<string, Totals>, order': seq<string>)
    requires forall k :: k in acc <==> k in order
    requires key in acc' && forall k :: k != key ==> (k in acc' <==> k in acc)
    requires order' == if key in acc then order else order + [key]
    ensures forall k :: k in acc' <==> k in order'
  {
  }

  lemma DatedKeysSnoc(prefix: seq<Movie>, m: Movie)
    ensures DatedKeys(prefix + [m]) == DatedKeys(prefix) + (if Dated(m) then [YearKey(m)] else [])
  {
    assert (prefix + [m])[..|prefix|] == prefix;
  }

  lemma TotalsForSnoc(prefix: seq<Movie>, m: Movie, k: string)
    ensures TotalsFor(prefix + [m], k) ==
      if Dated(m) && YearKey(m) == k then Plus(TotalsFor(prefix, k), Contribution(m)) else TotalsFor(prefix, k)
  {
    assert (prefix + [m])[..|prefix|] == prefix;
  }

  lemma DatedStepKeys(order: seq<string>, prefix: seq<Movie>, m: Movie)
    requires Dated(m) && order == Distinct(DatedKeys(prefix))
    ensures (if YearKey(m) in order then order else order + [YearKey(m)]) == Distinct(DatedKeys(prefix + [m]))
  {
    var ks := DatedKeys(prefix);
    DatedKeysSnoc(prefix, m);
    assert (ks + [YearKey(m)])[..|ks|] == ks;
  }

  /** A year no dated movie has totals nothing. */
  lemma {:induction false} TotalsForAbsent(movies: seq<Movie>, key: string)
    requires key !in DatedKeys(movies)
    ensures TotalsFor(movies, key) == Totals(0, 0)
  {
    if movies != [] {
      var n := |movies| - 1;
      var ks := DatedKeys(movies[..n]);
      assert forall k :: k in ks ==> k in DatedKeys(movies);
      TotalsForAbsent(movies[..n], key);
    }
  }

  /** The sorted keys and the two `map`s over them. */
  method Chart(acc: map<string, Totals>, keys: seq<string>) returns (s: OscarSeries)
    requires forall k :: k in keys ==> k in acc
    ensures s.years == Sort(keys, StrCompare)
    ensures |s.nominations| == |s.wins| == |s.years|
    ensures forall j :: 0 <= j < |s.years| ==>
      s.years[j] in acc && s.nominations[j] == acc[s.years[j]].nominations && s.wins[j] == acc[s.years[j]].wins
  {
    StrCompareConsistent();
    var years := SortedCopy(keys, StrCompare);
    SortPermutes(keys, StrCompare);
    forall j | 0 <= j < |years| ensures years[j] in acc {
      assert years[j] in multiset(years);
      assert years[j] in keys;
    }
    var nominations := seq(|years|, j requires 0 <= j < |years| && years[j] in acc => acc[years[j]].nominations);
    var wins := seq(|years|, j requires 0 <= j < |years| && years[j] in acc => acc[years[j]].wins);
    s := OscarSeries(years, nominations, wins);
  }

  /** The chart built from the accumulated object is the specified series. */
  lemma ChartIsSeries(acc: map<string, Totals>, order: seq<string>, movies: seq<Movie>, s: OscarSeries)
    requires movies != [] && Accumulated(acc, order, movies)
    requires s.years == Sort(order, StrCompare)
    requires |s.nominations| == |s.wins| == |s.years|
    requires forall j :: 0 <= j < |s.years| ==>
      s.years[j] in acc && s.nominations[j] == acc[s.years[j]].nominations && s.wins[j] == acc[s.years[j]].wins
    ensures Some(s) == SeriesOf(movies)
  {
    var years := YearLabels(movies);
    assert s.years == years;
    var noms := seq(|years|, i requires 0 <= i < |years| => TotalsFor(movies, years[i]).nominations);
    var wins := seq(|years|, i requires 0 <= i < |years| => TotalsFor(movies, years[i]).wins);
    assert s.nominations == noms;
    assert s.wins == wins;
  }

  /** Two lists sorted by `StrCompare` that hold the same strings are the
      same list: `StrCompare` ties only equal strings. */
  lemma {:induction false} SortedStringsUnique(a: seq<string>, b: seq<string>)
    requires Sorted(a, StrCompare) && Sorted(b, StrCompare)
    requires multiset(a) == multiset(b)
    ensures a == b
  {
    if a == [] {
      assert |b| == |multiset(b)| == 0;
    } else {
      assert |b| == |multiset(b)| == |a| > 0;
      assert a[0] in multiset(b) && b[0] in multiset(a);
      HeadIsLeast(a, b[0]);
      HeadIsLeast(b, a[0]);
      StrCompareFlip(a[0], b[0]);
      TailMultiset(a, b);
      SortedTail(a);
      SortedTail(b);
      SortedStringsUnique(a[1..], b[1..]);
      assert a == [a[0]] + a[1..] && b == [b[0]] + b[1..];
    }
  }

  lemma HeadIsLeast(a: seq<string>, x: string)
    requires Sorted(a, StrCompare) && x in a
    ensures StrCompare(a[0], x) <= 0
  {
    var i :| 0 <= i < |a| && a[i] == x;
    if i > 0 {
      assert StrCompare(a[0], a[i]) <= 0;
    }
  }

  lemma TailMultiset(a: seq<string>, b: seq<string>)
    requires a != [] && b != [] && a[0] == b[0] && multiset(a) == multiset(b)
    ensures multiset(a[1..]) == multiset(b[1..])
  {
    assert a == [a[0]] + a[1..];
    assert b == [b[0]] + b[1..];
    assert multiset(a) == multiset{a[0]} + multiset(a[1..]);
    assert multiset(b) == multiset{a[0]} + multiset(b[1..]);
    forall x ensures multiset(a[1..])[x] == multiset(b[1..])[x] {
      assert multiset(a)[x] == multiset(b)[x];
    }
  }

  lemma SortedTail(a: seq<string>)
    requires a != [] && Sorted(a, StrCompare)
    ensures Sorted(a[1..], StrCompare)
  {
    forall i, j | 0 <= i < j < |a[1..]| ensures StrCompare(a[1..][i], a[1..][j]) <= 0 {
      assert a[1..][i] == a[i + 1] && a[1..][j] == a[j + 1];
    }
  }

  /** Whatever order the object enumerates its keys in, sorting them gives
      the same labels. */
  lemma LabelsIgnoreKeyOrder(movies: seq<Movie>, keys: seq<string>)
    requires multiset(keys) == multiset(Distinct(DatedKeys(movies)))
    ensures Sort(keys, StrCompare) == YearLabels(movies)
  {
    StrCompareConsistent();
    SortSorted(keys, StrCompare);
    SortSorted(Distinct(DatedKeys(movies)), StrCompare);
    SortPermutes(keys, StrCompare);
    SortPermutes(Distinct(DatedKeys(movies)), StrCompare);
    SortedStringsUnique(Sort(keys, StrCompare), YearLabels(movies));
  }

  /** Nothing is drawn for an empty list; otherwise the three arrays are
      aligned, and the years are distinct and strictly increasing in
      `sort()` order. */
  lemma SeriesShape(movies: seq<Movie>)
    ensures SeriesOf(movies).None? <==> movies == []
    ensures SeriesOf(movies).Some? ==>
      var s := SeriesOf(movies).value;
      && |s.years| == |s.nominations| == |s.wins|
      && (forall i, j :: 0 <= i < j < |s.years| ==> StrCompare(s.years[i], s.years[j]) < 0)
  {
    if movies != [] {
      var d := Distinct(DatedKeys(movies));
      var years := YearLabels(movies);
      StrCompareConsistent();
      SortSorted(d, StrCompare);
      SortKeepsDistinct(d, StrCompare);
      forall i, j | 0 <= i < j < |years| ensures StrCompare(years[i], years[j]) < 0 {
        assert StrCompare(years[i], years[j]) <= 0;
        assert years[i] != years[j];
      }
    }
  }

  /** Every dated movie's year is among the keys. */
  lemma {:induction false} DatedKeyOf(movies: seq<Movie>, i: nat)
    requires i < |movies| && Dated(movies[i])
    ensures YearKey(movies[i]) in DatedKeys(movies)
  {
    var n := |movies| - 1;
    if i < n {
      assert movies[..n][i] == movies[i];
      DatedKeyOf(movies[..n], i);
    }
  }

  /** Every key is the year of some dated movie. */
  lemma {:induction false} DatedKeySource(movies: seq<Movie>, key: string) returns (i: nat)
    requires key in DatedKeys(movies)
    ensures i < |movies| && Dated(movies[i]) && YearKey(movies[i]) == key
  {
    var n := |movies| - 1;
    if Dated(movies[n]) && YearKey(movies[n]) == key {
      i := n;
    } else {
      i := DatedKeySource(movies[..n], key);
      assert movies[..n][i] == movies[i];
    }
  }

  /** A year has a bar exactly when some dated movie was released in it. */
  lemma SeriesYears(movies: seq<Movie>, key: string)
    requires movies != []
    ensures key in SeriesOf(movies).value.years <==>
      exists i :: 0 <= i < |movies| && Dated(movies[i]) && YearKey(movies[i]) == key
  {
    var d := Distinct(DatedKeys(movies));
    SortPermutes(d, StrCompare);
    assert key in multiset(YearLabels(movies)) <==> key in multiset(d);
    if key in d {
      var i := DatedKeySource(movies, key);
    }
    if exists i :: 0 <= i < |movies| && Dated(movies[i]) && YearKey(movies[i]) == key {
      var i :| 0 <= i < |movies| && Dated(movies[i]) && YearKey(movies[i]) == key;
      DatedKeyOf(movies, i);
    }
  }

  /** Totals over a list of distinct keys. */
  function TotalsOver(keys: seq<string>, movies: seq<Movie>): Totals {
    if keys == [] then Totals(0, 0) else Plus(TotalsFor(movies, keys[0]), TotalsOver(keys[1..], movies))
  }

  lemma {:induction false} TotalsOverEmpty(keys: seq<string>)
    ensures TotalsOver(keys, []).nominations == 0 && TotalsOver(keys, []).wins == 0
  {
    if keys != [] {
      TotalsOverEmpty(keys[1..]);
    }
  }

  /** What a movie adds to the totals over `keys`: its contribution when
      it is dated and its year is one of them, nothing otherwise. */
  function Share(m: Movie, keys: seq<string>): Totals {
    if Dated(m) && YearKey(m) in keys then Contribution(m) else Totals(0, 0)
  }

  /** Adding one movie to the list adds its share to the totals over
      distinct keys: it counts under at most one of them. */
  lemma {:induction false} TotalsOverSnoc(keys: seq<string>, movies: seq<Movie>, m: Movie)
    requires NoDuplicates(keys)
    ensures TotalsOver(keys, movies + [m]).nominations == TotalsOver(keys, movies).nominations + Share(m, keys).nominations
    ensures TotalsOver(keys, movies + [m]).wins == TotalsOver(keys, movies).wins + Share(m, keys).wins
  {
    if keys != [] {
      assert (movies + [m])[..|movies|] == movies;
      assert NoDuplicates(keys[1..]) by {
        forall i, j | 0 <= i < j < |keys[1..]| ensures keys[1..][i] != keys[1..][j] {
          assert keys[1..][i] == keys[i + 1] && keys[1..][j] == keys[j + 1];
        }
      }
      assert keys[0] !in keys[1..] by {
        forall i | 0 <= i < |keys[1..]| ensures keys[1..][i] != keys[0] {
          assert keys[1..][i] == keys[i + 1];
        }
      }
      assert YearKey(m) in keys <==> YearKey(m) == keys[0] || YearKey(m) in keys[1..] by {
        assert keys == [keys[0]] + keys[1..];
      }
      TotalsOverSnoc(keys[1..], movies, m);
    }
  }

  /** Distinct keys that cover every dated movie's year add up to the
      totals of all dated movies. */
  lemma {:induction false} TotalsOverCover(keys: seq<string>, movies: seq<Movie>)
    requires NoDuplicates(keys)
    requires forall i :: 0 <= i < |movies| && Dated(movies[i]) ==> YearKey(movies[i]) in keys
    ensures TotalsOver(keys, movies).nominations == DatedTotal(movies).nominations
    ensures TotalsOver(keys, movies).wins == DatedTotal(movies).wins
  {
    if movies == [] {
      TotalsOverEmpty(keys);
    } else {
      var n := |movies| - 1;
      var init, last := movies[..n], movies[n];
      assert movies == init + [last];
      TotalsOverCover(keys, init);
      TotalsOverSnoc(keys, init, last);
    }
  }

  /** The bars' nominations and wins add up to the totals over their years. */
  lemma {:induction false} SumOfBars(movies: seq<Movie>, years: seq<string>, noms: seq<int>, wins: seq<int>)
    requires |noms| == |wins| == |years|
    requires forall i :: 0 <= i < |years| ==>
      noms[i] == TotalsFor(movies, years[i]).nominations && wins[i] == TotalsFor(movies, years[i]).wins
    ensures TotalsOver(years, movies).nominations == Sum(noms)
    ensures TotalsOver(years, movies).wins == Sum(wins)
  {
    if years != [] {
      forall i | 0 <= i < |years[1..]|
        ensures noms[1..][i] == TotalsFor(movies, years[1..][i]).nominations
        ensures wins[1..][i] == TotalsFor(movies, years[1..][i]).wins
      {
        assert years[1..][i] == years[i + 1];
      }
      SumOfBars(movies, years[1..], noms[1..], wins[1..]);
    }
  }

  /** The bars add up to all nominations and all wins of the dated movies. */
  lemma SeriesSums(movies: seq<Movie>)
    requires movies != []
    ensures Sum(SeriesOf(movies).value.nominations) == DatedTotal(movies).nominations
    ensures Sum(SeriesOf(movies).value.wins) == DatedTotal(movies).wins
  {
    var s := SeriesOf(movies).value;
    YearsCoverDated(movies, s.years);
    TotalsOverCover(s.years, movies);
    SumOfBars(movies, s.years, s.nominations, s.wins);
  }

  /** The years on the chart are distinct and include every dated movie's. */
  lemma YearsCoverDated(movies: seq<Movie>, years: seq<string>)
    requires years == YearLabels(movies)
    ensures NoDuplicates(years)
    ensures forall i :: 0 <= i < |movies| && Dated(movies[i]) ==> YearKey(movies[i]) in years
  {
    var d := Distinct(DatedKeys(movies));
    StrCompareConsistent();
    SortKeepsDistinct(d, StrCompare);
    SortPermutes(d, StrCompare);
    forall i | 0 <= i < |movies| && Dated(movies[i]) ensures YearKey(movies[i]) in years {
      DatedKeyOf(movies, i);
      assert YearKey(movies[i]) in multiset(d);
    }
  }

  /** A movie without a year changes nothing. */
  lemma UndatedIgnored(movies: seq<Movie>, m: Movie)
    requires movies != [] && !Dated(m)
    ensures SeriesOf(movies + [m]) == SeriesOf(movies)
  {
    DatedKeysSnoc(movies, m);
    assert DatedKeys(movies) + [] == DatedKeys(movies);
    var years := YearLabels(movies);
    forall i | 0 <= i < |years| ensures TotalsFor(movies + [m], years[i]) == TotalsFor(movies, years[i]) {
      TotalsForSnoc(movies, m, years[i]);
    }
    SameSeries(movies + [m], movies, years);
  }

  /** Two lists with the same years and the same totals in each draw the
      same chart. */
  lemma SameSeries(a: seq<Movie>, b: seq<Movie>, years: seq<string>)
    requires a != [] && b != []
    requires YearLabels(a) == years && YearLabels(b) == years
    requires forall i :: 0 <= i < |years| ==> TotalsFor(a, years[i]) == TotalsFor(b, years[i])
    ensures SeriesOf(a) == SeriesOf(b)
  {
    var sa, sb := SeriesOf(a).value, SeriesOf(b).value;
    assert |sa.nominations| == |sb.nominations| == |years|;
    forall i | 0 <= i < |years|
      ensures sa.nominations[i] == sb.nominations[i] && sa.wins[i] == sb.wins[i]
    {
    }
    assert sa.nominations == sb.nominations;
    assert sa.wins == sb.wins;
  }

  /** The records the component tests render: 1972 with The Godfather's
      three wins, then 1994; neither record has a nomination count. */
  lemma MockSeries()
    ensures SeriesOf(MockMovies()) == Some(OscarSeries(["1972", "1994"], [0, 0], [3, 0]))
  {
    MockSeriesOf(MockMovies());
  }

  lemma MockSeriesOf(ms: seq<Movie>)
    requires ms == MockMovies()
    ensures SeriesOf(ms) == Some(OscarSeries(["1972", "1994"], [0, 0], [3, 0]))
  {
    MockKeys(ms);
    var ks := DatedKeys(ms);
    MockDistinct(ks);
    MockYears(Distinct(ks));
    assert ms == [ms[0], ms[1]];
    MockTotals(ms[0], ms[1]);
    SeriesOfTwo(ms, "1972", "1994");
  }

  lemma SeriesOfTwo(movies: seq<Movie>, y0: string, y1: string)
    requires movies != [] && YearLabels(movies) == [y0, y1]
    ensures SeriesOf(movies).Some? && SeriesOf(movies).value.years == [y0, y1]
    ensures SeriesOf(movies).value.nominations == [TotalsFor(movies, y0).nominations, TotalsFor(movies, y1).nominations]
    ensures SeriesOf(movies).value.wins == [TotalsFor(movies, y0).wins, TotalsFor(movies, y1).wins]
  {
    var s := SeriesOf(movies).value;
    assert |s.nominations| == 2 && s.nominations[0] == TotalsFor(movies, y0).nominations && s.nominations[1] == TotalsFor(movies, y1).nominations;
    assert |s.wins| == 2 && s.wins[0] == TotalsFor(movies, y0).wins && s.wins[1] == TotalsFor(movies, y1).wins;
  }

  lemma YearText(m: Movie, text: string)
    requires (m.year == 1994 && text == "1994") || (m.year == 1972 && text == "1972")
    ensures YearKey(m) == text
  {
    assert NatToDecimal(19) == NatToDecimal(1) + ['9'];
    if m.year == 1994 {
      assert NatToDecimal(199) == NatToDecimal(19) + ['9'];
      assert NatToDecimal(1994) == NatToDecimal(199) + ['4'];
    } else {
      assert NatToDecimal(197) == NatToDecimal(19) + ['7'];
      assert NatToDecimal(1972) == NatToDecimal(197) + ['2'];
    }
  }

  lemma MockKeys(ms: seq<Movie>)
    requires ms == MockMovies()
    ensures YearKey(ms[0]) == "1994" && YearKey(ms[1]) == "1972"
    ensures DatedKeys(ms) == ["1994", "1972"]
  {
    YearText(ms[0], "1994");
    YearText(ms[1], "1972");
    assert [ms[0]] == [] + [ms[0]];
    DatedKeysSnoc([], ms[0]);
    assert ms == [ms[0]] + [ms[1]];
    DatedKeysSnoc([ms[0]], ms[1]);
  }

  lemma MockDistinct(ks: seq<string>)
    requires ks == ["1994", "1972"]
    ensures Distinct(ks) == ks
  {
    assert ks[..1] == ["1994"] && ks[..1][..0] == [];
  }

  lemma MockTotals(a: Movie, b: Movie)
    requires Dated(a) && YearKey(a) == "1994" && a.oscarNominations == None && a.oscarWinning == Some(0)
    requires Dated(b) && YearKey(b) == "1972" && b.oscarNominations == None && b.oscarWinning == Some(3)
    ensures TotalsFor([a, b], "1972").nominations == 0 && TotalsFor([a, b], "1972").wins == 3
    ensures TotalsFor([a, b], "1994").nominations == 0 && TotalsFor([a, b], "1994").wins == 0
  {
    assert "1994" != "1972" by { assert "1994"[2] != "1972"[2]; }
    TotalsForPair(a, b, "1972");
    TotalsForPair(a, b, "1994");
  }

  /** Two movies of different years: each year totals its own movie. */
  lemma TotalsForPair(a: Movie, b: Movie, k: string)
    requires Dated(a) && Dated(b) && YearKey(a) != YearKey(b)
    requires k == YearKey(a) || k == YearKey(b)
    ensures var c := if k == YearKey(a) then a else b;
      TotalsFor([a, b], k).nominations == OrZero(c.oscarNominations) &&
      TotalsFor([a, b], k).wins == OrZero(c.oscarWinning)
  {
    assert [a] == [] + [a];
    assert [a, b] == [a] + [b];
    TotalsForSnoc([], a, k);
    TotalsForSnoc([a], b, k);
  }

  lemma MockYears(keys: seq<string>)
    requires keys == ["1994", "1972"]
    ensures Sort(keys, StrCompare) == ["1972", "1994"]
  {
    assert keys[..1] == [keys[0]] && keys[..1][..0] == [];
    assert Sort(keys[..1], StrCompare) == [keys[0]];
    assert StrCompare(keys[0], keys[1]) == 1 by {
      assert keys[0][1..] == "994" && keys[1][1..] == "972";
      assert StrCompare("994", "972") == 1 by {
        assert "994"[1..] == "94" && "972"[1..] == "72";
      }
    }
    assert Insert([keys[0]], keys[1], StrCompare) == [keys[1], keys[0]];
  }
}
