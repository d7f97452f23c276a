/** The bar chart over the filtered movies: four histograms (rating bands,
    genres, years, Oscar nominations) and the chart-type switch that picks
    one of them. */
module FilteredMoviesChart {
  import opened Seqs
  import opened Sorting
  import opened Decimal
  import opened Counting
  import opened Movies

  /** A bar chart's `labels` and its one dataset's `data`. */
  datatype ChartData = ChartData(labels: seq<string>, data: seq<int>)

  /** `movies.filter(p).length` */
  function CountWhere(movies: seq<Movie>, p: Movie -> bool): (n: nat)
    ensures n <= |movies|
  {
    if movies == [] then 0
    else CountWhere(movies[..|movies| - 1], p) + (if p(movies[|movies| - 1]) then 1 else 0)
  }

  lemma SumOfFive(s: seq<int>)
    requires |s| == 5
    ensures Sum(s) == s[0] + s[1] + s[2] + s[3] + s[4]
  {
    SumOfFour(s[1..]);
  }

  lemma SumOfFour(s: seq<int>)
    requires |s| == 4
    ensures Sum(s) == s[0] + s[1] + s[2] + s[3]
  {
    var t := s[3..];
    assert t[1..] == [];
    assert Sum(t) == s[3];
    assert s[2..][1..] == t;
    assert Sum(s[2..]) == s[2] + s[3];
    assert s[1..][1..] == s[2..];
    assert Sum(s[1..]) == s[1] + s[2] + s[3];
  }

  // Rating histogram

  const RatingLabels: seq<string> := ["9.0+", "8.0-8.9", "7.0-7.9", "6.0-6.9", "< 6.0"]

  predicate Rated9Plus(m: Movie) { m.imdbRating >= 9.0 }
  predicate Rated8s(m: Movie) { m.imdbRating >= 8.0 && m.imdbRating < 9.0 }
  predicate Rated7s(m: Movie) { m.imdbRating >= 7.0 && m.imdbRating < 8.0 }
  predicate Rated6s(m: Movie) { m.imdbRating >= 6.0 && m.imdbRating < 7.0 }
  predicate RatedBelow6(m: Movie) { m.imdbRating < 6.0 }

  /** `prepareRatingsData` */
  function RatingsData(movies: seq<Movie>): ChartData {
    ChartData(RatingLabels,
      [ CountWhere(movies, Rated9Plus), CountWhere(movies, Rated8s), CountWhere(movies, Rated7s),
        CountWhere(movies, Rated6s), CountWhere(movies, RatedBelow6) ])
  }

  /** The five rating bands split the movies: every movie is counted in
      exactly one bar, so the bars add up to the number of movies. */
  lemma {:induction false} RatingsPartition(movies: seq<Movie>)
    ensures |RatingsData(movies).labels| == |RatingsData(movies).data| == 5
    ensures Sum(RatingsData(movies).data) == |movies|
  {
    SumOfFive(RatingsData(movies).data);
    if movies != [] {
      RatingsPartition(movies[..|movies| - 1]);
      SumOfFive(RatingsData(movies[..|movies| - 1]).data);
    }
  }

  // Oscar nomination histogram

  const OscarLabels: seq<string> := ["No Nominations", "1-2 Nominations", "3-5 Nominations", "6+ Nominations"]

  /** `m.oscar_nominations === 0`: a missing count is not 0 here. */
  predicate NoNominations(m: Movie) { m.oscarNominations == Some(0) }

  /** A comparison with a missing count is false. */
  predicate NominatedBetween(m: Movie, lo: int, hi: int) {
    m.oscarNominations.Some? && lo <= m.oscarNominations.value <= hi
  }

  predicate OneOrTwo(m: Movie) { NominatedBetween(m, 1, 2) }
  predicate ThreeToFive(m: Movie) { NominatedBetween(m, 3, 5) }
  predicate SixOrMore(m: Movie) { m.oscarNominations.Some? && m.oscarNominations.value >= 6 }

  /** `prepareOscarData` */
  function OscarData(movies: seq<Movie>): ChartData {
    ChartData(OscarLabels,
      [ CountWhere(movies, NoNominations), CountWhere(movies, OneOrTwo),
        CountWhere(movies, ThreeToFive), CountWhere(movies, SixOrMore) ])
  }

  /** A movie has a nomination count the buckets can place. */
  predicate HasBucket(m: Movie) {
    m.oscarNominations.Some? && m.oscarNominations.value >= 0
  }

  /** The four nomination buckets never count a movie twice; they add up to
      the number of movies exactly when every movie has a count of at least
      zero. A movie whose count is missing is in no bucket. */
  lemma {:induction false} OscarBuckets(movies: seq<Movie>)
    ensures |OscarData(movies).labels| == |OscarData(movies).data| == 4
    ensures Sum(OscarData(movies).data) <= |movies|
    ensures Sum(OscarData(movies).data) == |movies| <==> forall m :: m in movies ==> HasBucket(m)
  {
    if movies == [] {
      SumOfFour(OscarData(movies).data);
    } else {
      OscarBuckets(movies[..|movies| - 1]);
      OscarSnoc(movies);
      AllBucketedSnoc(movies);
    }
  }

  /** The last movie adds one to the buckets' sum when it has a bucket. */
  lemma OscarSnoc(movies: seq<Movie>)
    requires movies != []
    ensures Sum(OscarData(movies).data) ==
      Sum(OscarData(movies[..|movies| - 1]).data) + (if HasBucket(movies[|movies| - 1]) then 1 else 0)
  {
    SumOfFour(OscarData(movies).data);
    SumOfFour(OscarData(movies[..|movies| - 1]).data);
  }

  lemma AllBucketedSnoc(movies: seq<Movie>)
    requires movies != []
    ensures (forall x :: x in movies ==> HasBucket(x)) <==>
      (forall x :: x in movies[..|movies| - 1] ==> HasBucket(x)) && HasBucket(movies[|movies| - 1])
  {
    assert movies == movies[..|movies| - 1] + [movies[|movies| - 1]];
  }

  /** A movie without a nomination count adds to no bar. */
  lemma MissingNominationsUncounted(movies: seq<Movie>, m: Movie)
    requires m.oscarNominations.None?
    ensures OscarData(movies + [m]).data == OscarData(movies).data
  {
    assert (movies + [m])[..|movies|] == movies;
  }

  // Genre histogram

  /** The ten most frequent genres: the genre counts in first-seen order,
      sorted by count, largest first, then cut to ten. */
  function GenreRanking(movies: seq<Movie>): seq<Entry<string>> {
    TopN(Tally(Flatten(GenreLists(movies))), ByCountDesc, 10)
  }

  function EntriesChart(t: seq<Entry<string>>): ChartData {
    ChartData(Keys(t), Counts(t))
  }

  /** `prepareGenreData`: count every genre of every movie into an object,
      sort its entries by count and keep the first ten. */
  method PrepareGenreData(movies: seq<Movie>) returns (d: ChartData)
    ensures d == EntriesChart(GenreRanking(movies))
  {
    var counts := CountLists(GenreLists(movies));
    ByCountDescConsistent<string>();
    var sorted := SortedCopy(counts, ByCountDesc);
    d := EntriesChart(Take(sorted, 10));
  }

  /** The genre bars: at most ten, one per genre, each the number of
      occurrences of that genre across all movies' genre lists, tallest
      first, equal bars in the order the genres were first met, and no
      genre left out that occurs more often than the last bar. */
  lemma GenreChartFacts(movies: seq<Movie>)
    ensures var d := EntriesChart(GenreRanking(movies));
      && |d.labels| == |d.data| <= 10
      && NoDuplicates(d.labels)
      && (forall i :: 0 <= i < |d.labels| ==> d.data[i] == CountInLists(GenreLists(movies), d.labels[i]) >= 1)
      && (forall i, j :: 0 <= i < j < |d.data| ==> d.data[i] >= d.data[j])
    ensures var d := EntriesChart(GenreRanking(movies));
      forall g :: (exists m :: m in movies && g in m.genre) && g !in d.labels ==>
        0 < |d.data| && CountInLists(GenreLists(movies), g) <= d.data[|d.data| - 1]
    ensures forall z :: Ties(GenreRanking(movies), z, ByCountDesc) <=
                        Ties(Tally(Flatten(GenreLists(movies))), z, ByCountDesc)
    ensures var d := EntriesChart(GenreRanking(movies));
      && (forall i :: 0 <= i < |d.labels| ==> d.labels[i] in Flatten(GenreLists(movies)))
      && (forall i, j :: 0 <= i < j < |d.data| && d.data[i] == d.data[j] ==>
            FirstIndex(Flatten(GenreLists(movies)), d.labels[i]) < FirstIndex(Flatten(GenreLists(movies)), d.labels[j]))
  {
    GenreBars(movies);
    GenreLeftOut(movies);
    TopTallyFacts(Flatten(GenreLists(movies)), 10);
    GenreTies(movies);
  }

  /** The genre bars: at most ten, one per genre, each its number of
      occurrences, tallest first. */
  lemma GenreBars(movies: seq<Movie>)
    ensures var d := EntriesChart(GenreRanking(movies));
      && |d.labels| == |d.data| <= 10
      && NoDuplicates(d.labels)
      && (forall i :: 0 <= i < |d.labels| ==> d.data[i] == CountInLists(GenreLists(movies), d.labels[i]) >= 1)
      && (forall i, j :: 0 <= i < j < |d.data| ==> d.data[i] >= d.data[j])
  {
    var lists := GenreLists(movies);
    var r := GenreRanking(movies);
    TopTallyFacts(Flatten(lists), 10);
    forall i | 0 <= i < |r| ensures r[i].count == CountInLists(lists, r[i].key) >= 1 {
      assert r[i] in r;
      CountFlatten(lists, r[i].key);
    }
  }

  /** No genre left out occurs more often than the last bar. */
  lemma GenreLeftOut(movies: seq<Movie>)
    ensures var d := EntriesChart(GenreRanking(movies));
      forall g :: (exists m :: m in movies && g in m.genre) && g !in d.labels ==>
        0 < |d.data| && CountInLists(GenreLists(movies), g) <= d.data[|d.data| - 1]
  {
    var lists := GenreLists(movies);
    var flat := Flatten(lists);
    var r := GenreRanking(movies);
    TopTallyFacts(flat, 10);
    forall g | (exists m :: m in movies && g in m.genre) && g !in Keys(r)
      ensures 0 < |r| && CountInLists(lists, g) <= r[|r| - 1].count
    {
      var m :| m in movies && g in m.genre;
      var i :| 0 <= i < |movies| && movies[i] == m;
      FlattenMember(lists, g);
      assert g in lists[i];
      CountFlatten(lists, g);
      assert |Distinct(flat)| > 0 by {
        assert g in Distinct(flat);
      }
    }
  }

  /** Equal genre bars come in the order their genres were first met. */
  lemma GenreTies(movies: seq<Movie>)
    ensures var d := EntriesChart(GenreRanking(movies));
      && (forall i :: 0 <= i < |d.labels| ==> d.labels[i] in Flatten(GenreLists(movies)))
      && (forall i, j :: 0 <= i < j < |d.data| && d.data[i] == d.data[j] ==>
            FirstIndex(Flatten(GenreLists(movies)), d.labels[i]) < FirstIndex(Flatten(GenreLists(movies)), d.labels[j]))
  {
    var flat := Flatten(GenreLists(movies));
    var r := GenreRanking(movies);
    TopTallyTieOrder(flat, 10);
    forall i | 0 <= i < |r| ensures r[i].key in flat {
      assert r[i] in r;
    }
  }

  // Year histogram

  /** `([a], [b]) => a - b` on year keys: `a - b` turns the key strings
      back into the years they print, so this orders by year. */
  function ByYearAsc(a: Entry<int>, b: Entry<int>): int { a.key - b.key }

  lemma ByYearAscConsistent()
    ensures Consistent(ByYearAsc)
  {
    forall a: Entry<int>, b: Entry<int>, c: Entry<int> ensures Chain(ByYearAsc, a, b, c) {
    }
  }

  function YearRanking(movies: seq<Movie>): seq<Entry<int>> {
    Sort(Tally(Years(movies)), ByYearAsc)
  }

  function YearLabels(t: seq<Entry<int>>): (ls: seq<string>)
    ensures |ls| == |t|
  {
    seq(|t|, i requires 0 <= i < |t| => IntToDecimal(t[i].key))
  }

  /** `prepareYearData`: count every movie's year into an object, then sort
      its entries by year. */
  method PrepareYearData(movies: seq<Movie>) returns (d: ChartData)
    ensures d == YearChart(movies)
  {
    var counts := CountValues(Years(movies));
    ByYearAscConsistent();
    var sorted := SortedCopy(counts, ByYearAsc);
    d := ChartData(YearLabels(sorted), Counts(sorted));
  }

  lemma YearRankingFacts(movies: seq<Movie>)
    ensures var r := YearRanking(movies);
      && (forall i, j :: 0 <= i < j < |r| ==> r[i].key < r[j].key)
      && (forall e :: e in r ==> e.count == Count(Years(movies), e.key))
      && (forall y :: y in Keys(r) <==> y in Years(movies))
      && SumCounts(r) == |movies|
  {
    var t := Tally(Years(movies));
    var r := Sort(t, ByYearAsc);
    TallyFacts(Years(movies));
    ByYearAscConsistent();
    SortSorted(t, ByYearAsc);
    SortKeepsKeysDistinct(t, ByYearAsc);
    SumCountsSort(t, ByYearAsc);
    SortPermutes(t, ByYearAsc);
    forall i, j | 0 <= i < j < |r| ensures r[i].key < r[j].key {
      assert ByYearAsc(r[i], r[j]) <= 0;
      assert Keys(r)[i] != Keys(r)[j];
    }
    forall e | e in r ensures e.count == Count(Years(movies), e.key) {
      assert e in multiset(r);
    }
  }

  /** The labels of year entries in increasing year order read back as
      those years, so they are distinct and increasing too. */
  lemma YearLabelsFacts(r: seq<Entry<int>>)
    requires forall i, j :: 0 <= i < j < |r| ==> r[i].key < r[j].key
    ensures forall i :: 0 <= i < |r| ==> DecimalValue(YearLabels(r)[i]) == r[i].key
    ensures forall i, j :: 0 <= i < j < |r| ==> DecimalValue(YearLabels(r)[i]) < DecimalValue(YearLabels(r)[j])
    ensures NoDuplicates(YearLabels(r))
  {
    forall i | 0 <= i < |r| ensures DecimalValue(YearLabels(r)[i]) == r[i].key {
      IntToDecimalRoundTrip(r[i].key);
    }
  }

  lemma YearLabelsCover(movies: seq<Movie>, r: seq<Entry<int>>)
    requires forall y :: y in Keys(r) <==> y in Years(movies)
    ensures forall m :: m in movies ==> IntToDecimal(m.year) in YearLabels(r)
  {
    forall m | m in movies ensures IntToDecimal(m.year) in YearLabels(r) {
      var k :| 0 <= k < |movies| && movies[k] == m;
      assert Years(movies)[k] == m.year;
      assert m.year in Keys(r);
      var i :| 0 <= i < |r| && Keys(r)[i] == m.year;
      assert YearLabels(r)[i] == IntToDecimal(m.year);
    }
  }

  /** `prepareYearData`'s result. */
  function YearChart(movies: seq<Movie>): ChartData {
    ChartData(YearLabels(YearRanking(movies)), Counts(YearRanking(movies)))
  }

  /** The year bars: one per year, in increasing order of the years the
      labels print, each the number of movies of that year; every movie's
      year has a bar and together the bars count every movie once. */
  lemma YearChartFacts(movies: seq<Movie>)
    ensures |YearChart(movies).labels| == |YearChart(movies).data|
    ensures NoDuplicates(YearChart(movies).labels)
    ensures forall i, j :: 0 <= i < j < |YearChart(movies).labels| ==>
      DecimalValue(YearChart(movies).labels[i]) < DecimalValue(YearChart(movies).labels[j])
    ensures forall i :: 0 <= i < |YearChart(movies).labels| ==>
      YearChart(movies).data[i] == Count(Years(movies), DecimalValue(YearChart(movies).labels[i]))
    ensures forall m :: m in movies ==> IntToDecimal(m.year) in YearChart(movies).labels
    ensures Sum(YearChart(movies).data) == |movies|
  {
    var r := YearRanking(movies);
    var ls := YearLabels(r);
    YearRankingFacts(movies);
    YearLabelsFacts(r);
    forall i | 0 <= i < |r| ensures Counts(r)[i] == Count(Years(movies), DecimalValue(ls[i])) {
      assert r[i] in r;
    }
    YearLabelsCover(movies, r);
    SumOfCounts(r);
  }

  // The chart-type switch

  /** The histogram the switch in `updateChartData` picks; an unknown chart
      type falls back to the rating histogram. */
  function ChartFor(chartType: string, movies: seq<Movie>): ChartData {
    if chartType == "ratings" then RatingsData(movies)
    else if chartType == "genres" then EntriesChart(GenreRanking(movies))
    else if chartType == "years" then YearChart(movies)
    else if chartType == "oscars" then OscarData(movies)
    else RatingsData(movies)
  }

  /** Only the four known chart types change what is drawn. */
  lemma UnknownChartType(chartType: string, movies: seq<Movie>)
    requires chartType !in ["ratings", "genres", "years", "oscars"]
    ensures ChartFor(chartType, movies) == ChartFor("ratings", movies)
  {
  }

  /** With no movies the rating and Oscar bars are all zero and the genre
      and year charts have no bars. */
  lemma EmptyCharts()
    ensures ChartFor("ratings", []).data == [0, 0, 0, 0, 0]
    ensures ChartFor("oscars", []).data == [0, 0, 0, 0]
    ensures ChartFor("genres", []) == ChartData([], [])
    ensures ChartFor("years", []) == ChartData([], [])
  {
    assert Flatten(GenreLists([])) == [];
    assert Tally<string>([]) == [];
    assert Tally<int>(Years([])) == [];
  }

  /** The component's state: the selected chart type and the data drawn. */
  class Chart {
    var chartType: string
    var chartData: Option<ChartData>

    /** `useState('ratings')`, `useState(null)` */
    constructor ()
      ensures chartType == "ratings" && chartData == None
    {
      chartType := "ratings";
      chartData := None;
    }

    /** The chart-type select. */
    method SetChartType(t: string)
      modifies this
      ensures chartType == t && chartData == old(chartData)
    {
      chartType := t;
    }

    /** `updateChartData`, run whenever the movies or the chart type change. */
    method UpdateChartData(movies: seq<Movie>)
      modifies this
      ensures chartType == old(chartType)
      ensures chartData == Some(ChartFor(chartType, movies))
    {
      var d: ChartData;
      if chartType == "ratings" {
        d := RatingsData(movies);
      } else if chartType == "genres" {
        d := PrepareGenreData(movies);
      } else if chartType == "years" {
        d := PrepareYearData(movies);
      } else if chartType == "oscars" {
        d := OscarData(movies);
      } else {
        d := RatingsData(movies);
      }
      chartData := Some(d);
    }
  }
}
