/** The filter panel: the option lists it offers (one per facet), the five
    criteria it holds, and the list of movies those criteria keep. */
module SearchFilter {
  import opened Seqs
  import opened Sorting
  import opened Decimal
  import opened Movies

  /** The `filters` state. Each field is the value of the selected option,
      `""` when nothing is selected. */
  datatype Criteria = Criteria(year: string, genre: string, rating: string, country: string, language: string)

  const NoCriteria := Criteria("", "", "", "", "")

  /** The rating options' values: `'9'`, `'8'`, `'7'` and `'6'` select a
      band; any other value is a case the switch does not know. */
  predicate InRatingBand(band: string, rating: real) {
    if band == "9" then rating >= 9.0
    else if band == "8" then rating >= 8.0 && rating < 9.0
    else if band == "7" then rating >= 7.0 && rating < 8.0
    else if band == "6" then rating < 7.0
    else true
  }

  /** The callback given to `movies.filter`: the criteria are checked in
      the order year, genre, country, language, rating. */
  predicate Keeps(c: Criteria, m: Movie) {
    if c.year != "" && IntToDecimal(m.year) != c.year then false
    else if c.genre != "" && c.genre !in m.genre then false
    else if c.country != "" && c.country !in m.country then false
    else if c.language != "" && c.language !in m.language then false
    else if c.rating != "" then InRatingBand(c.rating, m.imdbRating)
    else true
  }

  /** `movies.filter(movie => Keeps(filters, movie))` */
  function FilterMovies(c: Criteria, movies: seq<Movie>): (r: seq<Movie>)
    ensures |r| <= |movies|
    ensures forall m :: m in r <==> m in movies && Keeps(c, m)
  {
    if movies == [] then []
    else
      assert movies == [movies[0]] + movies[1..];
      if Keeps(c, movies[0]) then [movies[0]] + FilterMovies(c, movies[1..])
      else FilterMovies(c, movies[1..])
  }

  /** The filtered list keeps the movies in their original order. */
  lemma {:induction false} FilterIsSubsequence(c: Criteria, movies: seq<Movie>)
    ensures SubsequenceOf(FilterMovies(c, movies), movies)
  {
    if movies != [] {
      FilterIsSubsequence(c, movies[1..]);
      var r := FilterMovies(c, movies[1..]);
      if Keeps(c, movies[0]) {
        assert ([movies[0]] + r)[1..] == r;
      } else if r != [] {
        assert SubsequenceOf(r, movies[1..]);
      }
    }
  }

  /** Every copy of a kept record stays and every copy of a dropped one goes. */
  lemma {:induction false} FilterKeepsCopies(c: Criteria, movies: seq<Movie>, m: Movie)
    ensures Count(FilterMovies(c, movies), m) == (if Keeps(c, m) then Count(movies, m) else 0)
  {
    if movies != [] {
      var x, rest := movies[0], movies[1..];
      FilterKeepsCopies(c, rest, m);
      assert movies == [x] + rest;
      CountCons(x, rest, m);
      if Keeps(c, x) {
        CountCons(x, FilterMovies(c, rest), m);
      }
    }
  }

  /** With nothing selected every movie is kept, in the original order. */
  lemma {:induction false} FilterWithoutCriteria(movies: seq<Movie>)
    ensures FilterMovies(NoCriteria, movies) == movies
  {
    if movies != [] {
      FilterWithoutCriteria(movies[1..]);
      assert movies == [movies[0]] + movies[1..];
    }
  }

  /** A movie is kept exactly when it meets every criterion that is set;
      an unknown rating value sets no constraint. */
  lemma KeepsAllCriteria(c: Criteria, m: Movie)
    ensures Keeps(c, m) <==>
      && (c.year == "" || IntToDecimal(m.year) == c.year)
      && (c.genre == "" || c.genre in m.genre)
      && (c.country == "" || c.country in m.country)
      && (c.language == "" || c.language in m.language)
      && (c.rating == "" || InRatingBand(c.rating, m.imdbRating))
  {
  }

  /** The four rating bands split the ratings: each rating lies in exactly
      one of `'9'`, `'8'`, `'7'` and `'6'`, and the rating options mean
      9.0 and above, [8.0, 9.0), [7.0, 8.0) and below 7.0. */
  lemma RatingBands(rating: real)
    ensures InRatingBand("9", rating) <==> rating >= 9.0
    ensures InRatingBand("8", rating) <==> 8.0 <= rating < 9.0
    ensures InRatingBand("7", rating) <==> 7.0 <= rating < 8.0
    ensures InRatingBand("6", rating) <==> rating < 7.0
    ensures (if InRatingBand("9", rating) then 1 else 0) + (if InRatingBand("8", rating) then 1 else 0)
          + (if InRatingBand("7", rating) then 1 else 0) + (if InRatingBand("6", rating) then 1 else 0) == 1
  {
  }

  /** A rating value outside the four options filters like no rating. */
  lemma {:induction false} UnknownRatingIgnored(c: Criteria, movies: seq<Movie>)
    requires c.rating !in ["9", "8", "7", "6"]
    ensures FilterMovies(c, movies) == FilterMovies(c.(rating := ""), movies)
  {
    if movies != [] {
      UnknownRatingIgnored(c, movies[1..]);
    }
  }

  /** Selecting the year `y` (the option's value is `y.toString()`) keeps
      exactly the movies of that year. */
  lemma FilterByYear(movies: seq<Movie>, y: int)
    ensures forall m :: m in FilterMovies(NoCriteria.(year := IntToDecimal(y)), movies) <==>
      m in movies && m.year == y
  {
    forall m: Movie ensures IntToDecimal(m.year) == IntToDecimal(y) <==> m.year == y {
      IntToDecimalInjective(m.year, y);
    }
  }

  /** `(a, b) => b - a` on years: latest first. */
  function YearsDesc(a: int, b: int): int { b - a }

  lemma YearsDescConsistent()
    ensures Consistent(YearsDesc)
  {
    forall a: int, b: int, c: int ensures Chain(YearsDesc, a, b, c) {
    }
  }

  /** The option lists of the four selects. */
  datatype Facets = Facets(years: seq<int>, genres: seq<string>, countries: seq<string>, languages: seq<string>)

  /** `[...new Set(values)].sort()` for string values. */
  function UniqueSorted(values: seq<string>): seq<string> {
    Sort(Distinct(values), StrCompare)
  }

  /** `uniqueValues`: distinct years latest first, and the distinct genres,
      countries and languages in string order. */
  function UniqueValues(movies: seq<Movie>): Facets {
    Facets(
      Sort(Distinct(Years(movies)), YearsDesc),
      UniqueSorted(Flatten(GenreLists(movies))),
      UniqueSorted(Flatten(CountryLists(movies))),
      UniqueSorted(Flatten(LanguageLists(movies))))
  }

  /** A string option list holds each value once, in strictly increasing
      string order, and exactly the values that occur. */
  lemma {:induction false} UniqueSortedFacts(values: seq<string>)
    ensures NoDuplicates(UniqueSorted(values))
    ensures forall i, j :: 0 <= i < j < |UniqueSorted(values)| ==>
      StrCompare(UniqueSorted(values)[i], UniqueSorted(values)[j]) < 0
    ensures forall v :: v in UniqueSorted(values) <==> v in values
  {
    var d := Distinct(values);
    StrCompareConsistent();
    SortSorted(d, StrCompare);
    SortKeepsDistinct(d, StrCompare);
    SortPermutes(d, StrCompare);
    forall v ensures v in Sort(d, StrCompare) <==> v in d {
      assert v in Sort(d, StrCompare) <==> v in multiset(Sort(d, StrCompare));
    }
  }

  /** Distinct years sorted latest first are strictly decreasing. */
  lemma YearsDescFacts(d: seq<int>)
    requires NoDuplicates(d)
    ensures NoDuplicates(Sort(d, YearsDesc))
    ensures forall i, j :: 0 <= i < j < |Sort(d, YearsDesc)| ==> Sort(d, YearsDesc)[i] > Sort(d, YearsDesc)[j]
    ensures forall y :: y in Sort(d, YearsDesc) <==> y in d
  {
    var r := Sort(d, YearsDesc);
    YearsDescConsistent();
    SortSorted(d, YearsDesc);
    SortKeepsDistinct(d, YearsDesc);
    SortPermutes(d, YearsDesc);
    forall i, j | 0 <= i < j < |r| ensures r[i] > r[j] {
      assert YearsDesc(r[i], r[j]) <= 0 && r[i] != r[j];
    }
    forall y ensures y in r <==> y in d {
      assert y in r <==> y in multiset(r);
    }
  }

  /** The year options hold each year of the list once, latest first. */
  lemma YearFacetFacts(movies: seq<Movie>)
    ensures NoDuplicates(UniqueValues(movies).years)
    ensures forall i, j :: 0 <= i < j < |UniqueValues(movies).years| ==>
      UniqueValues(movies).years[i] > UniqueValues(movies).years[j]
    ensures forall y :: y in UniqueValues(movies).years <==> exists m :: m in movies && m.year == y
  {
    YearsDescFacts(Distinct(Years(movies)));
    forall y ensures y in Years(movies) <==> exists m :: m in movies && m.year == y {
      if y in Years(movies) {
        var i :| 0 <= i < |movies| && Years(movies)[i] == y;
        assert movies[i] in movies;
      }
    }
  }

  /** The genre options hold each genre of any movie once, in string order. */
  lemma GenreFacetFacts(movies: seq<Movie>)
    ensures NoDuplicates(UniqueValues(movies).genres)
    ensures forall i, j :: 0 <= i < j < |UniqueValues(movies).genres| ==>
      StrCompare(UniqueValues(movies).genres[i], UniqueValues(movies).genres[j]) < 0
    ensures forall g :: g in UniqueValues(movies).genres <==> exists m :: m in movies && g in m.genre
  {
    var lists := GenreLists(movies);
    UniqueSortedFacts(Flatten(lists));
    forall g ensures g in Flatten(lists) <==> exists m :: m in movies && g in m.genre {
      FlattenMember(lists, g);
      if g in Flatten(lists) {
        var i :| 0 <= i < |lists| && g in lists[i];
        assert movies[i] in movies;
      }
    }
  }

  /** The country options hold each country of any movie once, in string order. */
  lemma CountryFacetFacts(movies: seq<Movie>)
    ensures NoDuplicates(UniqueValues(movies).countries)
    ensures forall i, j :: 0 <= i < j < |UniqueValues(movies).countries| ==>
      StrCompare(UniqueValues(movies).countries[i], UniqueValues(movies).countries[j]) < 0
    ensures forall c :: c in UniqueValues(movies).countries <==> exists m :: m in movies && c in m.country
  {
    var lists := CountryLists(movies);
    UniqueSortedFacts(Flatten(lists));
    forall c ensures c in Flatten(lists) <==> exists m :: m in movies && c in m.country {
      FlattenMember(lists, c);
      if c in Flatten(lists) {
        var i :| 0 <= i < |lists| && c in lists[i];
        assert movies[i] in movies;
      }
    }
  }

  /** The language options hold each language of any movie once, in string order. */
  lemma LanguageFacetFacts(movies: seq<Movie>)
    ensures NoDuplicates(UniqueValues(movies).languages)
    ensures forall i, j :: 0 <= i < j < |UniqueValues(movies).languages| ==>
      StrCompare(UniqueValues(movies).languages[i], UniqueValues(movies).languages[j]) < 0
    ensures forall l :: l in UniqueValues(movies).languages <==> exists m :: m in movies && l in m.language
  {
    var lists := LanguageLists(movies);
    UniqueSortedFacts(Flatten(lists));
    forall l ensures l in Flatten(lists) <==> exists m :: m in movies && l in m.language {
      FlattenMember(lists, l);
      if l in Flatten(lists) {
        var i :| 0 <= i < |lists| && l in lists[i];
        assert movies[i] in movies;
      }
    }
  }

  /** The names of the five selects. */
  const FieldNames: seq<string> := ["year", "genre", "rating", "country", "language"]

  /** The criterion a select edits; a name that is not one of the five
      reads as no criterion. */
  function Field(c: Criteria, name: string): string {
    if name == "year" then c.year
    else if name == "genre" then c.genre
    else if name == "rating" then c.rating
    else if name == "country" then c.country
    else if name == "language" then c.language
    else ""
  }

  /** `{ ...prev, [name]: value }` */
  function WithField(c: Criteria, name: string, value: string): Criteria {
    if name == "year" then c.(year := value)
    else if name == "genre" then c.(genre := value)
    else if name == "rating" then c.(rating := value)
    else if name == "country" then c.(country := value)
    else if name == "language" then c.(language := value)
    else c
  }

  /** Changing one select sets that criterion and leaves the other four as
      they were. */
  lemma WithFieldFacts(c: Criteria, name: string, value: string)
    ensures name in FieldNames ==> Field(WithField(c, name, value), name) == value
    ensures forall f :: f in FieldNames && f != name ==> Field(WithField(c, name, value), f) == Field(c, f)
    ensures name !in FieldNames ==> WithField(c, name, value) == c
  {
  }

  /** Criteria are determined by their five fields. */
  lemma {:induction false} CriteriaByFields(a: Criteria, b: Criteria)
    requires forall f :: f in FieldNames ==> Field(a, f) == Field(b, f)
    ensures a == b
  {
    assert Field(a, "year") == Field(b, "year");
    assert Field(a, "genre") == Field(b, "genre");
    assert Field(a, "rating") == Field(b, "rating");
    assert Field(a, "country") == Field(b, "country");
    assert Field(a, "language") == Field(b, "language");
  }

  /** The component's filter state. */
  class FilterPanel {
    var filters: Criteria

    /** `useState({ year: '', genre: '', rating: '', country: '', language: '' })` */
    constructor ()
      ensures filters == NoCriteria
    {
      filters := NoCriteria;
    }

    /** `handleFilterChange`: the select named `name` now holds `value`;
        the other criteria keep their values. */
    method HandleFilterChange(name: string, value: string)
      modifies this
      ensures filters == WithField(old(filters), name, value)
      ensures name in FieldNames ==> Field(filters, name) == value
      ensures forall f :: f in FieldNames && f != name ==> Field(filters, f) == Field(old(filters), f)
    {
      WithFieldFacts(filters, name, value);
      filters := WithField(filters, name, value);
    }

    /** `handleReset`: every criterion back to `''`, so every movie is
        kept again. */
    method HandleReset()
      modifies this
      ensures filters == NoCriteria
      ensures forall f :: f in FieldNames ==> Field(filters, f) == ""
      ensures forall movies :: FilterMovies(filters, movies) == movies
    {
      filters := NoCriteria;
      forall movies: seq<Movie> ensures FilterMovies(filters, movies) == movies {
        FilterWithoutCriteria(movies);
      }
    }

    /** `getFilteredMovies`: what the panel reports for `movies`. */
    function FilteredMovies(movies: seq<Movie>): (r: seq<Movie>)
      reads this
      ensures SubsequenceOf(r, movies)
      ensures forall m :: m in r <==> m in movies && Keeps(filters, m)
    {
      FilterIsSubsequence(filters, movies);
      FilterMovies(filters, movies)
    }
  }
}
