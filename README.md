# Movies dashboard: filter, facets, aggregations and rankings

This project models the computational core of a React movies dashboard in
Dafny and proves properties of it. The dashboard's six components read one
list of movie records:

- **SearchFilter** builds the facet lists for the selectors. It keeps the
  five filter criteria as component state and filters the list by them.
- **FilteredMoviesChart** draws one of four histograms: rating bands, the top
  ten genres, movies per year, or Oscar-nomination buckets.
- **TopPerformers** ranks the five best-rated movies, the five movies with the
  most Oscar wins and the five most frequent cast members.
- **CountryLanguageInsights** draws two pies: the ten most frequent countries
  and the ten most frequent languages, each with an "Others" slice.
- **OscarStatistics** sums nominations and wins per release year and sorts the
  years as strings.
- **MovieDetails** keeps the selected movie as component state and shows its
  details with display defaults.

Every component that updates state step by step is modelled imperatively:
- the filter criteria (`SearchFilter.FilterPanel`);
- the chart type and chart data (`FilteredMoviesChart.Chart`);
- the selection (`MovieDetails.DetailsState`);
- the counting objects that `forEach` loops update in place (`Counting.Counter`);
- the Oscar `reduce` over its per-year object (`OscarStatistics.Accumulate`);
- the in-place array sort behind `[...movies].sort(...)` (`Sorting.InsertionSort`).

Each of these is proved against a pure specification function. The properties
are proved as lemmas about those functions.

Shared modules:
- `Seqs`: sequence helpers.
- `Sorting`: a stable insertion sort, which is how `Array.prototype.sort` orders ties.
- `Decimal`: integer-to-text conversion and the default string order of `sort()`.
- `Counting`: count tables in first-seen order, which is the order `Object.entries` lists non-numeric keys.
- `Movies`: the movie record and the two mock records the component tests render.

Where the code and the design description differ, the model follows the code:
- **The Oscar-nomination buckets.** The description says they partition every
  movie, treating a missing count as 0. The code tests `=== 0`, so a movie
  without a nomination count falls in no bucket. `OscarBuckets` proves that the
  buckets add up to the number of movies exactly when every movie has a count of
  at least zero.
- **The year filter.** The description asks for integer equality. The code
  compares `year.toString()` with the selected string. `FilterByYear` proves the
  two agree on integer years.
- **The box office figure.** The description says a missing figure must render
  as "not available". The code also renders a figure of 0 that way.
- **An empty list in the Oscar chart.** The description says an empty list gives
  zeroed structures. The Oscar effect returns before computing anything; the
  model says `None`.
- **Records lacking a list field.** The description says to treat them as
  empty. The code would throw on them. The model's records always have their
  lists.

## Model

| member | source | states |
|---|---|---|
| SearchFilter.FilterMovies | src/components/SearchFilter.jsx:30-49 | a movie is in the result exactly when it is in the list and meets every set criterion; the result is no longer than the list |
| SearchFilter.FilterKeepsCopies | src/components/SearchFilter.jsx:30-49 | the result holds every copy of a record that meets the criteria and no copy of one that does not |
| SearchFilter.FilterIsSubsequence | src/components/SearchFilter.jsx:30-49 | the filtered list is an order-preserving subsequence of the movies |
| SearchFilter.FilterWithoutCriteria | src/components/SearchFilter.jsx:4-10 | with all five criteria empty, the filter returns the list unchanged, in its order |
| SearchFilter.KeepsAllCriteria | src/components/SearchFilter.jsx:32-46 | the early-return chain keeps a movie exactly when every non-empty criterion holds: year text, genre, country and language membership, and rating band |
| SearchFilter.RatingBands | src/components/SearchFilter.jsx:39-43 | '9' keeps ratings of at least 9.0, '8' keeps [8.0, 9.0), '7' keeps [7.0, 8.0) and '6' keeps ratings below 7.0; every rating is in exactly one of the four bands |
| SearchFilter.UnknownRatingIgnored | src/components/SearchFilter.jsx:44 | a rating value the switch does not know filters like no rating criterion |
| SearchFilter.FilterByYear | src/components/SearchFilter.jsx:32 | comparing the year's text with the selected year's text keeps exactly the movies of that integer year |
| SearchFilter.UniqueSortedFacts | src/components/SearchFilter.jsx:15-17 | `[...new Set(values)].sort()` is duplicate-free, strictly increasing in string order, and holds exactly the values present |
| SearchFilter.YearFacetFacts | src/components/SearchFilter.jsx:14 | the year facet is duplicate-free, strictly decreasing, and holds exactly the years of the movies |
| SearchFilter.GenreFacetFacts | src/components/SearchFilter.jsx:15 | the genre facet is duplicate-free, in string order, and holds exactly the genres that some movie has |
| SearchFilter.CountryFacetFacts | src/components/SearchFilter.jsx:16 | the country facet is duplicate-free, in string order, and holds exactly the countries that some movie has |
| SearchFilter.LanguageFacetFacts | src/components/SearchFilter.jsx:17 | the language facet is duplicate-free, in string order, and holds exactly the languages that some movie has |
| SearchFilter.WithFieldFacts | src/components/SearchFilter.jsx:58-61 | `{ ...prev, [name]: value }` sets the named criterion and leaves the other four as they were; an unknown name changes nothing the filter reads |
| SearchFilter.CriteriaByFields | src/components/SearchFilter.jsx:4-10 | criteria are equal when their five named fields are equal |
| SearchFilter.FilterPanel.constructor | src/components/SearchFilter.jsx:4-10 | the filter state starts with all five criteria empty |
| SearchFilter.FilterPanel.HandleFilterChange | src/components/SearchFilter.jsx:56-62 | the named criterion takes the value and the other criteria keep theirs |
| SearchFilter.FilterPanel.HandleReset | src/components/SearchFilter.jsx:64-72 | every criterion is empty again, so the filter returns any list unchanged |
| SearchFilter.FilterPanel.FilteredMovies | src/components/SearchFilter.jsx:29-50 | the memoised filter over the current state is an order-preserving subsequence holding exactly the movies that meet the criteria |
| FilteredMoviesChart.RatingsPartition | src/components/FilteredMoviesChart.jsx:30-47 | five labels and five counts, and the five rating bands add up to the number of movies |
| FilteredMoviesChart.OscarBuckets | src/components/FilteredMoviesChart.jsx:91-106 | four labels and four counts; the buckets add up to at most the number of movies, and to exactly that number when every movie has a nomination count of at least 0 |
| FilteredMoviesChart.MissingNominationsUncounted | src/components/FilteredMoviesChart.jsx:97-100 | a movie without a nomination count changes no bucket |
| FilteredMoviesChart.PrepareGenreData | src/components/FilteredMoviesChart.jsx:49-70 | the genre counts built in place, sorted by count and cut to ten, are the genre ranking |
| FilteredMoviesChart.GenreChartFacts | src/components/FilteredMoviesChart.jsx:49-70 | at most ten distinct genres, each with its number of occurrences (at least one), counts non-increasing; a genre left out occurs no more often than the last one kept; bars of equal height come in the order their genres were first met across the movies' genre lists |
| FilteredMoviesChart.PrepareYearData | src/components/FilteredMoviesChart.jsx:72-89 | the year counts built in place and sorted by numeric key are the year chart |
| FilteredMoviesChart.YearRankingFacts | src/components/FilteredMoviesChart.jsx:73-79 | the year entries are strictly increasing by year, each counts the movies of its year, they cover exactly the years present, and they add up to the number of movies |
| FilteredMoviesChart.YearLabelsFacts | src/components/FilteredMoviesChart.jsx:79-82 | each label reads back as its year, labels are strictly increasing as numbers, and there are no repeats |
| FilteredMoviesChart.YearLabelsCover | src/components/FilteredMoviesChart.jsx:74-82 | every movie's year text is among the labels |
| FilteredMoviesChart.YearChartFacts | src/components/FilteredMoviesChart.jsx:72-89 | one bar per year, in increasing numeric order, each the number of movies of that year |
| FilteredMoviesChart.UnknownChartType | src/components/FilteredMoviesChart.jsx:123-124 | an unknown chart type draws the ratings chart |
| FilteredMoviesChart.EmptyCharts | src/components/FilteredMoviesChart.jsx:30-106 | an empty list gives all-zero rating and Oscar buckets and empty genre and year charts |
| FilteredMoviesChart.Chart.constructor | src/components/FilteredMoviesChart.jsx:23-24 | the chart type starts as 'ratings' with no data |
| FilteredMoviesChart.Chart.SetChartType | src/components/FilteredMoviesChart.jsx:23 | the type changes and the data stays until the next update |
| FilteredMoviesChart.Chart.UpdateChartData | src/components/FilteredMoviesChart.jsx:108-127 | the chart data becomes the chart of the current type for the movies, and the type is unchanged |
| TopPerformers.ComputeTopPerformers | src/components/TopPerformers.jsx:6-35 | the memo's three lists are the rankings: sorted copies cut to five, and the cast counts built in place, sorted and cut to five |
| TopPerformers.TopRatedFacts | src/components/TopPerformers.jsx:8-10 | min(5, n) movies drawn from the list, ratings non-increasing, equal ratings in list order, and no movie left out rated above the last one kept |
| TopPerformers.TopOscarFacts | src/components/TopPerformers.jsx:13-15 | min(5, n) movies drawn from the list, wins (missing as 0) non-increasing, equal wins in list order, and no movie left out with more wins than the last one kept |
| TopPerformers.TopActorsFacts | src/components/TopPerformers.jsx:18-28 | min(5, number of distinct actors) distinct actors, each with their number of appearances (at least one), counts non-increasing, and actors with equal counts in the order they were first met across the cast lists |
| TopPerformers.TopActorsLeftOut | src/components/TopPerformers.jsx:25-27 | an actor in some cast but not in the top list appears no more often than the last actor kept |
| TopPerformers.MockRankings | src/components/__tests__/TopPerformers.test.jsx:15-40 | on the two mock records: the rating list is Shawshank (9.3) then The Godfather, the Oscar list is The Godfather (3 wins) then Shawshank, and the four actors each have one appearance, in first-seen order |
| CountryLanguageInsights.ComputeInsights | src/components/CountryLanguageInsights.jsx:24-78 | the two counting objects, filled by the nested `forEach` loops and rolled up, give the insights |
| CountryLanguageInsights.RollupEntries | src/components/CountryLanguageInsights.jsx:39-75 | sorting the entries, cutting them to ten and appending "Others" gives the pie |
| CountryLanguageInsights.PieShape | src/components/CountryLanguageInsights.jsx:57-75 | min(10, distinct values) + 1 labels and data, the last label "Others" |
| CountryLanguageInsights.PieSlices | src/components/CountryLanguageInsights.jsx:39-45 | the kept labels are distinct values that occur in the lists, each slice counts its value's occurrences (at least one), slices are non-increasing, and equal slices come in the order their values were first met |
| CountryLanguageInsights.PieLeftOut | src/components/CountryLanguageInsights.jsx:39-45 | a value left out of the ten occurs no more often than the smallest kept slice |
| CountryLanguageInsights.PieOthers | src/components/CountryLanguageInsights.jsx:48-54 | "Others" counts the occurrences of the values not kept and is never negative; the slices add up to the number of (movie, value) pairs; "Others" is 0 when there are at most ten values |
| CountryLanguageInsights.MockInsights | src/components/__tests__/CountryLanguageInsights.test.jsx:32-41 | on the two mock records: countries United States 2, Others 0; languages English 2, Italian 1, Others 0 |
| OscarStatistics.ComputeOscarStats | src/components/OscarStatistics.jsx:41-58 | nothing for an empty list; otherwise the series read off the per-year object, which is the specified series |
| OscarStatistics.Accumulate | src/components/OscarStatistics.jsx:45-54 | after the reduce, the object's keys in creation order are the distinct dated years, and each entry is that year's totals |
| OscarStatistics.Reduce | src/components/OscarStatistics.jsx:45-53 | one reduce step keeps the object in step with the movies seen |
| OscarStatistics.DatedStep | src/components/OscarStatistics.jsx:46-51 | a dated movie creates its year's entry if missing (last in key order) and adds its counts (missing as 0) to it |
| OscarStatistics.UndatedStep | src/components/OscarStatistics.jsx:46 | a movie with a falsy year leaves the object unchanged |
| OscarStatistics.LabelsIgnoreKeyOrder | src/components/OscarStatistics.jsx:56 | sorting the keys gives the same labels whatever order the object lists them in |
| OscarStatistics.SeriesShape | src/components/OscarStatistics.jsx:42-58 | no series exactly for an empty list; otherwise years, nominations and wins are aligned and the years are strictly increasing in string order |
| OscarStatistics.SeriesYears | src/components/OscarStatistics.jsx:46-56 | a year has a bar exactly when some movie with a truthy year was released in it |
| OscarStatistics.SeriesSums | src/components/OscarStatistics.jsx:45-58 | the nominations bars add up to all nominations of the dated movies, and the wins bars to all their wins |
| OscarStatistics.UndatedIgnored | src/components/OscarStatistics.jsx:46 | appending a movie with a falsy year does not change the chart |
| OscarStatistics.MockSeries | src/components/OscarStatistics.jsx:45-58 | on the two mock records: years "1972" then "1994", nominations 0 and 0, wins 3 and 0 |
| MovieDetails.SelectedIsFirstMatch | src/components/MovieDetails.jsx:14 | the selection is the first movie whose id loosely equals the value, and there is none exactly when no id does |
| MovieDetails.NoMatch | src/components/MovieDetails.jsx:14 | the filter comes out empty exactly when no id loosely equals the value |
| MovieDetails.FirstMatch | src/components/MovieDetails.jsx:14 | when something matches, the first element of the filter is the movie at the first index whose id loosely equals the value |
| MovieDetails.SelectOwnOption | src/components/MovieDetails.jsx:12-40 | with distinct ids, choosing a movie's own option selects that movie |
| MovieDetails.PlaceholderSelection | src/components/MovieDetails.jsx:14-35 | the placeholder value "" selects a movie exactly when some movie has id 0 |
| MovieDetails.BoxOfficeShownFacts | src/components/MovieDetails.jsx:63 | 'N/A' exactly when the figure is missing or 0, otherwise the figure |
| MovieDetails.AwardsShown | src/components/MovieDetails.jsx:112-116 | a count shows as itself when present and non-zero, and as 0 otherwise |
| MovieDetails.DetailsState.constructor | src/components/MovieDetails.jsx:4-5 | nothing selected and no detail panel |
| MovieDetails.DetailsState.SetMovies | src/components/MovieDetails.jsx:7-10 | a new list resets the selector to '' and the selection to none |
| MovieDetails.DetailsState.HandleMovieSelect | src/components/MovieDetails.jsx:12-44 | the selector keeps the value, the selection is the first loose match, and the panel shows exactly when some id matches |
| MovieDetails.MockSelection | src/components/__tests__/MovieDetails.test.jsx:14-33 | choosing '1' among the mock records selects The Shawshank Redemption (Frank Darabont, 9.3, Tim Robbins and Morgan Freeman), shown with 'N/A' box office and 0 nominations and wins |
| MovieDetails.SelectThenClear | src/components/__tests__/MovieDetails.test.jsx:35-45 | selecting a movie and then replacing the list with an empty one leaves '' selected and no panel |
| Sorting.SortStable | src/components/TopPerformers.jsx:9 | sorting keeps elements that compare equal in their original order |
| Sorting.SortPermutes | src/components/TopPerformers.jsx:8-9 | sorting a copy of the list rearranges its elements and adds or drops none |
| Sorting.TopNFacts | src/components/TopPerformers.jsx:8-10 | sort-then-slice gives min(n, length) elements, sorted, drawn from the input, with ties in input order, and nothing left out ranks before the last one kept |
| Sorting.InsertionSort | src/components/TopPerformers.jsx:8-9 | the in-place sort of the array leaves it holding the stable sort of its old contents |
| Counting.Counter.AddAll | src/components/FilteredMoviesChart.jsx:51-55 | `counts[x] = (counts[x] \|\| 0) + 1` for each value keeps the object's keys (first-seen order) and counts in step with all values seen |
| Counting.Counter.EntriesTally | src/components/FilteredMoviesChart.jsx:58 | `Object.entries` of the object is the tally of the values seen |
| Counting.TallyFacts | src/components/TopPerformers.jsx:18-25 | the tally has each value once, in first-seen order, with its number of occurrences, and adds up to the number of values |
| Counting.TopTallyTieOrder | src/components/TopPerformers.jsx:18-27 | in the top-n of a tally every key occurs in the values, and entries with equal counts come in the order their keys were first met |
| Counting.TopTallyFacts | src/components/TopPerformers.jsx:25-27 | the top-n of a tally: min(n, distinct) distinct keys with their counts, non-increasing, ties in first-seen order, nothing left out more frequent than the last kept |
| Decimal.IntToDecimalRoundTrip | src/components/FilteredMoviesChart.jsx:79 | a year key read back as a number is the year |
| Decimal.IntToDecimalInjective | src/components/SearchFilter.jsx:32 | two integers have the same text exactly when they are equal |
| Decimal.StrCompareConsistent | src/components/SearchFilter.jsx:15 | the default `sort()` comparison is antisymmetric and transitive |

## Left out

- JSX markup, Tailwind classes, the tab state of TopPerformers and the selector options' text: these are presentation only.
- Chart.js registration, chart options, canvas contexts, `new Chart`/`destroy`, the resize listener and the DOM measurement: these are foreign library calls and the DOM.
- The tooltip percentage, `toFixed(1)` and `toLocaleString()`: these are floating-point and locale formatting. The box office amount is modelled as the figure, not its text.
- React scheduling: `useMemo`/`useEffect` dependency tracking, the `onFilterChange` callback and App.jsx. Each effect and memo is modelled as a call made when its inputs change.
- Ratings are modelled as reals. IEEE doubles, NaN and `parseFloat` on non-numeric text are not modelled.
- Ids and years are modelled as integers. The string form of a year or id is its decimal text. The exponent form JavaScript prints for very large numbers is not modelled.
- Strings are sequences of code points. JavaScript's `sort()` compares UTF-16 code units, which orders characters above U+FFFF differently.
- JavaScript lists integer-like object keys (such as "1994") in increasing numeric order, before the other keys. For the per-year objects this order is irrelevant: FilteredMoviesChart sorts the year entries numerically, and OscarStatistics sorts the keys as strings (`OscarStatistics.LabelsIgnoreKeyOrder`). For the genre, country, language and cast counters the model assumes no value is integer-like and lists every key in first-seen order. In the source a value such as a genre named "1" would come first in `Object.entries`, which can change the order of equal counts in the genre chart, the actor list and the pies.
- Counts kept in plain objects can collide with keys inherited from `Object.prototype`, such as a genre named `constructor`. This is not modelled: every value starts at a count of 0.
- Records missing a list field (`genre`, `country`, `language`, `cast`) make the source throw. Records in the model always carry these lists.
- A missing year is modelled as the year 0; both are falsy, so OscarStatistics skips both, as the source does. Elsewhere the source treats a missing year differently, and the model shows "0" in each of these places:
  - with a year selected, the filter calls `movie.year.toString()`, which throws (src/components/SearchFilter.jsx:32);
  - the year chart gets a bar labelled "undefined", placed by a comparison that yields NaN (src/components/FilteredMoviesChart.jsx:75-79);
  - the year facet lists `undefined` last (src/components/SearchFilter.jsx:14).
- `handleFilterChange` with a field name other than the five criteria adds a key that the filter never reads; the model leaves the criteria unchanged.
- MovieDetails.LooselyEquals: matches JavaScript's `==` between a number and a string only for the strings the selector offers: `""` and the ids' decimal text. Other spellings such as `"01"` or `" 1"` are not modelled, because the selector never produces them.
