/** The movie detail panel: a selector over the movies, the selected id and
    movie as component state, and what the panel shows for the selection. */
module MovieDetails {
  import opened Decimal
  import opened Movies

  /** `movie.id == value` with a numeric id and the `value` of a `<select>`
      option. The options' values are `""` and the ids' own text; on those
      strings JavaScript's loose equality compares the id with the string read
      as a number, and `""` reads as 0. */
  predicate LooselyEquals(id: int, value: string) {
    IntToDecimal(id) == value || (value == "" && id == 0)
  }

  /** `movies.filter(movie => movie.id == value)` */
  function Matching(movies: seq<Movie>, value: string): (r: seq<Movie>)
    ensures |r| <= |movies|
    ensures forall i :: 0 <= i < |r| ==> LooselyEquals(r[i].id, value)
  {
    if movies == [] then []
    else (if LooselyEquals(movies[0].id, value) then [movies[0]] else []) + Matching(movies[1..], value)
  }

  /** `movies.filter(...)[0]`: the first match, `undefined` (here `None`)
      when nothing matches. */
  function Selected(movies: seq<Movie>, value: string): Option<Movie> {
    var matches := Matching(movies, value);
    if matches != [] then Some(matches[0]) else None
  }

  /** Nothing matches exactly when no id loosely equals the value. */
  lemma {:induction false} NoMatch(movies: seq<Movie>, value: string)
    ensures Matching(movies, value) == [] <==>
      forall i :: 0 <= i < |movies| ==> !LooselyEquals(movies[i].id, value)
  {
    if movies != [] {
      var rest := movies[1..];
      NoMatch(rest, value);
      forall i | 0 < i < |movies| ensures movies[i] == rest[i - 1] {
      }
    }
  }

  /** The first match is the movie at the first index whose id loosely
      equals the value. */
  lemma {:induction false} FirstMatch(movies: seq<Movie>, value: string) returns (i: nat)
    requires Matching(movies, value) != []
    ensures i < |movies| && movies[i] == Matching(movies, value)[0]
    ensures LooselyEquals(movies[i].id, value)
    ensures forall j :: 0 <= j < i ==> !LooselyEquals(movies[j].id, value)
  {
    assert movies != [];
    var rest := movies[1..];
    if LooselyEquals(movies[0].id, value) {
      assert Matching(movies, value) == [movies[0]] + Matching(rest, value);
      i := 0;
    } else {
      assert Matching(movies, value) == [] + Matching(rest, value);
      var k := FirstMatch(rest, value);
      i := k + 1;
      NoneBefore(movies, value, k);
    }
  }

  /** No match before index `k` of the tail and none at the head: no match
      before index `k + 1`. */
  lemma NoneBefore(movies: seq<Movie>, value: string, k: nat)
    requires k + 1 < |movies| && !LooselyEquals(movies[0].id, value)
    requires forall j :: 0 <= j < k ==> !LooselyEquals(movies[1..][j].id, value)
    ensures movies[k + 1] == movies[1..][k]
    ensures forall j :: 0 <= j < k + 1 ==> !LooselyEquals(movies[j].id, value)
  {
    forall j | 0 < j < k + 1 ensures !LooselyEquals(movies[j].id, value) {
      assert movies[j] == movies[1..][j - 1];
    }
  }

  /** The selection is the first movie whose id loosely equals the value,
      and there is none exactly when no id does. */
  lemma SelectedIsFirstMatch(movies: seq<Movie>, value: string)
    ensures Selected(movies, value).None? <==>
      forall i :: 0 <= i < |movies| ==> !LooselyEquals(movies[i].id, value)
    ensures Selected(movies, value).Some? ==>
      exists i :: 0 <= i < |movies| && movies[i] == Selected(movies, value).value &&
        LooselyEquals(movies[i].id, value) &&
        forall j :: 0 <= j < i ==> !LooselyEquals(movies[j].id, value)
  {
    NoMatch(movies, value);
    if Matching(movies, value) != [] {
      var i := FirstMatch(movies, value);
    }
  }

  /** Choosing a movie's own option selects that movie when ids are
      distinct. */
  lemma SelectOwnOption(movies: seq<Movie>, i: nat)
    requires i < |movies|
    requires forall j, k :: 0 <= j < k < |movies| ==> movies[j].id != movies[k].id
    ensures Selected(movies, IntToDecimal(movies[i].id)) == Some(movies[i])
  {
    var value := IntToDecimal(movies[i].id);
    SelectedIsFirstMatch(movies, value);
    assert LooselyEquals(movies[i].id, value);
    var k :| 0 <= k < |movies| && movies[k] == Selected(movies, value).value &&
      LooselyEquals(movies[k].id, value) &&
      forall j :: 0 <= j < k ==> !LooselyEquals(movies[j].id, value);
    IntToDecimalInjective(movies[k].id, movies[i].id);
  }

  /** The placeholder option `""` loosely equals an id of 0: it selects a
      movie exactly when some movie has id 0. */
  lemma PlaceholderSelection(movies: seq<Movie>)
    ensures Selected(movies, "").Some? <==> exists i :: 0 <= i < |movies| && movies[i].id == 0
  {
    SelectedIsFirstMatch(movies, "");
    if exists i :: 0 <= i < |movies| && movies[i].id == 0 {
      var i :| 0 <= i < |movies| && movies[i].id == 0;
      assert LooselyEquals(movies[i].id, "");
    }
  }

  /** What the `Box Office` line shows: an amount, or `N/A`. */
  datatype BoxOfficeText = Amount(value: real) | NotAvailable

  /** `box_office ? ... : 'N/A'`: a missing figure and a figure of 0 are
      both falsy. */
  function BoxOfficeShown(m: Movie): BoxOfficeText {
    if m.boxOffice.Some? && m.boxOffice.value != 0.0 then Amount(m.boxOffice.value) else NotAvailable
  }

  /** `N/A` exactly when the figure is missing or 0; otherwise the figure. */
  lemma BoxOfficeShownFacts(m: Movie)
    ensures BoxOfficeShown(m) == NotAvailable <==> m.boxOffice == None || m.boxOffice == Some(0.0)
    ensures BoxOfficeShown(m).Amount? ==> Some(BoxOfficeShown(m).value) == m.boxOffice
  {
  }

  /** `oscar_nominations || 0` */
  function NominationsShown(m: Movie): int {
    OrZero(m.oscarNominations)
  }

  /** `oscar_winning || 0` */
  function WinsShown(m: Movie): int {
    OrZero(m.oscarWinning)
  }

  /** A count shows as itself when it is present and non-zero, and as 0
      otherwise: `x || 0` never shows a missing value. */
  lemma AwardsShown(m: Movie)
    ensures NominationsShown(m) != 0 <==> m.oscarNominations.Some? && m.oscarNominations.value != 0
    ensures NominationsShown(m) != 0 ==> Some(NominationsShown(m)) == m.oscarNominations
    ensures WinsShown(m) != 0 <==> m.oscarWinning.Some? && m.oscarWinning.value != 0
    ensures WinsShown(m) != 0 ==> Some(WinsShown(m)) == m.oscarWinning
  {
  }

  /** The component's state: the list it was given, the selector's value
      and the selected movie (`null` and `undefined` are both `None`). */
  class DetailsState {
    var movies: seq<Movie>
    var selectedMovieId: string
    var selectedMovie: Option<Movie>

    /** The detail panel is rendered only for a selected movie. */
    predicate ShowsDetails()
      reads this
    {
      selectedMovie.Some?
    }

    /** The first render: nothing selected. */
    constructor (movies: seq<Movie>)
      ensures this.movies == movies
      ensures selectedMovieId == "" && selectedMovie == None && !ShowsDetails()
    {
      this.movies := movies;
      selectedMovieId := "";
      selectedMovie := None;
    }

    /** A new `movies` prop; the effect on `[movies]` clears the selection. */
    method SetMovies(movies: seq<Movie>)
      modifies this
      ensures this.movies == movies
      ensures selectedMovieId == "" && selectedMovie == None && !ShowsDetails()
    {
      this.movies := movies;
      selectedMovieId := "";
      selectedMovie := None;
    }

    /** `handleMovieSelect`: the selector keeps the chosen value and the
      selection becomes the first movie whose id loosely equals it. */
    method HandleMovieSelect(value: string)
      modifies this
      ensures movies == old(movies)
      ensures selectedMovieId == value
      ensures selectedMovie == Selected(movies, value)
      ensures ShowsDetails() <==> exists i :: 0 <= i < |movies| && LooselyEquals(movies[i].id, value)
    {
      selectedMovieId := value;
      var matches := Matching(movies, value);
      selectedMovie := if |matches| > 0 then Some(matches[0]) else None;
      SelectedIsFirstMatch(movies, value);
    }
  }

  /** Choosing `"1"` among the mock records selects The Shawshank
      Redemption, which shows no box office figure and 0 nominations and
      wins. */
  lemma MockSelection(ms: seq<Movie>)
    requires ms == MockMovies()
    ensures Selected(ms, "1") == Some(ms[0])
    ensures ms[0].title == "The Shawshank Redemption" && ms[0].director == "Frank Darabont"
    ensures ms[0].imdbRating == 9.3 && ms[0].cast == ["Tim Robbins", "Morgan Freeman"]
    ensures BoxOfficeShown(ms[0]) == NotAvailable
    ensures NominationsShown(ms[0]) == 0 && WinsShown(ms[0]) == 0
  {
    assert IntToDecimal(ms[0].id) == "1";
    assert LooselyEquals(ms[0].id, "1");
  }

  /** Selecting a movie and then replacing the list with an empty one
      leaves the selector on `""` and no panel. */
  method SelectThenClear() returns (value: string, shown: bool)
    ensures value == "" && !shown
  {
    var ms := MockMovies();
    var details := new DetailsState(ms);
    details.HandleMovieSelect("1");
    MockSelection(ms);
    assert details.ShowsDetails();
    details.SetMovies([]);
    value, shown := details.selectedMovieId, details.ShowsDetails();
  }
}
