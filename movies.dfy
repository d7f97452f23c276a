/** The movie record every view of the dashboard reads. */
module Movies {

  datatype Option<T> = None | Some(value: T)

  /** A movie as the views see it. Fields the records may lack are
      `Option`s; a year is always present (a falsy year is `0`). */
  datatype Movie = Movie(
    id: int,
    title: string,
    year: int,
    director: string,
    genre: seq<string>,
    country: seq<string>,
    language: seq<string>,
    imdbRating: real,
    oscarNominations: Option<int>,
    oscarWinning: Option<int>,
    boxOffice: Option<real>,
    runtime: Option<int>,
    cast: seq<string>)

  /** `x || 0` on an optional count: a missing count and a count of zero
      both read as 0. */
  function OrZero(o: Option<int>): int {
    if o.Some? then o.value else 0
  }

  function Years(movies: seq<Movie>): (ys: seq<int>)
    ensures |ys| == |movies| && forall i :: 0 <= i < |movies| ==> ys[i] == movies[i].year
  {
    seq(|movies|, i requires 0 <= i < |movies| => movies[i].year)
  }

  function GenreLists(movies: seq<Movie>): (ls: seq<seq<string>>)
    ensures |ls| == |movies| && forall i :: 0 <= i < |movies| ==> ls[i] == movies[i].genre
  {
    seq(|movies|, i requires 0 <= i < |movies| => movies[i].genre)
  }

  function CountryLists(movies: seq<Movie>): (ls: seq<seq<string>>)
    ensures |ls| == |movies| && forall i :: 0 <= i < |movies| ==> ls[i] == movies[i].country
  {
    seq(|movies|, i requires 0 <= i < |movies| => movies[i].country)
  }

  function LanguageLists(movies: seq<Movie>): (ls: seq<seq<string>>)
    ensures |ls| == |movies| && forall i :: 0 <= i < |movies| ==> ls[i] == movies[i].language
  {
    seq(|movies|, i requires 0 <= i < |movies| => movies[i].language)
  }

  function CastLists(movies: seq<Movie>): (ls: seq<seq<string>>)
    ensures |ls| == |movies| && forall i :: 0 <= i < |movies| ==> ls[i] == movies[i].cast
  {
    seq(|movies|, i requires 0 <= i < |movies| => movies[i].cast)
  }

  /** The two records the component tests render. Neither has a nomination
      count, a box office figure or a runtime. */
  function MockMovies(): seq<Movie> {
    [ Movie(1, "The Shawshank Redemption", 1994, "Frank Darabont",
            ["Drama"], ["United States"], ["English"], 9.3,
            None, Some(0), None, None, ["Tim Robbins", "Morgan Freeman"]),
      Movie(2, "The Godfather", 1972, "Francis Ford Coppola",
            ["Crime", "Drama"], ["United States"], ["English", "Italian"], 9.2,
            None, Some(3), None, None, ["Marlon Brando", "Al Pacino"]) ]
  }
}
