/** The three leaderboards: the five best-rated movies, the five movies
    with most Oscar wins, and the five actors with most appearances. */
module TopPerformers {
  import opened Seqs
  import opened Sorting
  import opened Counting
  import opened Movies

  /** `{ actor, count }` */
  datatype ActorCount = ActorCount(actor: string, count: nat)

  datatype Rankings = Rankings(topRatedMovies: seq<Movie>, topOscarWinners: seq<Movie>, topActors: seq<ActorCount>)

  function Sign(x: real): int {
    if x < 0.0 then -1 else if x > 0.0 then 1 else 0
  }

  /** `(a, b) => b.imdb_rating - a.imdb_rating`. The sort only looks at the
      sign of the difference: best rated first. */
  function ByRatingDesc(a: Movie, b: Movie): int {
    Sign(b.imdbRating - a.imdbRating)
  }

  /** `(a, b) => (b.oscar_winning || 0) - (a.oscar_winning || 0)`: most wins
      first, a missing count read as 0. */
  function ByOscarsDesc(a: Movie, b: Movie): int {
    OrZero(b.oscarWinning) - OrZero(a.oscarWinning)
  }

  lemma ByRatingDescConsistent()
    ensures Consistent(ByRatingDesc)
  {
    forall a: Movie, b: Movie, c: Movie ensures Chain(ByRatingDesc, a, b, c) {
    }
  }

  lemma ByOscarsDescConsistent()
    ensures Consistent(ByOscarsDesc)
  {
    forall a: Movie, b: Movie, c: Movie ensures Chain(ByOscarsDesc, a, b, c) {
    }
  }

  /** `.map(([actor, count]) => ({ actor, count }))` */
  function AsActorCounts(t: seq<Entry<string>>): (r: seq<ActorCount>)
    ensures |r| == |t| && forall i :: 0 <= i < |t| ==> r[i] == ActorCount(t[i].key, t[i].count)
  {
    seq(|t|, i requires 0 <= i < |t| => ActorCount(t[i].key, t[i].count))
  }

  function TopRated(movies: seq<Movie>): seq<Movie> {
    TopN(movies, ByRatingDesc, 5)
  }

  function TopOscars(movies: seq<Movie>): seq<Movie> {
    TopN(movies, ByOscarsDesc, 5)
  }

  function TopActors(movies: seq<Movie>): seq<ActorCount> {
    AsActorCounts(TopN(Tally(Flatten(CastLists(movies))), ByCountDesc, 5))
  }

  /** What the `topPerformers` memo holds for `movies`. */
  function Ranked(movies: seq<Movie>): Rankings {
    Rankings(TopRated(movies), TopOscars(movies), TopActors(movies))
  }

  /** The `topPerformers` memo: two sorted copies of the list cut to five,
      and the cast members counted into an object whose entries are sorted
      by count and cut to five. `movies` itself is a value and is not
      reordered. */
  method ComputeTopPerformers(movies: seq<Movie>) returns (r: Rankings)
    ensures r == Ranked(movies)
  {
    ByRatingDescConsistent();
    var byRating := SortedCopy(movies, ByRatingDesc);
    var topRated := Take(byRating, 5);

    ByOscarsDescConsistent();
    var byOscars := SortedCopy(movies, ByOscarsDesc);
    var topOscars := Take(byOscars, 5);

    var appearances := CountLists(CastLists(movies));
    ByCountDescConsistent<string>();
    var byCount := SortedCopy(appearances, ByCountDesc);
    var topActors := AsActorCounts(Take(byCount, 5));

    r := Rankings(topRated, topOscars, topActors);
  }

  /** The best-rated list: five movies (fewer when the list is shorter), all
      from the list, ratings non-increasing, equally rated movies in list
      order, and no movie left out rated above the last one shown. */
  lemma TopRatedFacts(movies: seq<Movie>)
    ensures |TopRated(movies)| == Min(5, |movies|)
    ensures multiset(TopRated(movies)) <= multiset(movies)
    ensures forall i, j :: 0 <= i < j < |TopRated(movies)| ==>
      TopRated(movies)[i].imdbRating >= TopRated(movies)[j].imdbRating
    ensures forall z :: Ties(TopRated(movies), z, ByRatingDesc) <= Ties(movies, z, ByRatingDesc)
    ensures forall m :: m in multiset(movies) - multiset(TopRated(movies)) ==>
      TopRated(movies) != [] && m.imdbRating <= TopRated(movies)[|TopRated(movies)| - 1].imdbRating
  {
    RatedTopN(movies);
    RatingOrder(TopRated(movies));
    RatingLeftOut(movies, TopRated(movies));
  }

  lemma RatedTopN(movies: seq<Movie>)
    ensures |TopRated(movies)| == Min(5, |movies|)
    ensures Sorted(TopRated(movies), ByRatingDesc)
    ensures multiset(TopRated(movies)) <= multiset(movies)
    ensures forall z :: Ties(TopRated(movies), z, ByRatingDesc) <= Ties(movies, z, ByRatingDesc)
    ensures forall e :: e in multiset(movies) - multiset(TopRated(movies)) ==>
      TopRated(movies) != [] && ByRatingDesc(TopRated(movies)[|TopRated(movies)| - 1], e) <= 0
  {
    assert TopRated(movies) == TopN(movies, ByRatingDesc, 5);
    ByRatingDescConsistent();
    TopNFacts(movies, ByRatingDesc, 5);
  }

  lemma RatingLeftOut(movies: seq<Movie>, t: seq<Movie>)
    requires forall e :: e in multiset(movies) - multiset(t) ==> t != [] && ByRatingDesc(t[|t| - 1], e) <= 0
    ensures forall m :: m in multiset(movies) - multiset(t) ==> t != [] && m.imdbRating <= t[|t| - 1].imdbRating
  {
  }

  lemma RatingOrder(t: seq<Movie>)
    requires Sorted(t, ByRatingDesc)
    ensures forall i, j :: 0 <= i < j < |t| ==> t[i].imdbRating >= t[j].imdbRating
  {
    forall i, j | 0 <= i < j < |t| ensures t[i].imdbRating >= t[j].imdbRating {
      assert ByRatingDesc(t[i], t[j]) <= 0;
    }
  }

  /** The Oscar list: five movies (fewer when the list is shorter), all from
      the list, wins non-increasing with a missing count read as 0, equal
      wins in list order, and no movie left out with more wins than the
      last one shown. */
  lemma TopOscarFacts(movies: seq<Movie>)
    ensures |TopOscars(movies)| == Min(5, |movies|)
    ensures multiset(TopOscars(movies)) <= multiset(movies)
    ensures forall i, j :: 0 <= i < j < |TopOscars(movies)| ==>
      OrZero(TopOscars(movies)[i].oscarWinning) >= OrZero(TopOscars(movies)[j].oscarWinning)
    ensures forall z :: Ties(TopOscars(movies), z, ByOscarsDesc) <= Ties(movies, z, ByOscarsDesc)
    ensures forall m :: m in multiset(movies) - multiset(TopOscars(movies)) ==>
      TopOscars(movies) != [] &&
      OrZero(m.oscarWinning) <= OrZero(TopOscars(movies)[|TopOscars(movies)| - 1].oscarWinning)
  {
    OscarsTopN(movies);
    OscarsOrder(TopOscars(movies));
    OscarsLeftOut(movies, TopOscars(movies));
  }

  lemma OscarsTopN(movies: seq<Movie>)
    ensures |TopOscars(movies)| == Min(5, |movies|)
    ensures Sorted(TopOscars(movies), ByOscarsDesc)
    ensures multiset(TopOscars(movies)) <= multiset(movies)
    ensures forall z :: Ties(TopOscars(movies), z, ByOscarsDesc) <= Ties(movies, z, ByOscarsDesc)
    ensures forall e :: e in multiset(movies) - multiset(TopOscars(movies)) ==>
      TopOscars(movies) != [] && ByOscarsDesc(TopOscars(movies)[|TopOscars(movies)| - 1], e) <= 0
  {
    assert TopOscars(movies) == TopN(movies, ByOscarsDesc, 5);
    ByOscarsDescConsistent();
    TopNFacts(movies, ByOscarsDesc, 5);
  }

  lemma OscarsLeftOut(movies: seq<Movie>, t: seq<Movie>)
    requires forall e :: e in multiset(movies) - multiset(t) ==> t != [] && ByOscarsDesc(t[|t| - 1], e) <= 0
    ensures forall m :: m in multiset(movies) - multiset(t) ==>
      t != [] && OrZero(m.oscarWinning) <= OrZero(t[|t| - 1].oscarWinning)
  {
  }

  lemma OscarsOrder(t: seq<Movie>)
    requires Sorted(t, ByOscarsDesc)
    ensures forall i, j :: 0 <= i < j < |t| ==> OrZero(t[i].oscarWinning) >= OrZero(t[j].oscarWinning)
  {
    forall i, j | 0 <= i < j < |t| ensures OrZero(t[i].oscarWinning) >= OrZero(t[j].oscarWinning) {
      assert ByOscarsDesc(t[i], t[j]) <= 0;
    }
  }

  /** The actor list: at most five actors, each once, each with the number
      of times they appear across the cast lists, and counts
      non-increasing. */
  lemma TopActorsFacts(movies: seq<Movie>)
    ensures |TopActors(movies)| == Min(5, |Distinct(Flatten(CastLists(movies)))|)
    ensures forall i, j :: 0 <= i < j < |TopActors(movies)| ==> TopActors(movies)[i].actor != TopActors(movies)[j].actor
    ensures forall a :: a in TopActors(movies) ==> a.count == CountInLists(CastLists(movies), a.actor) >= 1
    ensures forall i, j :: 0 <= i < j < |TopActors(movies)| ==> TopActors(movies)[i].count >= TopActors(movies)[j].count
    ensures forall a :: a in TopActors(movies) ==> a.actor in Flatten(CastLists(movies))
    ensures forall i, j :: 0 <= i < j < |TopActors(movies)| && TopActors(movies)[i].count == TopActors(movies)[j].count ==>
      FirstIndex(Flatten(CastLists(movies)), TopActors(movies)[i].actor) <
      FirstIndex(Flatten(CastLists(movies)), TopActors(movies)[j].actor)
  {
    var lists := CastLists(movies);
    var flat := Flatten(lists);
    var e := TopN(Tally(flat), ByCountDesc, 5);
    TopTallyFacts(flat, 5);
    assert TopActors(movies) == AsActorCounts(e);
    ActorCountsOf(lists, e);
    ActorOrder(e);
    ActorTies(flat, e);
  }

  /** Renaming the entries keeps where their keys were first met. */
  lemma ActorTies(flat: seq<string>, e: seq<Entry<string>>)
    requires e == TopN(Tally(flat), ByCountDesc, 5)
    ensures forall a :: a in AsActorCounts(e) ==> a.actor in flat
    ensures forall i, j :: 0 <= i < j < |e| && AsActorCounts(e)[i].count == AsActorCounts(e)[j].count ==>
      FirstIndex(flat, AsActorCounts(e)[i].actor) < FirstIndex(flat, AsActorCounts(e)[j].actor)
  {
    TopTallyTieOrder(flat, 5);
    forall a | a in AsActorCounts(e) ensures a.actor in flat {
      var i :| 0 <= i < |e| && AsActorCounts(e)[i] == a;
      assert e[i] in e;
    }
  }

  /** No actor who is left out of the list appears more often than the last
      one shown (and the list is not empty when any movie has a cast). */
  lemma TopActorsLeftOut(movies: seq<Movie>, name: string)
    requires exists m :: m in movies && name in m.cast
    requires forall a :: a in TopActors(movies) ==> a.actor != name
    ensures TopActors(movies) != [] && CountInLists(CastLists(movies), name) <= TopActors(movies)[|TopActors(movies)| - 1].count
  {
    var lists := CastLists(movies);
    var flat := Flatten(lists);
    var e := TopN(Tally(flat), ByCountDesc, 5);
    TopTallyFacts(flat, 5);
    assert TopActors(movies) == AsActorCounts(e);
    var m :| m in movies && name in m.cast;
    var k :| 0 <= k < |movies| && movies[k] == m;
    ActorLeftOut(lists, e, name, k);
  }

  lemma ActorOrder(e: seq<Entry<string>>)
    requires forall i, j :: 0 <= i < j < |e| ==> e[i].count >= e[j].count
    ensures forall i, j :: 0 <= i < j < |e| ==> AsActorCounts(e)[i].count >= AsActorCounts(e)[j].count
  {
  }

  lemma ActorCountsOf(lists: seq<seq<string>>, e: seq<Entry<string>>)
    requires NoDuplicates(Keys(e))
    requires forall x :: x in e ==> x.count == Count(Flatten(lists), x.key) >= 1
    ensures forall i, j :: 0 <= i < j < |e| ==> AsActorCounts(e)[i].actor != AsActorCounts(e)[j].actor
    ensures forall a :: a in AsActorCounts(e) ==> a.count == CountInLists(lists, a.actor) >= 1
  {
    var t := AsActorCounts(e);
    forall i, j | 0 <= i < j < |t| ensures t[i].actor != t[j].actor {
      assert Keys(e)[i] != Keys(e)[j];
    }
    forall a | a in t ensures a.count == CountInLists(lists, a.actor) >= 1 {
      var i :| 0 <= i < |t| && t[i] == a;
      assert e[i] in e;
      CountFlatten(lists, a.actor);
    }
  }

  lemma ActorLeftOut(lists: seq<seq<string>>, e: seq<Entry<string>>, name: string, k: nat)
    requires k < |lists| && name in lists[k]
    requires forall a :: a in AsActorCounts(e) ==> a.actor != name
    requires forall x :: x in Flatten(lists) && x !in Keys(e) && e != [] ==> Count(Flatten(lists), x) <= e[|e| - 1].count
    requires |e| == Min(5, |Distinct(Flatten(lists))|)
    ensures AsActorCounts(e) != [] && CountInLists(lists, name) <= AsActorCounts(e)[|e| - 1].count
  {
    var flat := Flatten(lists);
    FlattenMember(lists, name);
    CountFlatten(lists, name);
    forall i | 0 <= i < |e| ensures e[i].key != name {
      assert AsActorCounts(e)[i] in AsActorCounts(e);
    }
    assert |Distinct(flat)| > 0 by {
      assert name in Distinct(flat);
    }
  }

  /** With the two records the component tests render: The Shawshank
      Redemption (9.3) then The Godfather by rating, The Godfather (3 wins)
      then The Shawshank Redemption by Oscar wins, and the four cast
      members once each, in the order they were first listed. */
  lemma MockRankings()
    ensures Ranked(MockMovies()).topRatedMovies == [MockMovies()[0], MockMovies()[1]]
    ensures Ranked(MockMovies()).topOscarWinners == [MockMovies()[1], MockMovies()[0]]
    ensures Ranked(MockMovies()).topRatedMovies[0].title == "The Shawshank Redemption"
    ensures Ranked(MockMovies()).topRatedMovies[1].title == "The Godfather"
    ensures Ranked(MockMovies()).topRatedMovies[0].imdbRating == 9.3
    ensures Ranked(MockMovies()).topOscarWinners[0].title == "The Godfather"
    ensures OrZero(Ranked(MockMovies()).topOscarWinners[0].oscarWinning) == 3
    ensures Ranked(MockMovies()).topOscarWinners[1].title == "The Shawshank Redemption"
    ensures Ranked(MockMovies()).topActors ==
      [ActorCount("Tim Robbins", 1), ActorCount("Morgan Freeman", 1),
       ActorCount("Marlon Brando", 1), ActorCount("Al Pacino", 1)]
  {
    var ms := MockMovies();
    assert ms[..1] == [ms[0]];
    assert Sort(ms[..1], ByRatingDesc) == [ms[0]];
    assert Sort(ms, ByRatingDesc) == Insert([ms[0]], ms[1], ByRatingDesc);
    assert Sort(ms, ByRatingDesc) == [ms[0], ms[1]];
    assert Sort(ms[..1], ByOscarsDesc) == [ms[0]];
    assert Sort(ms, ByOscarsDesc) == Insert([ms[0]], ms[1], ByOscarsDesc);
    assert Sort(ms, ByOscarsDesc) == [ms[1], ms[0]];
    TakeAll(Sort(ms, ByRatingDesc));
    TakeAll(Sort(ms, ByOscarsDesc));
    MockActors();
  }

  lemma MockActors()
    ensures TopActors(MockMovies()) ==
      [ActorCount("Tim Robbins", 1), ActorCount("Morgan Freeman", 1),
       ActorCount("Marlon Brando", 1), ActorCount("Al Pacino", 1)]
  {
    MockActorsOf(MockMovies());
  }

  lemma MockActorsOf(ms: seq<Movie>)
    requires ms == MockMovies()
    ensures TopActors(ms) ==
      [ActorCount("Tim Robbins", 1), ActorCount("Morgan Freeman", 1),
       ActorCount("Marlon Brando", 1), ActorCount("Al Pacino", 1)]
  {
    var lists := CastLists(ms);
    assert lists == [ms[0].cast, ms[1].cast];
    var flat := MockCast(lists);
    var t := MockTally(flat);
    SortTies(t);
    assert TopN(t, ByCountDesc, 5) == t;
    assert TopActors(ms) == AsActorCounts(t);
    MockActorCounts(t);
  }

  lemma MockActorCounts(t: seq<Entry<string>>)
    requires t == [Entry("Tim Robbins", 1), Entry("Morgan Freeman", 1), Entry("Marlon Brando", 1), Entry("Al Pacino", 1)]
    ensures AsActorCounts(t) ==
      [ActorCount("Tim Robbins", 1), ActorCount("Morgan Freeman", 1),
       ActorCount("Marlon Brando", 1), ActorCount("Al Pacino", 1)]
  {
    var r := AsActorCounts(t);
    assert r[0] == ActorCount(t[0].key, t[0].count);
  }

  lemma MockCast(lists: seq<seq<string>>) returns (flat: seq<string>)
    requires lists == [["Tim Robbins", "Morgan Freeman"], ["Marlon Brando", "Al Pacino"]]
    ensures flat == ["Tim Robbins", "Morgan Freeman", "Marlon Brando", "Al Pacino"]
    ensures Flatten(lists) == flat
  {
    flat := ["Tim Robbins", "Morgan Freeman", "Marlon Brando", "Al Pacino"];
    assert lists[..1] == [lists[0]];
    assert Flatten(lists[..1]) == lists[0];
  }

  lemma MockTally(flat: seq<string>) returns (t: seq<Entry<string>>)
    requires flat == ["Tim Robbins", "Morgan Freeman", "Marlon Brando", "Al Pacino"]
    ensures t == Tally(flat)
    ensures t == [Entry("Tim Robbins", 1), Entry("Morgan Freeman", 1), Entry("Marlon Brando", 1), Entry("Al Pacino", 1)]
  {
    assert NoDuplicates(flat);
    DistinctOfDistinct(flat);
    t := Tally(flat);
    forall k | 0 <= k < 4 ensures Count(flat, flat[k]) == 1 {
      CountOfDistinct(flat, k);
    }
  }

  /** A list without repeats is its own set of distinct values. */
  lemma {:induction false} DistinctOfDistinct<T(!new)>(xs: seq<T>)
    requires NoDuplicates(xs)
    ensures Distinct(xs) == xs
  {
    if xs != [] {
      var n := |xs| - 1;
      DistinctOfDistinct(xs[..n]);
      assert xs[n] !in xs[..n];
      assert xs == xs[..n] + [xs[n]];
    }
  }

  lemma {:induction false} CountOfDistinct<T>(xs: seq<T>, k: nat)
    requires NoDuplicates(xs) && k < |xs|
    ensures Count(xs, xs[k]) == 1
  {
    var n := |xs| - 1;
    if k == n {
      assert xs[n] !in xs[..n];
    } else {
      CountOfDistinct(xs[..n], k);
    }
  }

  /** Entries whose counts are all equal come out of the sort as they went in. */
  lemma {:induction false} SortTies(t: seq<Entry<string>>)
    requires forall i :: 0 <= i < |t| ==> t[i].count == 1
    ensures Sort(t, ByCountDesc) == t
  {
    if t != [] {
      var n := |t| - 1;
      var init := t[..n];
      assert forall i :: 0 <= i < |init| ==> init[i].count == 1 by {
        forall i | 0 <= i < |init| ensures init[i].count == 1 {
          assert init[i] == t[i];
        }
      }
      SortTies(init);
      InsertAtEnd(init, t[n]);
      assert Sort(t, ByCountDesc) == Insert(Sort(init, ByCountDesc), t[n], ByCountDesc);
      assert t == init + [t[n]];
    }
  }

  lemma {:induction false} InsertAtEnd(s: seq<Entry<string>>, x: Entry<string>)
    requires x.count == 1 && forall i :: 0 <= i < |s| ==> s[i].count == 1
    ensures Insert(s, x, ByCountDesc) == s + [x]
  {
    if s != [] {
      InsertAtEnd(s[1..], x);
      assert s == [s[0]] + s[1..];
    }
  }
}
