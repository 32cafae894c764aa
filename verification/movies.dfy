/** The `movie-this` command: OMDB lookup and the Rotten Tomatoes rating. */
module Movies {
  import opened Wrappers
  import opened Effects
  import opened Providers
  import opened Criteria

  const ROTTEN_TOMATOES := "Rotten Tomatoes"
  const NOT_RATED := "Not rated"

  /**
    The `forEach` in `rottenTomatoes`: every rating is visited, and a matching
    source overwrites `result`. What it ends on is the starting value or the
    value of some Rotten Tomatoes rating, and the start survives an unrated list.
   */
  function ScanRatings(ratings: seq<Rating>, result: string): (r: string)
    ensures Unrated(ratings) ==> r == result
    ensures r == result || exists i :: 0 <= i < |ratings| && ratings[i].source == ROTTEN_TOMATOES && r == ratings[i].value
  {
    if |ratings| == 0 then result
    else
      var next := if ratings[0].source == ROTTEN_TOMATOES then ratings[0].value else result;
      var r := ScanRatings(ratings[1..], next);
      assert forall j :: 0 <= j < |ratings| - 1 ==> ratings[1..][j] == ratings[j + 1];
      r
  }

  /** Entry `i` is a Rotten Tomatoes rating and no later entry is. */
  predicate IsLastMatch(ratings: seq<Rating>, i: int) {
    && 0 <= i < |ratings|
    && ratings[i].source == ROTTEN_TOMATOES
    && forall j :: i < j < |ratings| ==> ratings[j].source != ROTTEN_TOMATOES
  }

  predicate Unrated(ratings: seq<Rating>) {
    forall j :: 0 <= j < |ratings| ==> ratings[j].source != ROTTEN_TOMATOES
  }

  /** Reference: the index of the last Rotten Tomatoes rating, searching backwards from the end. */
  function LastMatch(ratings: seq<Rating>): (r: Option<nat>)
    ensures r.None? <==> Unrated(ratings)
    ensures r.Some? ==> IsLastMatch(ratings, r.value)
  {
    if |ratings| == 0 then None
    else if ratings[|ratings| - 1].source == ROTTEN_TOMATOES then Some(|ratings| - 1)
    else
      var r := LastMatch(ratings[..|ratings| - 1]);
      assert forall j :: 0 <= j < |ratings| - 1 ==> ratings[..|ratings| - 1][j] == ratings[j];
      r
  }

  /** The scan keeps its starting value when nothing matches, and ends on the last match otherwise. */
  lemma {:induction false} ScanRatingsLastMatch(ratings: seq<Rating>, result: string)
    ensures Unrated(ratings) ==> ScanRatings(ratings, result) == result
    ensures forall i :: IsLastMatch(ratings, i) ==> ScanRatings(ratings, result) == ratings[i].value
  {
    if |ratings| > 0 {
      var next := if ratings[0].source == ROTTEN_TOMATOES then ratings[0].value else result;
      ScanRatingsLastMatch(ratings[1..], next);
      forall i | IsLastMatch(ratings, i)
        ensures ScanRatings(ratings, result) == ratings[i].value
      {
        if i > 0 {
          assert IsLastMatch(ratings[1..], i - 1);
        } else {
          assert Unrated(ratings[1..]);
        }
      }
    }
  }

  /** `rottenTomatoes`: "Not rated" when no source matches, and otherwise the value of the last match. */
  function RottenTomatoes(ratings: seq<Rating>): (r: string)
    ensures r == match LastMatch(ratings)
                 case None => NOT_RATED
                 case Some(i) => ratings[i].value
  {
    ScanRatingsLastMatch(ratings, NOT_RATED);
    ScanRatings(ratings, NOT_RATED)
  }

  /**
    The rating reads "Not rated" exactly when no source matches or the last
    match itself carries the value "Not rated".
   */
  lemma NotRatedIff(ratings: seq<Rating>)
    ensures RottenTomatoes(ratings) == NOT_RATED
        <==> Unrated(ratings) || (exists i :: IsLastMatch(ratings, i) && ratings[i].value == NOT_RATED)
  {
    var m := LastMatch(ratings);
    if m.Some? {
      assert forall i :: IsLastMatch(ratings, i) ==> i == m.value;
    }
  }

  /**
    The lines printed for a found movie: the summary, then the details with the
    last Rotten Tomatoes rating; reading `Ratings` of a record without them throws.
   */
  function MovieFound(m: Movie): (log: seq<Message>)
    ensures |log| == 2 && log[0] == MovieSummary(m.title, m.released, m.imdbRating)
    ensures log[1].MovieDetails? <==> m.ratings.Some?
    ensures m.ratings.Some? ==>
              log[1] == MovieDetails(RottenTomatoes(m.ratings.value), m.country, m.language, m.actors, m.plot)
    ensures m.ratings.None? ==> log[1] == ErrorLogged(TypeError("forEach"))
  {
    [MovieSummary(m.title, m.released, m.imdbRating)]
    + match m.ratings
      case None => [ErrorLogged(TypeError("forEach"))]
      case Some(ratings) => [MovieDetails(RottenTomatoes(ratings), m.country, m.language, m.actors, m.plot)]
  }

  /** As written: the record counts as found whenever its `Response` field is truthy. */
  function MovieResultsAsWritten(title: string, m: Movie): (log: seq<Message>)
    ensures log == [NoMovie(title)] <==> !Truthy(m.response)
    ensures Truthy(m.response) ==> log == MovieFound(m)
  {
    if Truthy(m.response) then MovieFound(m) else [NoMovie(title)]
  }

  /** OMDB reports a miss as the string "False", which is truthy: the miss is displayed as a movie. */
  lemma NotFoundShownAsMovie(title: string, m: Movie)
    requires m.response == Str("False")
    ensures MovieResultsAsWritten(title, m)[0] == MovieSummary(m.title, m.released, m.imdbRating)
    ensures NoMovie(title) !in MovieResultsAsWritten(title, m)
  {
  }

  /** OMDB's success flag is the string "True". */
  predicate Found(m: Movie) {
    m.response == Str("True")
  }

  /**
    What a resolved lookup prints: the "no movie" notice exactly when the
    record is not a hit; for a hit, the summary and then the details with the
    last Rotten Tomatoes rating.
   */
  function MovieResults(title: string, m: Movie): (log: seq<Message>)
    ensures log == [NoMovie(title)] <==> !Found(m)
    ensures Found(m) ==> |log| == 2 && log[0] == MovieSummary(m.title, m.released, m.imdbRating)
    ensures Found(m) && m.ratings.Some? ==>
              log[1] == MovieDetails(RottenTomatoes(m.ratings.value), m.country, m.language, m.actors, m.plot)
    ensures Found(m) && m.ratings.None? ==> log[1] == ErrorLogged(TypeError("forEach"))
  {
    if Found(m) then MovieFound(m) else [NoMovie(title)]
  }

  /** On a hit, or on a falsy flag, the corrected test agrees with the code as written. */
  lemma MovieResultsAgree(title: string, m: Movie)
    requires Found(m) || !Truthy(m.response)
    ensures MovieResultsAsWritten(title, m) == MovieResults(title, m)
  {
  }

  /** The handler: resolve the title, issue one lookup, print what it settles to. */
  function MovieThis(raw: Option<string>, net: Network): (x: Execution)
    ensures var title := SetCriteria(raw, "movie", DEFAULT_MOVIE).criteria;
            && x.requests == [MovieQuery(title)]
            && title != ""
            && !x.crashed
    ensures var notices := SetCriteria(raw, "movie", DEFAULT_MOVIE).notices;
            |x.log| > |notices| && x.log[..|notices|] == notices
    ensures var res := SetCriteria(raw, "movie", DEFAULT_MOVIE);
            match net.movies(res.criteria)
            case Fetched(m) => x.log == res.notices + MovieResults(res.criteria, m)
            case Failed(e) => x.log == res.notices + [ErrorLogged(TransportError(e))]
  {
    var res := SetCriteria(raw, "movie", DEFAULT_MOVIE);
    var shown := match net.movies(res.criteria)
      case Fetched(m) => MovieResults(res.criteria, m)
      case Failed(e) => [ErrorLogged(TransportError(e))];
    Execution(res.notices + shown, [MovieQuery(res.criteria)], false)
  }
}
