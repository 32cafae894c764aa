/**
  The provider responses the core consumes, reduced to the fields it reads,
  and the providers themselves as functions from a search term to a settled
  request (the HTTP and Spotify clients are not part of this model).
 */
module Providers {
  import opened Wrappers

  /** How a request promise settles: resolved with data, or rejected with an error. */
  datatype Fetch<T> = Fetched(data: T) | Failed(error: string)

  /** One Bands in Town event: venue name, city, region and the raw ISO date-time. */
  datatype Event = Event(venue: string, city: string, region: string, datetime: string)

  datatype Artist = Artist(name: string)

  /** One Spotify track item. */
  datatype Track = Track(artists: seq<Artist>, name: string, album: string, previewUrl: string)

  /** One entry of an OMDB movie's `Ratings` array. */
  datatype Rating = Rating(source: string, value: string)

  /** The JavaScript values the core tests for truthiness. */
  datatype JsValue = Undefined | Bool(b: bool) | Str(s: string)

  predicate Truthy(v: JsValue) {
    match v
    case Undefined => false
    case Bool(b) => b
    case Str(s) => s != ""
  }

  /**
    An OMDB movie record. `ratings` is `None` when the `Ratings` field is
    absent; `response` is the record's `Response` field.
   */
  datatype Movie = Movie(
    title: string, released: string, imdbRating: string, ratings: Option<seq<Rating>>,
    country: string, language: string, actors: string, plot: string, response: JsValue)

  /** The three providers: Bands in Town events, Spotify track search, OMDB lookup. */
  datatype Network = Network(
    events: string -> Fetch<seq<Event>>,
    tracks: string -> Fetch<seq<Track>>,
    movies: string -> Fetch<Movie>)
}
