/**
  What one run of LIRI makes observable: the notices and result blocks it
  writes to the console, the provider requests it issues, and whether it
  ended in an uncaught exception. Console layout (separator lines, labels,
  indentation) is not modelled: a message carries the values it shows.
 */
module Effects {

  /** An error value the program hands to `console.log`. */
  datatype JsError =
    | TransportError(detail: string)  // a rejected request promise
    | TypeError(property: string)     // reading `property` of `undefined`

  datatype Message =
    | ReplayBanner                                      // "Do What it says"
    | UsingFile(command: string, criteria: string)      // the fields read from the replay file
    | UsingDefault(kind: string, defaultValue: string)  // "No <kind> specified, using default: <value>"
    | InvalidCommand                                    // "Missing or invalid command argument. Try again."
    | EventsHeader(artist: string)
    | EventShown(venue: string, city: string, region: string, datetime: string)
    | NoEvents(artist: string)
    | SongCount(matches: nat, shown: nat)               // "There are <m> songs ... The first <n> will be displayed."
    | TrackShown(artists: string, song: string, album: string, preview: string)
    | MovieSummary(title: string, released: string, imdbRating: string)
    | MovieDetails(rottenTomatoes: string, country: string, language: string, actors: string, plot: string)
    | NoMovie(title: string)
    | ErrorLogged(error: JsError)

  /** A request to one of the three providers, with the search term it carries. */
  datatype Request =
    | EventsQuery(artist: string)
    | TrackQuery(song: string)
    | MovieQuery(title: string)

  datatype Execution = Execution(log: seq<Message>, requests: seq<Request>, crashed: bool)
}
