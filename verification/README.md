# LIRI command dispatcher — a Dafny model

LIRI (`liri.js`) is a Node command-line bot. It reads a command and a search
criterion from `process.argv`. It can also take both from the replay file
`random.txt` (the `do-what-it-says` command). It then runs exactly one of three
handlers: `concert-this` (Bands in Town events), `spotify-this-song`
(Spotify track search) or `movie-this` (OMDB lookup). Any other command
prints an invalid-command notice.

This project models the deterministic layer of that program as pure Dafny
functions:

- criterion defaulting (`setCriteria`);
- the artist join (`getArtists`);
- the Rotten Tomatoes lookup (`rottenTomatoes`);
- the replay-file parsing (`doThis`);
- the rewrite-then-switch dispatch of the main process;
- the result-shape branches of the three handlers.

Inputs that the program gets from the outside are parameters:

- the argument vector is a `seq<string>`;
- the replay file is an `Option<string>` (`None` when it cannot be read);
- the three providers form a `Network` value, with one function per provider
  from a search term to a settled request (`Fetched(data)` or `Failed(error)`).

One run is `Dispatch.Execute`. It returns an `Execution`:

- the console messages, in order;
- the provider requests issued;
- whether the run ended in an uncaught exception.

Modules:

- `Wrappers`: `Option`.
- `JsString`: ECMAScript `trim`, one-character `split`, `join` and `substr`, as far
  as `liri.js` uses them (see Left out for string lengths).
- `Effects`: messages, requests, executions.
- `Providers`: response records, `Network`.
- `Criteria`: `setCriteria` and the three defaults.
- `Events`, `Tracks`, `Movies`: the three handlers.
- `Replay`: the replay-file parsing.
- `Dispatch`: the argument vector, the rewrite and the switch.

Behaviour of `liri.js` that the model keeps:

- `doThis` splits the replay line on every comma (liri.js:184). The command and
  criterion are the trimmed first two pieces (liri.js:185-186), and pieces after
  the second are ignored.
- The rewrite from the replay file happens once, before the switch
  (liri.js:200-203). A file that names `do-what-it-says` therefore reaches the
  switch's default case and prints the invalid-command notice (liri.js:215-218)
  (`Dispatch.ReplayOneLevel`).
- A replay file that cannot be read (liri.js:183), or one with no comma, where
  `dataArr[1]` is `undefined` (liri.js:186), throws an uncaught exception before
  the switch. The model records that as `crashed`.
- The movie "found" test at liri.js:157 is JavaScript truthiness of `Response`.
  See Findings.

## Model

| member | source | states |
|---|---|---|
| `JsString.Trim` | liri.js:185-186 | The trimmed field has no whitespace at either end and is never longer than the input |
| `JsString.TrimCutsPadding` | liri.js:185-186 | The trimmed field is the contiguous middle of the input, and everything cut off on either side is whitespace |
| `JsString.TrimPadded` | liri.js:185-186 | Trimming any unpadded core surrounded by whitespace gives back exactly that core, so trim is fully determined |
| `JsString.Split` | liri.js:184 | Splitting on a one-character separator gives at least one piece. No piece contains the separator. Joining the pieces with the separator rebuilds the input. There is a single piece exactly when the separator does not occur |
| `JsString.SplitJoin` | liri.js:184 | Splitting the join of separator-free pieces gives back the same pieces (split and join are inverse) |
| `JsString.Substr` | liri.js:102 | `substr` from a non-negative start gives the slice of the requested length when it fits, and the empty string for a non-positive length |
| `Criteria.SetCriteria` | liri.js:49-55 | An absent or empty criterion becomes the default, with a notice naming the kind and the default. A given criterion is kept unchanged with no notice. The result is never empty when the default is not |
| `Criteria.SetCriteriaIdempotent` | liri.js:49-55 | Resolving an already resolved criterion changes nothing and announces nothing |
| `Events.EventBlocks` | liri.js:76-80 | One block per event, in the order of the response |
| `Events.ConcertResults` | liri.js:73-84 | An empty event list gives exactly the "no events" notice for the artist. Otherwise a header comes first, followed by one block per event in order |
| `Events.ConcertThis` | liri.js:68-89 | Exactly one events request, carrying the resolved non-empty artist. The defaulting notice comes first. The rest of the log is what the response produces: the results for the returned events, or the logged transport error |
| `Tracks.AppendNames` | liri.js:98-101 | The accumulation loop appends the names joined by ", " plus one trailing ", " (nothing for no artists) |
| `Tracks.GetArtists` | liri.js:97-103 | `getArtists` equals the artist names joined by ", ", with no trailing separator. An empty list gives the empty string |
| `Tracks.GetArtistsLength` | liri.js:97-103 | For a non-empty list, the length is the sum of the name lengths plus 2·(n−1) |
| `Tracks.CountNotice` | liri.js:110-115 | At most one notice, present exactly when there are more than MAX_SONGS = 5 matches, stating the true count and the 5 shown |
| `Tracks.ShowTracksAsWritten` | liri.js:116-122 | The display loop as written shows the first min(5, n) tracks in order. It then logs a TypeError exactly when fewer than 5 tracks exist |
| `Tracks.SpotifyResultsAsWritten` | liri.js:110-122 | As written, a resolved search prints the count notice, the first min(5, n) tracks, and then a TypeError when fewer than 5 exist |
| `Tracks.ShortResultLogsTypeError` | liri.js:116-122 | As written, a search with fewer than 5 matches ends in a logged TypeError right after its last track |
| `Tracks.ShowTracks` | liri.js:116-122 | The bounded display loop shows exactly the tracks from position i up to min(5, n), in order |
| `Tracks.SpotifyResults` | liri.js:108-122 | Corrected, see Findings: the count notice appears first exactly when there are more than MAX_SONGS = 5 matches. The rest is one block for each of the first min(5, n) tracks, in order. Nothing else is printed, in particular no error, where the code as written logs a TypeError for fewer than 5 (0 to 4) matches. For 0 matches the corrected display prints nothing |
| `Tracks.SpotifyResultsAgree` | liri.js:110-122 | With at least 5 matches, the bounded loop and the loop as written print the same |
| `Tracks.SpotifySong` | liri.js:104-127 | Corrected, see Findings: exactly one track search, carrying the resolved non-empty song. The defaulting notice comes first. The rest of the log is the bounded display (`Tracks.SpotifyResults`) of the returned tracks, or the logged transport error |
| `Movies.LastMatch` | liri.js:144-148 | Reference search from the end: absent exactly when no rating has source "Rotten Tomatoes", otherwise the index of the last one that does |
| `Movies.ScanRatings` | liri.js:143-148 | The scan ends on its start value or on the value of some Rotten Tomatoes rating. It keeps the start value when no rating matches |
| `Movies.ScanRatingsLastMatch` | liri.js:143-148 | The full forward scan keeps its start value when nothing matches, and otherwise ends on the value of the last match |
| `Movies.RottenTomatoes` | liri.js:142-150 | `rottenTomatoes` is "Not rated" when no source matches, and otherwise the value of the last matching entry (last match wins) |
| `Movies.NotRatedIff` | liri.js:142-150 | The result reads "Not rated" exactly when no source matches or the last match's own value is "Not rated" |
| `Movies.MovieFound` | liri.js:158-166 | A found movie prints two lines: the summary, then the details with the last Rotten Tomatoes rating, country, language, actors and plot. Without a `Ratings` array the second line is the logged TypeError |
| `Movies.MovieResultsAsWritten` | liri.js:157-170 | As written, the "no movie" notice appears exactly when `Response` is falsy. Otherwise the movie is shown |
| `Movies.NotFoundShownAsMovie` | liri.js:157-170 | As written, a record whose `Response` is the string "False" is displayed as a movie and never gets the "no movie" notice |
| `Movies.MovieResults` | liri.js:156-170 | Corrected, see Findings: the "no movie" notice appears exactly when the record is not a hit (`Response` is not "True"), where the code as written tests truthiness. A hit shows the summary, then the details (last Rotten Tomatoes rating, country, language, actors, plot), or the logged TypeError when `Ratings` is missing |
| `Movies.MovieResultsAgree` | liri.js:157-170 | On a hit, or on a falsy flag, the corrected test prints what the code as written prints |
| `Movies.MovieThis` | liri.js:152-175 | Corrected, see Findings: exactly one movie lookup, carrying the resolved non-empty title. The defaulting notice comes first. The rest of the log is the corrected display (`Movies.MovieResults`) of the returned record, or the logged transport error |
| `Replay.ParseReplay` | liri.js:182-189 | Parsing fails exactly when the text has no comma. Otherwise both fields are trimmed and comma-free |
| `Replay.ReplayFields` | liri.js:184-186 | The command is the trimmed text before the first comma. The criterion is the trimmed text between the first and second comma. Anything after a second comma is ignored |
| `Replay.ReplayRoundTrip` | liri.js:184-186 | Writing unpadded, comma-free fields as "command,criteria" and parsing them gives them back |
| `Replay.ReplaySpacedLine` | liri.js:184-186 | The same holds for the line "command, criteria" with a space after the comma: trimming removes the space |
| `Dispatch.Arg` | liri.js:198-199 | An argument past the end of argv is undefined. Otherwise it is the token at that position |
| `Dispatch.FromArgv` | liri.js:198-199 | The command is argv[2] and the criterion argv[3], each undefined when argv is too short |
| `Dispatch.Select` | liri.js:205-219 | The switch selects a handler only for that handler's own token. Every other token, and an absent one, selects none |
| `Dispatch.SelectToken` | liri.js:205-214 | Each handler is selected by its token and by no other value (both directions) |
| `Dispatch.ReplayTokenSelectsNothing` | liri.js:200-219 | `do-what-it-says` is not a switch case |
| `Dispatch.Switch` | liri.js:205-219 | No handler gives exactly the invalid-command notice, no request and no crash. A selected handler issues exactly its own request and never prints that notice. Every request term is non-empty |
| `Dispatch.ReadReplay` | liri.js:183-186 | Reading the replay file fails exactly when the file is missing or has no comma |
| `Dispatch.Execute` | liri.js:198-219 | Corrected, see Findings (it runs the corrected handlers): a run issues at most one request. It issues none exactly when it crashed or printed the invalid-command notice. It crashes exactly when the command is `do-what-it-says` and the replay file is missing or has no comma, and a crash leaves only the replay banner. Every request term is non-empty |
| `Dispatch.DirectCommand` | liri.js:198-214 | A handler token runs exactly that handler with argv's criterion, and issues exactly that handler's request |
| `Dispatch.InvalidCommandOnly` | liri.js:215-218 | Any other or absent command prints only the invalid-command notice and issues no request |
| `Dispatch.ReplayIsDirectRun` | liri.js:200-203 | `do-what-it-says` behaves like giving the file's command and criterion on the command line, preceded by the two replay notices |
| `Dispatch.ReplayOneLevel` | liri.js:200-219 | A file that names `do-what-it-says` ends in the invalid-command notice with no request (no recursion) |
| `Dispatch.ReplayRequest` | liri.js:200-214 | Through the replay file, a handler token issues that handler's request with the file's criterion |
| `Dispatch.ReplaySpacedRequest` | liri.js:200-214 | A replay line "token, criteria" for a handler token issues that handler's request with the criterion, the space trimmed away |
| `Dispatch.ReplayMovieExample` | liri.js:200-213 | The file line "movie-this, Mr. Nobody" issues a movie lookup for "Mr. Nobody" (whitespace trimmed) |
| `Dispatch.ExtraArgumentsIgnored` | liri.js:198-199 | Arguments after the criterion are ignored, not joined into it |

## Left out

- HTTP and Spotify clients, promises: each request is one call of a `Network`
  function, and only its settled value is modelled. Asynchrony and hung requests
  are not modelled, and neither are the URLs built by string concatenation.
- moment date handling: an event block carries the provider's raw `datetime`,
  not the `MM/DD/YYYY` rendering. A movie summary carries the raw `Released`
  string, not `yearReleased`'s four-digit year. Both depend on a foreign date
  library.
- Console layout: `displaySep` separator lines, labels and indentation are not
  modelled. A message carries only the values it shows.
- Environment: `dotenv`, `keys.js` and the Spotify client construction are left
  out. The exit status and stack trace of an uncaught exception are reduced to
  the `crashed` flag.
- Replay-file name: `fs.readFileSync` of `random.txt` is the `file` parameter.
  The file name in the "Using random.txt" notice is not carried by `UsingFile`.
- Response fields: they are modelled as strings. Non-string or missing fields
  (an object instead of an event array, an absent `venue`) are not modelled.
  There are two exceptions. The movie `Ratings` array may be absent, which
  throws and is modelled. The movie `Response` is a `JsValue` (undefined, a
  boolean or a string), so that the truthiness test at liri.js:157 is modelled.
- String lengths: a Dafny `string` is a sequence of Unicode code points, while
  JavaScript's `length` and `substr` count UTF-16 code units. The two differ for
  characters outside the Basic Multilingual Plane. This is harmless for
  `liri.js`: the only cut, at liri.js:102, removes the two code units of the
  ", " that the loop itself appended, and every character `trim` removes is a
  single code unit.
- `JsString.Substr`: models `substr` only for a non-negative start, the only
  form the source uses.
- Tracks.SpotifySong prints the bounded display of `Tracks.SpotifyResults`, not
  what liri.js:116-122 prints for fewer than 5 (0 to 4) tracks (the blocks, if any,
  followed by a logged TypeError; for 0 tracks the corrected display prints nothing), because that read past the end is a Findings row; the as-written
  display is `Tracks.SpotifyResultsAsWritten`.
- Movies.MovieThis treats a record as found only when `Response` is "True", not
  by truthiness as liri.js:157 does, so a `Response` of "False" gives the
  "no movie" notice here; the as-written test is `Movies.MovieResultsAsWritten`.
- Dispatch.Execute runs those two corrected handlers, so a run differs from
  liri.js only in their displays: a search with fewer than 5 (0 to 4) tracks, and a movie
  record whose `Response` is truthy but not "True".

## Findings

| source | as written | input that shows it | evidently intended | confidence | as-written member | corrected member |
|---|---|---|---|---|---|---|
| liri.js:116-122 | The display loop reads `items[i]` for every i from 0 to 4, whatever `items.length` is | A search that returns 3 tracks: after 3 blocks, `items[3].artists` throws a TypeError, which the promise's `catch` logs | Stop the loop at `min(MAX_SONGS, items.length)` | high, not executed | `Tracks.ShortResultLogsTypeError` | `Tracks.SpotifyResults` |
| liri.js:157 | `if (movie.Response)` tests truthiness | An OMDB miss, whose `Response` is the string "False" (truthy): the miss is shown as a movie, and reading its absent `Ratings` throws | Treat the record as found only when `Response` is "True" | medium, not executed | `Movies.NotFoundShownAsMovie` | `Movies.MovieResults` |

`Dispatch.Execute` uses the corrected members: `Tracks.SpotifyResults` and
`Movies.MovieResults`.
