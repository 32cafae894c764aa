/**
  The main process of `liri.js`: read the command and criterion from the
  argument vector, rewrite them once from the replay file for
  `do-what-it-says`, then switch to exactly one handler or print the
  invalid-command notice.
 */
module Dispatch {
  import opened Wrappers
  import opened Effects
  import opened Providers
  import opened Criteria
  import opened Replay
  import Events
  import Tracks
  import Movies

  /** Positions of the command and the criterion in `process.argv`. */
  const CMD_IDX := 2
  const CRITERIA_IDX := 3

  const CONCERT_THIS := "concert-this"
  const SPOTIFY_THIS_SONG := "spotify-this-song"
  const MOVIE_THIS := "movie-this"
  const DO_WHAT_IT_SAYS := "do-what-it-says"

  /** The command and criterion, each `undefined` when not supplied. */
  datatype Args = Args(command: Option<string>, criteria: Option<string>)

  /** `argv[i]`, which is `undefined` past the end. */
  function Arg(argv: seq<string>, i: nat): (a: Option<string>)
    ensures a.Some? <==> i < |argv|
    ensures a.Some? ==> a.value == argv[i]
  {
    if i < |argv| then Some(argv[i]) else None
  }

  /** The command is `argv[2]` and the criterion `argv[3]`, each `undefined` when argv is too short. */
  function FromArgv(argv: seq<string>): (args: Args)
    ensures args.command.Some? <==> |argv| > CMD_IDX
    ensures args.command.Some? ==> args.command.value == argv[CMD_IDX]
    ensures args.criteria.Some? <==> |argv| > CRITERIA_IDX
    ensures args.criteria.Some? ==> args.criteria.value == argv[CRITERIA_IDX]
  {
    Args(Arg(argv, CMD_IDX), Arg(argv, CRITERIA_IDX))
  }

  datatype Handler = Concert | Spotify | MovieLookup

  /** The command token that selects each handler. */
  function Token(h: Handler): string {
    match h
    case Concert => CONCERT_THIS
    case Spotify => SPOTIFY_THIS_SONG
    case MovieLookup => MOVIE_THIS
  }

  /** The `switch`: the handler whose token the command is, if any. */
  function Select(command: Option<string>): (h: Option<Handler>)
    ensures h.Some? ==> command == Some(Token(h.value))
    ensures h.None? ==> forall g: Handler :: command != Some(Token(g))
  {
    if command == Some(CONCERT_THIS) then Some(Concert)
    else if command == Some(SPOTIFY_THIS_SONG) then Some(Spotify)
    else if command == Some(MOVIE_THIS) then Some(MovieLookup)
    else None
  }

  /** Each handler is selected by its own token and by no other. */
  lemma SelectToken(h: Handler, command: Option<string>)
    ensures Select(Some(Token(h))) == Some(h)
    ensures Select(command) == Some(h) <==> command == Some(Token(h))
  {
  }

  /** `do-what-it-says` is not a handler token: after the rewrite it falls to the default case. */
  lemma ReplayTokenSelectsNothing()
    ensures Select(Some(DO_WHAT_IT_SAYS)) == None
  {
  }

  function Invoke(h: Handler, criteria: Option<string>, net: Network): Execution {
    match h
    case Concert => Events.ConcertThis(criteria, net)
    case Spotify => Tracks.SpotifySong(criteria, net)
    case MovieLookup => Movies.MovieThis(criteria, net)
  }

  /** The request a handler issues for a criterion, after defaulting it. */
  function RequestFor(h: Handler, criteria: Option<string>): Request {
    match h
    case Concert => EventsQuery(SetCriteria(criteria, "artist", DEFAULT_ARTIST).criteria)
    case Spotify => TrackQuery(SetCriteria(criteria, "song", DEFAULT_SONG).criteria)
    case MovieLookup => MovieQuery(SetCriteria(criteria, "movie", DEFAULT_MOVIE).criteria)
  }

  /** The search term a request carries. */
  function Term(r: Request): string {
    match r
    case EventsQuery(artist) => artist
    case TrackQuery(song) => song
    case MovieQuery(title) => title
  }

  /** The switch over the (possibly rewritten) command. */
  function Switch(args: Args, net: Network): (x: Execution)
    ensures Select(args.command).None? ==> x == Execution([InvalidCommand], [], false)
    ensures Select(args.command).Some? ==>
              && x.requests == [RequestFor(Select(args.command).value, args.criteria)]
              && InvalidCommand !in x.log
              && !x.crashed
    ensures forall r :: r in x.requests ==> Term(r) != ""
  {
    match Select(args.command)
    case None => Execution([InvalidCommand], [], false)
    case Some(h) =>
      HandlerLogNoInvalid(h, args.criteria, net);
      Invoke(h, args.criteria, net)
  }

  /** No handler prints the invalid-command notice. */
  lemma HandlerLogNoInvalid(h: Handler, criteria: Option<string>, net: Network)
    ensures InvalidCommand !in Invoke(h, criteria, net).log
  {
    match h
    case Concert => ConcertLogNoInvalid(criteria, net);
    case Spotify => SpotifyLogNoInvalid(criteria, net);
    case MovieLookup => MovieLogNoInvalid(criteria, net);
  }

  lemma ConcertLogNoInvalid(criteria: Option<string>, net: Network)
    ensures InvalidCommand !in Events.ConcertThis(criteria, net).log
  {
  }

  lemma SpotifyLogNoInvalid(criteria: Option<string>, net: Network)
    ensures InvalidCommand !in Tracks.SpotifySong(criteria, net).log
  {
  }

  lemma MovieLogNoInvalid(criteria: Option<string>, net: Network)
    ensures InvalidCommand !in Movies.MovieThis(criteria, net).log
  {
  }

  /** The file behind `do-what-it-says`: `None` when it cannot be read or has no comma, where the program throws. */
  function ReadReplay(file: Option<string>): (r: Option<Fields>)
    ensures r.None? <==> file.None? || ',' !in file.value
  {
    if file.None? then None else ParseReplay(file.value)
  }

  /**
    One run of the program on the argument vector `argv`, the contents of the
    replay file (`None` when it cannot be read) and the providers `net`.
   */
  function Execute(argv: seq<string>, file: Option<string>, net: Network): (x: Execution)
    ensures |x.requests| <= 1
    ensures x.requests == [] <==> x.crashed || InvalidCommand in x.log
    ensures x.crashed <==> Arg(argv, CMD_IDX) == Some(DO_WHAT_IT_SAYS) && ReadReplay(file).None?
    ensures x.crashed ==> x.log == [ReplayBanner]
    ensures forall r :: r in x.requests ==> Term(r) != ""
  {
    var args := FromArgv(argv);
    if args.command == Some(DO_WHAT_IT_SAYS) then
      match ReadReplay(file)
      case None => Execution([ReplayBanner], [], true)
      case Some(f) =>
        var x := Switch(Args(Some(f.command), Some(f.criteria)), net);
        Execution([ReplayBanner, UsingFile(f.command, f.criteria)] + x.log, x.requests, x.crashed)
    else
      Switch(args, net)
  }

  /** A handler token runs exactly that handler, with the argument's criterion; the replay file is not read. */
  lemma DirectCommand(argv: seq<string>, file: Option<string>, net: Network, h: Handler)
    requires Arg(argv, CMD_IDX) == Some(Token(h))
    ensures Execute(argv, file, net) == Invoke(h, Arg(argv, CRITERIA_IDX), net)
    ensures Execute(argv, file, net).requests == [RequestFor(h, Arg(argv, CRITERIA_IDX))]
  {
    SelectToken(h, Arg(argv, CMD_IDX));
  }

  /** Any other command, including a missing one, prints only the invalid-command notice. */
  lemma InvalidCommandOnly(argv: seq<string>, file: Option<string>, net: Network)
    requires Arg(argv, CMD_IDX) != Some(DO_WHAT_IT_SAYS)
    requires forall h: Handler :: Arg(argv, CMD_IDX) != Some(Token(h))
    ensures Execute(argv, file, net) == Execution([InvalidCommand], [], false)
  {
  }

  /**
    `do-what-it-says` runs as if the file's command and criterion had been
    given on the command line, after the two replay notices.
   */
  lemma ReplayIsDirectRun(argv: seq<string>, file: Option<string>, net: Network, f: Fields)
    requires Arg(argv, CMD_IDX) == Some(DO_WHAT_IT_SAYS)
    requires ReadReplay(file) == Some(f)
    requires f.command != DO_WHAT_IT_SAYS
    ensures var direct := Execute(argv[..CMD_IDX] + [f.command, f.criteria], file, net);
            Execute(argv, file, net)
              == Execution([ReplayBanner, UsingFile(f.command, f.criteria)] + direct.log, direct.requests, direct.crashed)
  {
    var argv' := argv[..CMD_IDX] + [f.command, f.criteria];
    assert Arg(argv', CMD_IDX) == Some(f.command);
    assert Arg(argv', CRITERIA_IDX) == Some(f.criteria);
  }

  /** The rewrite is one level deep: a file that names `do-what-it-says` ends in the invalid-command notice. */
  lemma ReplayOneLevel(argv: seq<string>, file: Option<string>, net: Network, f: Fields)
    requires Arg(argv, CMD_IDX) == Some(DO_WHAT_IT_SAYS)
    requires ReadReplay(file) == Some(f)
    requires f.command == DO_WHAT_IT_SAYS
    ensures Execute(argv, file, net)
         == Execution([ReplayBanner, UsingFile(DO_WHAT_IT_SAYS, f.criteria), InvalidCommand], [], false)
  {
    ReplayTokenSelectsNothing();
  }

  /** Through the replay file, a handler token issues that handler's request with the file's criterion. */
  lemma ReplayRequest(argv: seq<string>, file: Option<string>, net: Network, f: Fields, h: Handler)
    requires Arg(argv, CMD_IDX) == Some(DO_WHAT_IT_SAYS)
    requires ReadReplay(file) == Some(f)
    requires f.command == Token(h)
    ensures Execute(argv, file, net).requests == [RequestFor(h, Some(f.criteria))]
  {
    SelectToken(h, Some(f.command));
  }

  /** A replay line "<token>, <criteria>" issues the token's request with the criterion, the space trimmed away. */
  lemma ReplaySpacedRequest(argv: seq<string>, net: Network, h: Handler, criteria: string)
    requires Arg(argv, CMD_IDX) == Some(DO_WHAT_IT_SAYS)
    requires JsString.Unpadded(criteria) && ',' !in criteria
    ensures Execute(argv, Some(Token(h) + ", " + criteria), net).requests == [RequestFor(h, Some(criteria))]
  {
    var f := Fields(Token(h), criteria);
    assert JsString.Unpadded(f.command) && ',' !in f.command by {
      match h
      case Concert =>
      case Spotify =>
      case MovieLookup =>
    }
    ReplaySpacedLine(f);
    ReplayRequest(argv, Some(Token(h) + ", " + criteria), net, f, h);
  }

  /** The file line "movie-this, Mr. Nobody" runs a movie lookup for "Mr. Nobody". */
  lemma ReplayMovieExample(argv: seq<string>, text: string, net: Network)
    requires Arg(argv, CMD_IDX) == Some(DO_WHAT_IT_SAYS)
    requires text == "movie-this, Mr. Nobody"
    ensures Execute(argv, Some(text), net).requests == [MovieQuery("Mr. Nobody")]
  {
    var title := "Mr. Nobody";
    assert JsString.Unpadded(title) && ',' !in title;
    assert text == Token(MovieLookup) + ", " + title;
    ReplaySpacedRequest(argv, net, MovieLookup, title);
  }

  /** Arguments after the criterion are ignored, not joined into it. */
  lemma ExtraArgumentsIgnored(argv: seq<string>, extra: seq<string>, file: Option<string>, net: Network)
    requires |argv| > CRITERIA_IDX
    ensures Execute(argv + extra, file, net) == Execute(argv, file, net)
  {
    assert FromArgv(argv + extra) == FromArgv(argv);
  }
}
