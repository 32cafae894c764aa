/** The `spotify-this-song` command: track search, artist names, and the five-result display. */
module Tracks {
  import opened Wrappers
  import opened Effects
  import opened Providers
  import opened Criteria
  import opened JsString

  /** Number of tracks the display loop shows. */
  const MAX_SONGS := 5
  const ARTIST_SEPARATOR := ", "

  function Names(artists: seq<Artist>): (names: seq<string>)
    ensures |names| == |artists|
    ensures forall i :: 0 <= i < |artists| ==> names[i] == artists[i].name
  {
    seq(|artists|, i requires 0 <= i < |artists| => artists[i].name)
  }

  /**
    The `forEach` in `getArtists`: append every name followed by the separator
    to `result`, which leaves the names joined by ", " with one separator too
    many at the end.
   */
  function AppendNames(artists: seq<Artist>, result: string): (r: string)
    ensures r == result + Join(Names(artists), ARTIST_SEPARATOR)
                        + (if |artists| > 0 then ARTIST_SEPARATOR else "")
  {
    if |artists| == 0 then result
    else
      var r := AppendNames(artists[1..], result + artists[0].name + ARTIST_SEPARATOR);
      assert Names(artists)[1..] == Names(artists[1..]);
      r
  }

  /**
    `getArtists`: the accumulated string minus its last two characters, which
    is the names joined by ", " (and the empty string for no artists).
   */
  function GetArtists(artists: seq<Artist>): (r: string)
    ensures r == Join(Names(artists), ARTIST_SEPARATOR)
    ensures |artists| == 0 ==> r == ""
  {
    var result := AppendNames(artists, "");
    assert |artists| > 0 ==> result[0..|result| - 2] == Join(Names(artists), ARTIST_SEPARATOR);
    Substr(result, 0, |result| - 2)
  }

  /** The shown artist string is the names plus two characters between each neighbouring pair. */
  lemma GetArtistsLength(artists: seq<Artist>)
    requires |artists| > 0
    ensures |GetArtists(artists)| == TotalLength(Names(artists)) + 2 * (|artists| - 1)
  {
    JoinLength(Names(artists), ARTIST_SEPARATOR);
  }

  /** The block shown for one track. */
  function TrackBlock(t: Track): Message {
    TrackShown(GetArtists(t.artists), t.name, t.album, t.previewUrl)
  }

  /** Reference: one block per track, in order. */
  function TrackBlocks(items: seq<Track>): (log: seq<Message>)
    ensures |log| == |items|
    ensures forall i :: 0 <= i < |items| ==> log[i] == TrackBlock(items[i])
  {
    seq(|items|, i requires 0 <= i < |items| => TrackBlock(items[i]))
  }

  lemma TrackBlocksCons(items: seq<Track>, i: nat, m: nat)
    requires i < m <= |items|
    ensures TrackBlocks(items[i..m]) == [TrackBlock(items[i])] + TrackBlocks(items[i + 1..m])
  {
    assert items[i..m] == [items[i]] + items[i + 1..m];
  }

  /** The notice printed when the search matched more tracks than are shown. */
  function CountNotice(items: seq<Track>): (notice: seq<Message>)
    ensures |notice| <= 1
    ensures notice != [] <==> |items| > MAX_SONGS
    ensures notice != [] ==> notice[0] == SongCount(|items|, MAX_SONGS)
  {
    if |items| > MAX_SONGS then [SongCount(|items|, MAX_SONGS)] else []
  }

  /**
    The display loop as written: indices `i` up to `MAX_SONGS` with no bound
    check. Reading a track past the end of the list throws a TypeError (on
    `.artists` of `undefined`), which ends the loop inside the promise chain,
    whose `catch` logs it. So the loop shows the tracks up to `min(5, n)` and
    then logs a TypeError whenever fewer than five exist.
   */
  function ShowTracksAsWritten(items: seq<Track>, i: nat): (log: seq<Message>)
    requires i <= MAX_SONGS
    ensures i <= Min(MAX_SONGS, |items|) ==>
              log == TrackBlocks(items[i..Min(MAX_SONGS, |items|)])
                   + (if |items| < MAX_SONGS then [ErrorLogged(TypeError("artists"))] else [])
    decreases MAX_SONGS - i
  {
    if i == MAX_SONGS then []
    else if i >= |items| then [ErrorLogged(TypeError("artists"))]
    else
      var rest := ShowTracksAsWritten(items, i + 1);
      TrackBlocksCons(items, i, Min(MAX_SONGS, |items|));
      [TrackBlock(items[i])] + rest
  }

  /** What a resolved search prints as written: the count notice, the first tracks, and a TypeError when fewer than five exist. */
  function SpotifyResultsAsWritten(items: seq<Track>): (log: seq<Message>)
    ensures log == CountNotice(items) + TrackBlocks(items[..Min(MAX_SONGS, |items|)])
                 + (if |items| < MAX_SONGS then [ErrorLogged(TypeError("artists"))] else [])
  {
    assert items[0..Min(MAX_SONGS, |items|)] == items[..Min(MAX_SONGS, |items|)];
    CountNotice(items) + ShowTracksAsWritten(items, 0)
  }

  /** A search with fewer than five matches ends in a logged TypeError instead of a clean display. */
  lemma ShortResultLogsTypeError(items: seq<Track>)
    requires |items| < MAX_SONGS
    ensures var log := SpotifyResultsAsWritten(items);
            |log| == |items| + 1 && log[|items|] == ErrorLogged(TypeError("artists"))
  {
  }

  /** The display loop bounded by both `MAX_SONGS` and the number of tracks. */
  function ShowTracks(items: seq<Track>, i: nat): (log: seq<Message>)
    requires i <= MAX_SONGS
    ensures i <= Min(MAX_SONGS, |items|) ==> log == TrackBlocks(items[i..Min(MAX_SONGS, |items|)])
    decreases MAX_SONGS - i
  {
    if i == MAX_SONGS || i >= |items| then []
    else
      var rest := ShowTracks(items, i + 1);
      TrackBlocksCons(items, i, Min(MAX_SONGS, |items|));
      [TrackBlock(items[i])] + rest
  }

  /**
    What a resolved search prints: the count notice exactly when there are
    more than `MAX_SONGS` matches, then the first `min(MAX_SONGS, n)` tracks
    in order, and never an error.
   */
  function SpotifyResults(items: seq<Track>): (log: seq<Message>)
    ensures |items| > MAX_SONGS <==> (|log| > 0 && log[0] == SongCount(|items|, MAX_SONGS))
    ensures log == CountNotice(items) + TrackBlocks(items[..Min(MAX_SONGS, |items|)])
    ensures forall k :: 0 <= k < |log| ==> log[k].SongCount? || log[k].TrackShown?
  {
    var shown := ShowTracks(items, 0);
    assert items[0..Min(MAX_SONGS, |items|)] == items[..Min(MAX_SONGS, |items|)];
    CountNotice(items) + shown
  }

  /** With at least five matches the bounded loop and the loop as written print the same. */
  lemma SpotifyResultsAgree(items: seq<Track>)
    requires |items| >= MAX_SONGS
    ensures SpotifyResultsAsWritten(items) == SpotifyResults(items)
  {
  }

  /** The handler: resolve the song, issue one search, print what it settles to. */
  function SpotifySong(raw: Option<string>, net: Network): (x: Execution)
    ensures var song := SetCriteria(raw, "song", DEFAULT_SONG).criteria;
            && x.requests == [TrackQuery(song)]
            && song != ""
            && !x.crashed
    ensures var notices := SetCriteria(raw, "song", DEFAULT_SONG).notices;
            |x.log| >= |notices| && x.log[..|notices|] == notices
    ensures var res := SetCriteria(raw, "song", DEFAULT_SONG);
            match net.tracks(res.criteria)
            case Fetched(items) => x.log == res.notices + SpotifyResults(items)
            case Failed(e) => x.log == res.notices + [ErrorLogged(TransportError(e))]
  {
    var res := SetCriteria(raw, "song", DEFAULT_SONG);
    var shown := match net.tracks(res.criteria)
      case Fetched(items) => SpotifyResults(items)
      case Failed(e) => [ErrorLogged(TransportError(e))];
    Execution(res.notices + shown, [TrackQuery(res.criteria)], false)
  }
}
