/** The `concert-this` command: upcoming events of an artist. */
module Events {
  import opened Wrappers
  import opened Effects
  import opened Providers
  import opened Criteria

  /** The block shown for one event (the date is shown as received; see README). */
  function EventBlock(e: Event): Message {
    EventShown(e.venue, e.city, e.region, e.datetime)
  }

  /** The `forEach` over the events: one block per event, in order. */
  function EventBlocks(events: seq<Event>): (log: seq<Message>)
    ensures |log| == |events|
    ensures forall i :: 0 <= i < |events| ==> log[i] == EventBlock(events[i])
  {
    if |events| == 0 then [] else [EventBlock(events[0])] + EventBlocks(events[1..])
  }

  /** What a resolved events response prints: the "no events" notice, or a header and the events. */
  function ConcertResults(artist: string, events: seq<Event>): (log: seq<Message>)
    ensures |events| == 0 <==> log == [NoEvents(artist)]
    ensures |events| > 0 ==> |log| == |events| + 1 && log[0] == EventsHeader(artist)
    ensures forall i :: 0 <= i < |events| ==> log[i + 1] == EventBlock(events[i])
  {
    if |events| > 0 then [EventsHeader(artist)] + EventBlocks(events)
    else [NoEvents(artist)]
  }

  /** The handler: resolve the artist, issue one events request, print what it settles to. */
  function ConcertThis(raw: Option<string>, net: Network): (x: Execution)
    ensures var artist := SetCriteria(raw, "artist", DEFAULT_ARTIST).criteria;
            && x.requests == [EventsQuery(artist)]
            && artist != ""
            && !x.crashed
    ensures var notices := SetCriteria(raw, "artist", DEFAULT_ARTIST).notices;
            |x.log| > |notices| && x.log[..|notices|] == notices
    ensures var res := SetCriteria(raw, "artist", DEFAULT_ARTIST);
            match net.events(res.criteria)
            case Fetched(events) => x.log == res.notices + ConcertResults(res.criteria, events)
            case Failed(e) => x.log == res.notices + [ErrorLogged(TransportError(e))]
  {
    var res := SetCriteria(raw, "artist", DEFAULT_ARTIST);
    var shown := match net.events(res.criteria)
      case Fetched(events) => ConcertResults(res.criteria, events)
      case Failed(e) => [ErrorLogged(TransportError(e))];
    Execution(res.notices + shown, [EventsQuery(res.criteria)], false)
  }
}
