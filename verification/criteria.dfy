/** Resolution of the search term: the user's criterion, or a per-command default. */
module Criteria {
  import opened Wrappers
  import opened Effects

  const DEFAULT_ARTIST := "Ace of Base"
  const DEFAULT_SONG := "The Sign"
  const DEFAULT_MOVIE := "Mr. Nobody"

  /** A criterion argument is `undefined` or a string; it counts as given when it is truthy. */
  predicate Specified(raw: Option<string>) {
    raw.Some? && raw.value != ""
  }

  /** The effective criterion, and the notices printed while choosing it. */
  datatype Resolved = Resolved(criteria: string, notices: seq<Message>)

  /** Keeps a given criterion; replaces an absent or empty one by `fallback`, announcing it. */
  function SetCriteria(raw: Option<string>, kind: string, fallback: string): (r: Resolved)
    ensures Specified(raw) ==> r.criteria == raw.value && r.notices == []
    ensures !Specified(raw) ==> r.criteria == fallback && r.notices == [UsingDefault(kind, fallback)]
    ensures r.notices == [] <==> Specified(raw)
    ensures fallback != "" ==> r.criteria != ""
  {
    if !Specified(raw) then Resolved(fallback, [UsingDefault(kind, fallback)])
    else Resolved(raw.value, [])
  }

  /** With a non-empty default, resolving an already resolved criterion changes nothing and announces nothing. */
  lemma SetCriteriaIdempotent(raw: Option<string>, kind: string, fallback: string)
    requires fallback != ""
    ensures var once := SetCriteria(raw, kind, fallback).criteria;
            SetCriteria(Some(once), kind, fallback) == Resolved(once, [])
  {
  }
}
