/** The replay file read by `do-what-it-says`: one line "command,criteria". */
module Replay {
  import opened Wrappers
  import opened JsString

  /** The command and criterion the replay file supplies. */
  datatype Fields = Fields(command: string, criteria: string)

  /**
    The parsing in `doThis`: split the text on ",", trim the first two
    fields. `None` when there is no comma, where reading the missing second
    field throws.
   */
  function ParseReplay(content: string): (r: Option<Fields>)
    ensures r.None? <==> ',' !in content
    ensures r.Some? ==> Unpadded(r.value.command) && Unpadded(r.value.criteria)
    ensures r.Some? ==> ',' !in r.value.command && ',' !in r.value.criteria
  {
    var dataArr := Split(content, ',');
    if |dataArr| < 2 then None
    else
      TrimKeepsCharacters(dataArr[0]);
      TrimKeepsCharacters(dataArr[1]);
      Some(Fields(Trim(dataArr[0]), Trim(dataArr[1])))
  }

  /**
    The command is the trimmed text before the first comma, the criterion the
    trimmed text between the first and the second comma; the rest is ignored.
   */
  lemma ReplayFields(a: string, b: string, rest: string)
    requires ',' !in a && ',' !in b
    requires rest == [] || rest[0] == ','
    ensures ParseReplay(a + "," + b + rest) == Some(Fields(Trim(a), Trim(b)))
  {
    var u := b + rest;
    var t := [','] + u;
    assert t[1..] == u;
    assert a + "," + b + rest == a + t;
    SplitFirst(a, t, ',');
    SplitFirst(b, rest, ',');
  }

  /** Writing unpadded, comma-free fields as "command,criteria" and parsing them back gives them back. */
  lemma ReplayRoundTrip(f: Fields)
    requires Unpadded(f.command) && Unpadded(f.criteria)
    requires ',' !in f.command && ',' !in f.criteria
    ensures ParseReplay(f.command + "," + f.criteria) == Some(f)
  {
    var c, k := f.command, f.criteria;
    var empty: string := [];
    assert c + "," + k + empty == c + "," + k;
    ReplayFields(c, k, empty);
    TrimUnpadded(c);
    TrimUnpadded(k);
  }

  /** The usual line "command, criteria", with a space after the comma, parses back to the two fields. */
  lemma ReplaySpacedLine(f: Fields)
    requires Unpadded(f.command) && Unpadded(f.criteria)
    requires ',' !in f.command && ',' !in f.criteria
    ensures ParseReplay(f.command + ", " + f.criteria) == Some(f)
  {
    var padded := [' '] + f.criteria;
    var empty: string := [];
    assert f.command + ", " + f.criteria == f.command + "," + padded + empty;
    ReplayFields(f.command, padded, empty);
    assert AllWhitespace([' ']);
    assert padded == [' '] + f.criteria + empty;
    TrimPadded([' '], f.criteria, empty);
    TrimUnpadded(f.command);
  }
}
