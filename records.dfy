/** One input record `rowId,listenerId,trackId,timestamp,isMobile,zipCode`
    and its parsing by `make_tracks_kv` (user_profiles.py:13-15). */
module Records {
  import opened Wrappers
  import opened Text

  /** One play event: `[int(field 2), field 3, int(field 4), field 5]`. */
  datatype Event = Event(trackId: int, timestamp: string, mobile: int, zip: string)

  /** The key/value pair `[listenerId, [event]]` built for one line. */
  type Keyed = (string, seq<Event>)

  /** `make_tracks_kv`: split on every comma and take fields 1 to 5; the row id
      (field 0) and any field after the sixth are ignored.  Fewer than six
      fields, or a track id or mobile flag that `int()` rejects, is a failure. */
  function MakeTracksKv(line: string): Option<Keyed>
  {
    var l := Split(line, ',');
    if |l| < 6 then None
    else
      match (ParseInt(l[2]), ParseInt(l[4]))
      case (Some(track), Some(mobile)) => Some((l[1], [Event(track, l[3], mobile, l[5])]))
      case _ => None
  }

  /** The input line that describes `e` as played by `listener`. */
  function FormatLine(rowId: int, listener: string, e: Event): string
  {
    Join([Show(rowId), listener, Show(e.trackId), e.timestamp, Show(e.mobile), e.zip], ',')
  }

  /** Parsing a well-formed line gives back its listener and its event, as a
      one-element event list. */
  lemma ParseFormattedLine(rowId: int, listener: string, e: Event)
    requires ',' !in listener && ',' !in e.timestamp && ',' !in e.zip
    ensures MakeTracksKv(FormatLine(rowId, listener, e)) == Some((listener, [e]))
  {
    ParseShow(e.trackId);
    ParseShow(e.mobile);
    ShowAvoids(rowId, ',');
    ShowAvoids(e.trackId, ',');
    ShowAvoids(e.mobile, ',');
    var parts := [Show(rowId), listener, Show(e.trackId), e.timestamp, Show(e.mobile), e.zip];
    JoinSplit(parts, ',');
    assert Split(FormatLine(rowId, listener, e), ',') == parts;
  }

  /** A line that parses holds at least five commas (six fields). */
  lemma ParseNeedsFiveCommas(line: string)
    requires MakeTracksKv(line).Some?
    ensures Occurrences(line, ',') >= 5
  {
    SplitLength(line, ',');
  }

  /** Whatever a line parses to is parsed again, unchanged, from the line
      formatted from it: the parsed listener and event carry no comma, and
      the row id plays no part. */
  lemma ParseReformat(line: string, rowId: int)
    requires MakeTracksKv(line).Some?
    ensures var r := MakeTracksKv(line).value;
      && |r.1| == 1
      && MakeTracksKv(FormatLine(rowId, r.0, r.1[0])) == MakeTracksKv(line)
  {
    var l := Split(line, ',');
    SplitJoin(line, ',');
    assert ',' !in l[1] && ',' !in l[3] && ',' !in l[5];
    var r := MakeTracksKv(line).value;
    ParseFormattedLine(rowId, r.0, r.1[0]);
  }
}
