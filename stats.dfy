/** The per-listener summary `compute_stats_byuser` (user_profiles.py:22-42):
    distinct tracks, four time-of-day buckets and the mobile-flag total. */
module Stats {
  import opened Wrappers
  import opened Text
  import opened Seqs
  import opened Records

  datatype Bucket = Morning | Afternoon | Evening | Night

  /** The first-match-wins chain of lines 32-41.  Hours are not range-checked:
      anything below 5 (negative hours included) and anything from 22 up is
      night. */
  function BucketOf(hour: int): (b: Bucket)
    ensures b == Night <==> hour < 5 || hour >= 22
    ensures b == Morning <==> 5 <= hour < 12
    ensures b == Afternoon <==> 12 <= hour < 17
    ensures b == Evening <==> 17 <= hour < 22
  {
    if hour < 5 then Night
    else if hour < 12 then Morning
    else if hour < 17 then Afternoon
    else if hour < 22 then Evening
    else Night
  }

  lemma BucketBoundaries()
    ensures BucketOf(4) == Night && BucketOf(5) == Morning && BucketOf(11) == Morning
    ensures BucketOf(12) == Afternoon && BucketOf(16) == Afternoon
    ensures BucketOf(17) == Evening && BucketOf(21) == Evening
    ensures BucketOf(22) == Night && BucketOf(23) == Night
  {
  }

  /** Lines 29-30: `d, t = dtime.split(" ")` needs exactly two space-separated
      parts, and the hour is `int()` of the text before the first ':' of the
      second part. */
  function Hour(dtime: string): Option<int>
  {
    var parts := Split(dtime, ' ');
    if |parts| != 2 then None else ParseInt(Split(parts[1], ':')[0])
  }

  /** The unpacking on line 29 takes exactly two parts, so a timestamp
      yields an hour only when it holds exactly one space. */
  lemma HourNeedsOneSpace(dtime: string)
    requires Hour(dtime).Some?
    ensures Occurrences(dtime, ' ') == 1
  {
    SplitLength(dtime, ' ');
  }

  /** For a timestamp made of a date, a space, and a time whose first
      ':'-separated component is `hh`, the hour is `int(hh)`. */
  lemma HourOf(date: string, hh: string, rest: string)
    requires ' ' !in date && ' ' !in hh && ':' !in hh && ' ' !in rest
    ensures Hour(date + " " + hh + ":" + rest) == ParseInt(hh)
  {
    var time := hh + ":" + rest;
    assert ' ' !in time;
    JoinSplit([date, time], ' ');
    assert Join([date, time], ' ') == date + " " + hh + ":" + rest;
    SplitAfterPart(hh, rest, ':');
    assert hh + [':'] + rest == time;
  }

  /** `[len(tracklist), morn, aft, eve, night, mcount]`. */
  datatype Profile = Profile(unique: nat, morning: nat, afternoon: nat, evening: nat, night: nat, mobile: int)

  /** The track id of each event, in order. */
  function TrackIds(es: seq<Event>): seq<int>
  {
    seq(|es|, i requires 0 <= i < |es| => es[i].trackId)
  }

  /** The hours of the events, in order, or a failure when some timestamp
      yields none. */
  function Hours(es: seq<Event>): Option<seq<int>>
  {
    if es == [] then Some([])
    else
      match (Hours(es[..|es| - 1]), Hour(es[|es| - 1].timestamp))
      case (Some(hs), Some(h)) => Some(hs + [h])
      case _ => None
  }

  /** Number of hours that fall in bucket `b`. */
  function Count(hs: seq<int>, b: Bucket): nat
  {
    if hs == [] then 0 else Count(hs[..|hs| - 1], b) + if BucketOf(hs[|hs| - 1]) == b then 1 else 0
  }

  /** Sum of the mobile flags of the first `n` events. */
  function MobileSum(es: seq<Event>, n: nat): int
    requires n <= |es|
  {
    if n == 0 then 0 else MobileSum(es, n - 1) + es[n - 1].mobile
  }

  /** Functional specification of `compute_stats_byuser`: the profile when
      every timestamp yields an hour, a failure otherwise. */
  function Summarise(es: seq<Event>): Option<Profile>
  {
    match Hours(es)
    case None => None
    case Some(hs) =>
      Some(Profile(|Dedup(TrackIds(es))|,
                   Count(hs, Morning), Count(hs, Afternoon), Count(hs, Evening), Count(hs, Night),
                   MobileSum(es, |es|)))
  }

  /** When `hs` are the hours of the events, the summary is built from them. */
  lemma SummariseOf(es: seq<Event>, hs: seq<int>)
    requires |hs| == |es| && forall j :: 0 <= j < |es| ==> Hour(es[j].timestamp) == Some(hs[j])
    ensures Summarise(es) == Some(Profile(|Dedup(TrackIds(es))|,
      Count(hs, Morning), Count(hs, Afternoon), Count(hs, Evening), Count(hs, Night),
      MobileSum(es, |es|)))
  {
    HoursSpec(es);
    assert Hours(es).value == hs;
  }

  /** Either every event yields an hour and `Hours` lists them in event
      order, or some event yields none and `Hours` fails. */
  lemma {:induction false} HoursSpec(es: seq<Event>)
    ensures Hours(es).Some? ==>
              && |Hours(es).value| == |es|
              && forall j :: 0 <= j < |es| ==> Hour(es[j].timestamp) == Some(Hours(es).value[j])
    ensures Hours(es).None? ==> exists j :: 0 <= j < |es| && Hour(es[j].timestamp).None?
  {
    if es != [] {
      var p := es[..|es| - 1];
      HoursSpec(p);
      if Hours(es).Some? {
        forall j | 0 <= j < |es| ensures Hour(es[j].timestamp) == Some(Hours(es).value[j]) {
          if j < |p| {
            assert es[j] == p[j];
          }
        }
      } else if Hours(p).None? {
        var j :| 0 <= j < |p| && Hour(p[j].timestamp).None?;
        assert es[j] == p[j];
      }
    }
  }

  /** One more hour adds one to its own bucket and nothing to the others. */
  lemma CountSnoc(hs: seq<int>, h: int)
    ensures Count(hs + [h], Night) == Count(hs, Night) + if h < 5 || h >= 22 then 1 else 0
    ensures Count(hs + [h], Morning) == Count(hs, Morning) + if 5 <= h < 12 then 1 else 0
    ensures Count(hs + [h], Afternoon) == Count(hs, Afternoon) + if 12 <= h < 17 then 1 else 0
    ensures Count(hs + [h], Evening) == Count(hs, Evening) + if 17 <= h < 22 then 1 else 0
  {
    assert (hs + [h])[..|hs|] == hs;
  }

  /** `compute_stats_byuser`, one event per iteration as in the source. */
  method ComputeStatsByUser(tracks: seq<Event>) returns (r: Option<Profile>)
    ensures r == Summarise(tracks)
    ensures r.None? <==> exists i :: 0 <= i < |tracks| && Hour(tracks[i].timestamp).None?
  {
    var mcount, morn, aft, eve, night := 0, 0, 0, 0, 0;
    var tracklist: seq<int> := [];
    ghost var ids: seq<int> := [];
    ghost var hs: seq<int> := [];
    var i := 0;
    while i < |tracks|
      invariant 0 <= i <= |tracks| && |ids| == i && |hs| == i
      invariant forall j :: 0 <= j < i ==> ids[j] == tracks[j].trackId
      invariant Hours(tracks[..i]) == Some(hs)
      invariant tracklist == Dedup(ids)
      invariant mcount == MobileSum(tracks, i)
      invariant morn == Count(hs, Morning) && aft == Count(hs, Afternoon)
      invariant eve == Count(hs, Evening) && night == Count(hs, Night)
    {
      var t := tracks[i];
      assert tracks[..i + 1] == tracks[..i] + [t];
      assert MobileSum(tracks, i + 1) == mcount + t.mobile;
      DedupSnoc(ids, t.trackId);
      ids := ids + [t.trackId];
      assert forall j :: 0 <= j < i + 1 ==> ids[j] == tracks[j].trackId;
      if t.trackId !in tracklist {
        tracklist := tracklist + [t.trackId];
      }
      var parts := Split(t.timestamp, ' ');
      if |parts| != 2 {
        HourFails(tracks, i);
        return None;
      }
      var hourofday := ParseInt(Split(parts[1], ':')[0]);
      if hourofday.None? {
        HourFails(tracks, i);
        return None;
      }
      var h := hourofday.value;
      HoursSnoc(tracks[..i], t, hs, h);
      CountSnoc(hs, h);
      hs := hs + [h];
      mcount := mcount + t.mobile;
      if h < 5 {
        night := night + 1;
      } else if h < 12 {
        morn := morn + 1;
      } else if h < 17 {
        aft := aft + 1;
      } else if h < 22 {
        eve := eve + 1;
      } else {
        night := night + 1;
      }
      i := i + 1;
    }
    assert ids == TrackIds(tracks);
    assert tracks[..i] == tracks;
    HoursSpec(tracks);
    r := Some(Profile(|tracklist|, morn, aft, eve, night, mcount));
  }

  /** One more event with an hour extends the hours by that hour. */
  lemma HoursSnoc(es: seq<Event>, e: Event, hs: seq<int>, h: int)
    requires Hours(es) == Some(hs) && Hour(e.timestamp) == Some(h)
    ensures Hours(es + [e]) == Some(hs + [h])
  {
    assert (es + [e])[..|es|] == es;
  }

  /** One event without an hour makes the whole summary fail. */
  lemma HourFails(es: seq<Event>, i: int)
    requires 0 <= i < |es| && Hour(es[i].timestamp).None?
    ensures Summarise(es) == None
    ensures exists j :: 0 <= j < |es| && Hour(es[j].timestamp).None?
  {
    HoursSpec(es);
  }

  /** A summary fails exactly when one of its events yields no hour. */
  lemma SummariseNone(es: seq<Event>)
    ensures Summarise(es).None? <==> exists e :: e in es && Hour(e.timestamp).None?
  {
    HoursSpec(es);
    if Summarise(es).None? {
      var i :| 0 <= i < |es| && Hour(es[i].timestamp).None?;
      assert es[i] in es;
    }
  }

  /** The buckets partition the hours: each is counted in exactly one. */
  lemma {:induction false} BucketsPartition(hs: seq<int>)
    ensures Count(hs, Morning) + Count(hs, Afternoon) + Count(hs, Evening) + Count(hs, Night) == |hs|
  {
    if hs != [] {
      BucketsPartition(hs[..|hs| - 1]);
    }
  }

  /** The four bucket counts of a profile add up to the number of events. */
  lemma ProfilePartition(es: seq<Event>)
    requires Summarise(es).Some?
    ensures var p := Summarise(es).value;
      p.morning + p.afternoon + p.evening + p.night == |es|
  {
    HoursSpec(es);
    BucketsPartition(Hours(es).value);
  }

  /** The unique count is the number of distinct track ids; it never exceeds
      the number of events and equals it exactly when no track id repeats. */
  lemma UniqueCount(es: seq<Event>)
    requires Summarise(es).Some?
    ensures var p := Summarise(es).value;
      && p.unique == |set id | id in TrackIds(es)|
      && p.unique <= |es|
      && (p.unique == |es| <==> NoDup(TrackIds(es)))
  {
    DedupCard(TrackIds(es));
    DedupLength(TrackIds(es));
  }

  /** The track list kept by the loop holds each track id seen once and
      nothing else. */
  lemma TrackListExact(es: seq<Event>)
    ensures NoDup(Dedup(TrackIds(es)))
    ensures forall id :: id in Dedup(TrackIds(es)) <==> exists i :: 0 <= i < |es| && es[i].trackId == id
  {
    DedupNoDup(TrackIds(es));
    DedupMembers(TrackIds(es));
    var ids := TrackIds(es);
    forall id ensures id in ids <==> exists i :: 0 <= i < |es| && es[i].trackId == id {
      if id in ids {
        var i :| 0 <= i < |ids| && ids[i] == id;
        assert es[i].trackId == id;
      } else {
        forall i | 0 <= i < |es| ensures es[i].trackId != id {
          assert ids[i] == es[i].trackId;
        }
      }
    }
  }

  /** Number of the first `n` events flagged as played on a mobile device. */
  function MobileCount(es: seq<Event>, n: nat): nat
    requires n <= |es|
  {
    if n == 0 then 0 else MobileCount(es, n - 1) + if es[n - 1].mobile == 1 then 1 else 0
  }

  /** With 0/1 flags the mobile total is the number of mobile plays, hence
      between 0 and the number of events. */
  lemma {:induction false} MobileBounds(es: seq<Event>, n: nat)
    requires n <= |es|
    requires forall i :: 0 <= i < |es| ==> es[i].mobile == 0 || es[i].mobile == 1
    ensures MobileSum(es, n) == MobileCount(es, n)
    ensures 0 <= MobileSum(es, n) <= n
  {
    if n > 0 {
      MobileBounds(es, n - 1);
    }
  }

  /** A listener with a single event: one distinct track, exactly one bucket
      incremented, and the mobile total equal to the event's flag. */
  lemma SingleEvent(e: Event)
    requires Hour(e.timestamp).Some?
    ensures var p := Summarise([e]);
      && p.Some? && p.value.unique == 1 && p.value.mobile == e.mobile
      && p.value.morning + p.value.afternoon + p.value.evening + p.value.night == 1
    ensures var p, b := Summarise([e]).value, BucketOf(Hour(e.timestamp).value);
      && p.morning == (if b == Morning then 1 else 0)
      && p.afternoon == (if b == Afternoon then 1 else 0)
      && p.evening == (if b == Evening then 1 else 0)
      && p.night == (if b == Night then 1 else 0)
  {
    var h := Hour(e.timestamp).value;
    SummariseOf([e], [h]);
    assert TrackIds([e]) == [] + [e.trackId];
    DedupSnoc([], e.trackId);
    CountSnoc([], h);
    assert [] + [h] == [h];
    BucketsPartition([h]);
  }

  /** In the `YYYY-MM-DD HH:MM:SS` format the hour is the number `HH`. */
  lemma HourOfTimestamp(date: string, h: nat, rest: string)
    requires h < 100 && ' ' !in date && ' ' !in rest
    ensures Hour(date + " " + TwoDigits(h) + ":" + rest) == Some(h)
  {
    ParseTwoDigits(h);
    HourOf(date, TwoDigits(h), rest);
  }

  /** Events at 04:30, 06:00 and 23:00 over two distinct tracks, one of them
      mobile: two distinct tracks, one morning play, two night plays. */
  lemma ThreePlayScenario()
    ensures Summarise([Event(100, "2021-01-01 04:30:00", 0, "10001"),
                       Event(101, "2021-01-01 06:00:00", 1, "10001"),
                       Event(100, "2021-01-01 23:00:00", 0, "10001")])
         == Some(Profile(2, 1, 0, 0, 2, 1))
  {
    ScenarioHours();
    ScenarioProfile(Event(100, "2021-01-01 04:30:00", 0, "10001"),
                    Event(101, "2021-01-01 06:00:00", 1, "10001"),
                    Event(100, "2021-01-01 23:00:00", 0, "10001"));
  }

  lemma ScenarioHours()
    ensures Hour("2021-01-01 04:30:00") == Some(4)
    ensures Hour("2021-01-01 06:00:00") == Some(6)
    ensures Hour("2021-01-01 23:00:00") == Some(23)
  {
    Hour0430();
    Hour0600();
    Hour2300();
  }

  lemma Hour0430()
    ensures Hour("2021-01-01 04:30:00") == Some(4)
  {
    assert TwoDigits(4) == "04";
    assert "2021-01-01 04:30:00" == "2021-01-01" + " " + TwoDigits(4) + ":" + "30:00";
    HourOfTimestamp("2021-01-01", 4, "30:00");
  }

  lemma Hour0600()
    ensures Hour("2021-01-01 06:00:00") == Some(6)
  {
    assert TwoDigits(6) == "06";
    assert "2021-01-01 06:00:00" == "2021-01-01" + " " + TwoDigits(6) + ":" + "00:00";
    HourOfTimestamp("2021-01-01", 6, "00:00");
  }

  /** The hour of "2021-01-01 23:00:00" is 23, a night play. */
  lemma Hour2300()
    ensures Hour("2021-01-01 23:00:00") == Some(23)
    ensures BucketOf(23) == Night
  {
    assert TwoDigits(23) == "23";
    assert "2021-01-01 23:00:00" == "2021-01-01" + " " + TwoDigits(23) + ":" + "00:00";
    HourOfTimestamp("2021-01-01", 23, "00:00");
  }

  lemma ScenarioProfile(e0: Event, e1: Event, e2: Event)
    requires Hour(e0.timestamp) == Some(4) && Hour(e1.timestamp) == Some(6) && Hour(e2.timestamp) == Some(23)
    requires e0.trackId == e2.trackId != e1.trackId
    requires e0.mobile == 0 && e1.mobile == 1 && e2.mobile == 0
    ensures Summarise([e0, e1, e2]) == Some(Profile(2, 1, 0, 0, 2, 1))
  {
    var es := [e0, e1, e2];
    SummariseOf(es, [4, 6, 23]);
    assert [4, 6, 23][..2] == [4, 6] && [4, 6][..1] == [4];
    assert MobileSum(es, 1) == MobileSum(es, 0) + e0.mobile == 0;
    assert MobileSum(es, 2) == MobileSum(es, 1) + e1.mobile == 1;
    assert MobileSum(es, 3) == MobileSum(es, 2) + e2.mobile == 1;
    assert TrackIds(es) == [e0.trackId, e1.trackId, e0.trackId];
    ScenarioTracks(e0.trackId, e1.trackId);
  }

  lemma ScenarioTracks(a: int, b: int)
    requires a != b
    ensures |Dedup([a, b, a])| == 2
  {
    DedupSnoc([], a);
    assert [] + [a] == [a];
    DedupSnoc([a], b);
    assert [a] + [b] == [a, b];
    DedupSnoc([a, b], a);
    assert [a, b] + [a] == [a, b, a];
  }
}
