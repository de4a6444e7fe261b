/** The whole batch as one sequential computation: parse every line, group by
    listener, summarise each group (user_profiles.py:19-20, 46), the row
    written per listener (lines 51-59), and integer column sums standing in for
    the library-wide means (line 49). */
module Pipeline {
  import opened Wrappers
  import opened Text
  import opened Records
  import opened Grouping
  import opened Stats

  /** `trackfile.map(make_tracks_kv)`: one pair per line; any line that fails
      to parse aborts the whole job. */
  function ParseAll(lines: seq<string>): (r: Option<seq<Keyed>>)
    ensures r.Some? <==> forall i :: 0 <= i < |lines| ==> MakeTracksKv(lines[i]).Some?
    ensures r.Some? ==> |r.value| == |lines|
    ensures r.Some? ==> forall i :: 0 <= i < |lines| ==> Some(r.value[i]) == MakeTracksKv(lines[i])
  {
    if lines == [] then Some([])
    else
      match (ParseAll(lines[..|lines| - 1]), MakeTracksKv(lines[|lines| - 1]))
      case (Some(ps), Some(p)) => Some(ps + [p])
      case _ => None
  }

  /** `mapValues(compute_stats_byuser)`: every listener's group summarised;
      a timestamp without an hour anywhere aborts the job. */
  function Profiles(groups: map<string, seq<Event>>): (r: Option<map<string, Profile>>)
    ensures r.Some? <==> forall k :: k in groups ==> Summarise(groups[k]).Some?
    ensures r.Some? ==> r.value.Keys == groups.Keys
    ensures r.Some? ==> forall k :: k in groups ==> Some(r.value[k]) == Summarise(groups[k])
  {
    if forall k :: k in groups ==> Summarise(groups[k]).Some? then
      Some(map k | k in groups :: Summarise(groups[k]).value)
    else None
  }

  /** The per-listener profiles of an input file given as its lines. */
  function Run(lines: seq<string>): Option<map<string, Profile>>
  {
    match ParseAll(lines)
    case None => None
    case Some(ps) => Profiles(ReduceByKey(ps))
  }

  /** Number of parsed records whose listener is `k`. */
  function CountKey(ps: seq<Keyed>, k: string): nat
  {
    if ps == [] then 0 else CountKey(ps[..|ps| - 1], k) + if ps[|ps| - 1].0 == k then 1 else 0
  }

  predicate OneEventEach(ps: seq<Keyed>)
  {
    forall i :: 0 <= i < |ps| ==> |ps[i].1| == 1
  }

  /** Parsed records carry one event each, so a listener's group is as long as
      the number of that listener's records. */
  lemma {:induction false} ValuesForCount(ps: seq<Keyed>, k: string)
    requires OneEventEach(ps)
    ensures |ValuesFor(ps, k)| == CountKey(ps, k)
  {
    if ps != [] {
      var p := ps[..|ps| - 1];
      assert forall i :: 0 <= i < |p| ==> p[i] == ps[i];
      ValuesForCount(p, k);
    }
  }

  lemma {:induction false} TotalLengthOneEach(ps: seq<Keyed>)
    requires OneEventEach(ps)
    ensures TotalLength(ps) == |ps|
  {
    if ps != [] {
      var p := ps[..|ps| - 1];
      assert forall i :: 0 <= i < |p| ==> p[i] == ps[i];
      TotalLengthOneEach(p);
    }
  }

  lemma ParsedOneEach(lines: seq<string>)
    requires ParseAll(lines).Some?
    ensures OneEventEach(ParseAll(lines).value)
  {
    var ps := ParseAll(lines).value;
    forall i | 0 <= i < |ps| ensures |ps[i].1| == 1 {
      assert Some(ps[i]) == MakeTracksKv(lines[i]);
    }
  }

  /** Grouping the parsed records loses and duplicates none: summed over the
      listeners, the groups hold exactly as many events as there are lines. */
  lemma GroupedRecordCount(lines: seq<string>)
    requires ParseAll(lines).Some?
    ensures var ps := ParseAll(lines).value;
      SumLengths(ReduceByKey(ps), KeyOrder(ps)) == |lines|
  {
    var ps := ParseAll(lines).value;
    ParsedOneEach(lines);
    GroupPreservesValues(ps);
    TotalLengthOneEach(ps);
  }

  /** End to end: the profiled listeners are exactly those named by some
      line. */
  lemma RunKeys(lines: seq<string>)
    requires Run(lines).Some?
    ensures var ps := ParseAll(lines).value;
      forall k :: k in Run(lines).value <==> exists i :: 0 <= i < |ps| && ps[i].0 == k
  {
    var ps := ParseAll(lines).value;
    var groups := ReduceByKey(ps);
    RunKeySet(lines);
    GroupKeys(ps);
    forall k ensures k in Run(lines).value <==> exists i :: 0 <= i < |ps| && ps[i].0 == k {
      assert k in Run(lines).value <==> k in groups;
    }
  }

  /** The profiled listeners are the keys of the grouping. */
  lemma RunKeySet(lines: seq<string>)
    requires Run(lines).Some?
    ensures Run(lines).value.Keys == ReduceByKey(ParseAll(lines).value).Keys
  {
  }

  /** End to end: once every line parses, the job fails exactly when some
      parsed event's timestamp yields no hour. */
  lemma RunFails(lines: seq<string>)
    requires ParseAll(lines).Some?
    ensures var ps := ParseAll(lines).value;
      Run(lines).None? <==> exists i, e :: 0 <= i < |ps| && e in ps[i].1 && Hour(e.timestamp).None?
  {
    var ps := ParseAll(lines).value;
    var groups := ReduceByKey(ps);
    assert Run(lines) == Profiles(groups);
    if Run(lines).None? {
      var k :| k in groups && Summarise(groups[k]).None?;
      FailingGroup(ps, k);
    } else {
      forall i, e | 0 <= i < |ps| && e in ps[i].1
        ensures Hour(e.timestamp).Some?
      {
        if Hour(e.timestamp).None? {
          FailingEvent(ps, i, e);
        }
      }
    }
  }

  /** A listener whose summary fails has an event without an hour. */
  lemma FailingGroup(ps: seq<Keyed>, k: string)
    requires k in ReduceByKey(ps) && Summarise(ReduceByKey(ps)[k]).None?
    ensures exists i, e :: 0 <= i < |ps| && e in ps[i].1 && Hour(e.timestamp).None?
  {
    GroupContents(ps);
    ValuesForMembers(ps, k);
    SummariseNone(ReduceByKey(ps)[k]);
  }

  /** An event without an hour makes its listener's summary fail. */
  lemma FailingEvent(ps: seq<Keyed>, i: nat, e: Event)
    requires i < |ps| && e in ps[i].1 && Hour(e.timestamp).None?
    ensures ps[i].0 in ReduceByKey(ps) && Summarise(ReduceByKey(ps)[ps[i].0]).None?
  {
    GroupKeys(ps);
    GroupContents(ps);
    ValuesForMembers(ps, ps[i].0);
    SummariseNone(ReduceByKey(ps)[ps[i].0]);
  }

  /** End to end: each listener's four bucket counts add up to the number of
      that listener's lines. */
  lemma RunPartition(lines: seq<string>, k: string)
    requires Run(lines).Some? && k in Run(lines).value
    ensures var p := Run(lines).value[k];
      p.morning + p.afternoon + p.evening + p.night == CountKey(ParseAll(lines).value, k)
  {
    var ps := ParseAll(lines).value;
    var groups := ReduceByKey(ps);
    GroupContents(ps);
    ParsedOneEach(lines);
    assert Some(Run(lines).value[k]) == Summarise(groups[k]);
    ProfilePartition(groups[k]);
    ValuesForCount(ps, k);
  }

  /** `[unique, morn, aft, eve, night, mobile]`, the order in which a profile
      is returned (line 42), unpacked (line 52) and written (line 59). */
  function Row(p: Profile): seq<int>
  {
    [p.unique, p.morning, p.afternoon, p.evening, p.night, p.mobile]
  }

  /** The text of each field of the row, as `str()` gives it. */
  function Fields(p: Profile): (fs: seq<string>)
    ensures |fs| == 6 && forall j :: 0 <= j < 6 ==> fs[j] == Show(Row(p)[j])
  {
    [Show(p.unique), Show(p.morning), Show(p.afternoon),
     Show(p.evening), Show(p.night), Show(p.mobile)]
  }

  /** One line of `live_table.csv`: the six fields separated by single
      spaces, ended by the csv module's default "\r\n". */
  function CsvLine(p: Profile): string
  {
    Join(Fields(p), ' ') + "\r\n"
  }

  /** The written line splits back into the six fields of the row, in row
      order. Every field is made of digits and '-' only, so it holds neither
      the delimiter, the quote character '|' nor a line break, and minimal
      quoting leaves it bare. */
  lemma CsvLineFields(p: Profile)
    ensures var line := CsvLine(p);
      && |line| >= 2 && line[|line| - 2..] == "\r\n"
      && var fields := Split(line[..|line| - 2], ' ');
         && |fields| == 6
         && forall j :: 0 <= j < 6 ==>
              && (forall ch :: ch in fields[j] ==> ch == '-' || IsDigit(ch))
              && ParseInt(fields[j]) == Some(Row(p)[j])
  {
    var fields := Fields(p);
    forall j | 0 <= j < 6
      ensures ' ' !in fields[j]
      ensures forall ch :: ch in fields[j] ==> ch == '-' || IsDigit(ch)
      ensures ParseInt(fields[j]) == Some(Row(p)[j])
    {
      ParseShow(Row(p)[j]);
    }
    JoinSplit(fields, ' ');
    var line := CsvLine(p);
    assert line[..|line| - 2] == Join(fields, ' ');
  }

  /** Sum of field `j` (in row order) over the profiles. */
  function ColumnSum(ps: seq<Profile>, j: nat): int
    requires j < 6
  {
    if ps == [] then 0 else ColumnSum(ps[..|ps| - 1], j) + Row(ps[|ps| - 1])[j]
  }

  /** Integer form of "each mean lies between the field's minimum and
      maximum": if every profile's field `j` is within [lo, hi], the column
      sum is within [n * lo, n * hi] for n profiles. */
  lemma {:induction false} ColumnSumBounds(ps: seq<Profile>, j: nat, lo: int, hi: int)
    requires j < 6
    requires forall i :: 0 <= i < |ps| ==> lo <= Row(ps[i])[j] <= hi
    ensures |ps| * lo <= ColumnSum(ps, j) <= |ps| * hi
  {
    if ps != [] {
      var p := ps[..|ps| - 1];
      assert forall i :: 0 <= i < |p| ==> p[i] == ps[i];
      ColumnSumBounds(p, j, lo, hi);
      MulSucc(|p|, lo);
      MulSucc(|p|, hi);
    }
  }

  lemma MulSucc(n: nat, x: int)
    ensures (n + 1) * x == n * x + x
  {
  }
}
