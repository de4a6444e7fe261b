# Listener profiles, modelled in Dafny

`user_profiles.py` reads a CSV of play events, one line per play:
`rowId,listenerId,trackId,timestamp,isMobile,zipCode`. It keys each event by
listener (`make_tracks_kv`) and concatenates each listener's events
(`reduceByKey`). It then summarises every listener with
`compute_stats_byuser` into a six-number row:
- the number of distinct tracks;
- the plays in the morning, afternoon, evening and night buckets;
- the sum of the mobile flags.

It writes one space-delimited line per listener and computes the library-wide
means of the six columns.

This project models that computation and proves properties of it. It has seven
modules, one file each:

| file | module | what it holds |
|---|---|---|
| `wrappers.dfy` | `Wrappers` | `Option`, used wherever Python would raise |
| `text.dfy` | `Text` | Python 2 `str.split(sep)`, `sep.join`, `int()` and `str()` of an integer |
| `seqs.dfy` | `Seqs` | order-preserving duplicate removal, i.e. the `tracklist` idiom |
| `records.dfy` | `Records` | the event record and `make_tracks_kv` |
| `grouping.dfy` | `Grouping` | `reduceByKey(lambda a, b: a + b)` as a left fold into a map |
| `stats.dfy` | `Stats` | the hour extraction, the bucket chain and `compute_stats_byuser` |
| `pipeline.dfy` | `Pipeline` | parse-all, group, summarise, the written row, the column sums |

`Stats.ComputeStatsByUser` is the source's loop: one event per iteration, the
same statements in the same order. It is proved equal to the functional
specification `Stats.Summarise`. `Summarise` is built from:
- `Dedup` of the track ids;
- `Count` of the hours per bucket;
- `MobileSum`.

The properties the source relies on are then proved about `Summarise`:
- the buckets partition the events;
- the unique count is the number of distinct ids;
- the track list holds exactly the ids seen, each once;
- with 0/1 flags, the mobile total is between 0 and the number of events.

A failing Python call is `None` in the model. That covers an `IndexError` for
a short line, a `ValueError` from `int()` or from unpacking a timestamp
without exactly one space. Either failure aborts the whole job.

## Model

| member | source | states |
|---|---|---|
| Records.ParseNeedsFiveCommas | user_profiles.py:13-15 | A line that parses holds at least five commas: with fewer than six fields `l[5]` raises IndexError. |
| Records.ParseReformat | user_profiles.py:13-15 | A parsed line holds exactly one event. Formatting the parsed listener and event into a line, with any row id, and parsing that gives the same result again. |
| Records.ParseFormattedLine | user_profiles.py:13-15 | A line built from a row id, a listener and an event parses back to exactly that listener and a one-element list of that event, given no comma in the text fields. |
| Text.SplitJoin | user_profiles.py:14 | No part of `s.split(c)` contains `c`, and joining the parts with `c` gives `s` back. |
| Text.JoinSplit | user_profiles.py:14 | Splitting a join of separator-free parts gives back those parts. |
| Text.SplitLength | user_profiles.py:29 | A split has exactly one part more than the text has separators. |
| Text.ParseShow | user_profiles.py:15 | `int(str(n)) == n` for every integer, and `str(n)` holds only digits and '-'. |
| Text.ParseIntAccepts | user_profiles.py:30 | `int()` accepts surrounding whitespace, leading zeros and a sign: " 04 " is 4, "-3" is -3, "+7" is 7. A leading no-break space (U+00A0) is whitespace too: `int(u'\xa04')` is 4. |
| Text.ParseIntRejects | user_profiles.py:30 | `int()` rejects "", "-", "4a" and "1 2". |
| Text.ParseTwoDigits | user_profiles.py:30 | The two-digit hour text of any n < 100 parses back to n. |
| Grouping.GroupContents | user_profiles.py:19-20 | The grouped map has exactly the keys of the pairs. Each key's value is the concatenation, in input order, of the values paired with it. |
| Grouping.GroupKeys | user_profiles.py:19-20 | A key is in the grouped map iff some pair carries it. |
| Grouping.GroupPreservesValues | user_profiles.py:19-20 | The keys in first-appearance order have no duplicates and are exactly the map's keys. The groups' lengths summed over them equal the total length of all values, so nothing is lost or duplicated. |
| Seqs.DedupMembers | user_profiles.py:27-28 | Duplicate removal keeps exactly the elements of its input. |
| Seqs.DedupNoDup | user_profiles.py:27-28 | The result of duplicate removal has no duplicates. |
| Seqs.DedupLength | user_profiles.py:27-28 | The result is no longer than the input, and equally long iff the input has no duplicates. |
| Seqs.DedupCard | user_profiles.py:42 | The length of the result is the number of distinct elements of the input. |
| Stats.BucketOf | user_profiles.py:32-41 | Night iff hour < 5 or hour >= 22; morning iff 5 <= hour < 12; afternoon iff 12 <= hour < 17; evening iff 17 <= hour < 22. There is no range check. |
| Stats.BucketBoundaries | user_profiles.py:32-41 | Hours 4, 5, 11, 12, 16, 17, 21, 22 and 23 fall in night, morning, morning, afternoon, afternoon, evening, evening, night and night. |
| Stats.HourOf | user_profiles.py:29-30 | For a date, a space and a time whose text before its first ':' is `hh`, the hour is `int(hh)`. |
| Stats.HourNeedsOneSpace | user_profiles.py:29 | A timestamp yields an hour only if it contains exactly one space. |
| Stats.HourOfTimestamp | user_profiles.py:29-30 | In the `YYYY-MM-DD HH:MM:SS` form the hour is the number `HH`. |
| Stats.Hour2300 | user_profiles.py:29-41 | "2021-01-01 23:00:00" has hour 23, which is night. |
| Stats.ComputeStatsByUser | user_profiles.py:22-42 | The loop's result equals the functional specification. It fails iff some event's timestamp yields no hour. |
| Stats.SummariseOf | user_profiles.py:22-42 | Given the events' hours, the summary is built from their counts per bucket, the distinct ids and the mobile sum. |
| Stats.HoursSpec | user_profiles.py:29-30 | Either every event yields an hour and `Hours` lists those hours in event order, or some event yields none and `Hours` fails. |
| Stats.SummariseNone | user_profiles.py:29-30 | A listener's summary fails iff one of its events has a timestamp without an hour. |
| Stats.HourFails | user_profiles.py:29-30 | One timestamp without an hour makes the whole summary fail. |
| Stats.CountSnoc | user_profiles.py:32-41 | One more hour adds one to the bucket the chain picks for it and nothing to the other three. |
| Stats.BucketsPartition | user_profiles.py:25-41 | Every hour is counted in exactly one bucket: the four counts sum to the number of hours. |
| Stats.ProfilePartition | user_profiles.py:32-42 | morning + afternoon + evening + night of a profile equals the number of its events. |
| Stats.UniqueCount | user_profiles.py:27-42 | The unique count is the number of distinct track ids. It is at most the number of events, and equal to it iff no track id repeats. |
| Stats.TrackListExact | user_profiles.py:24-28 | The track list has no duplicates and holds an id iff some event carries it. |
| Stats.MobileBounds | user_profiles.py:31 | With 0/1 flags the mobile total is the number of mobile plays, so it lies between 0 and the number of events. |
| Stats.SingleEvent | user_profiles.py:22-42 | A single event gives one distinct track and its own mobile flag as the total. Its hour's bucket is 1 and the other three are 0. |
| Stats.ThreePlayScenario | user_profiles.py:22-42 | Plays at 04:30, 06:00 and 23:00 over two tracks, one of them mobile, give the row [2, 1, 0, 0, 2, 1]. |
| Pipeline.ParseAll | user_profiles.py:19 | All lines parse iff each does. The result keeps the line order, one pair per line. |
| Pipeline.GroupedRecordCount | user_profiles.py:19-20 | Summed over listeners, the grouped events number exactly the input lines. |
| Grouping.ValuesForMembers | user_profiles.py:19-20 | A value is in a key's concatenated group iff some pair with that key carries it. |
| Pipeline.RunFails | user_profiles.py:19-46 | Once every line parses, the job fails iff some parsed event's timestamp yields no hour. |
| Pipeline.RunKeys | user_profiles.py:19-46 | The profiled listeners are exactly those named by some line. |
| Pipeline.RunPartition | user_profiles.py:19-46 | Each listener's four bucket counts add up to the number of that listener's lines. |
| Pipeline.CsvLineFields | user_profiles.py:51-59 | The written line ends in "\r\n". The rest splits on ' ' into six fields. Each field is made of digits and '-' only, so minimal quoting with quote character '|' leaves it bare. Each parses back to the row's value in the order unique, morn, aft, eve, night, mobile. |
| Pipeline.ColumnSumBounds | user_profiles.py:49 | If each profile's field j lies in [lo, hi], the column sum over n profiles lies in [n * lo, n * hi]. This is the integer form of a mean lying between the minimum and the maximum. |

## Left out

- Spark itself is not modelled: the context, `textFile`, distribution across workers and `collect`. Lines are a sequence and the job is one sequential computation.
- `reduceByKey` is modelled as a left fold in input order. Spark concatenates partial lists in an unspecified partition order. The model fixes that order, so the grouped events keep the line order.
- `Statistics.colStats` and the floating-point means written to `agg_table.csv` (lines 49, 62-68) are not modelled, because floating point is out of scope. `Pipeline.ColumnSumBounds` proves the integer column sums instead.
- Opening, appending and writing files (lines 56-59, 63-65) are left out as I/O. Only the text of one written line, `Pipeline.CsvLine`, is modelled.
- The Python exceptions (`IndexError`, `ValueError` from `int()` or from unpacking) all become `None`. The model does not record which exception it was.
- `Text.ParseInt` covers Python 2 `int()` on decimal text only: surrounding whitespace in Python 2.7's unicode sense (`Text.IsSpace`), an optional sign, then ASCII digits. It leaves out whitespace between the sign and the digits. It also leaves out the trailing `L` that Python 2 accepts only on a numeral too large for a machine integer. It also leaves out Unicode decimal digits such as U+0660, which Python 2 maps to ASCII digits.
- The lines `textFile` yields are unicode text, modelled as sequences of characters. No encoding or decoding is considered.
- `tot` (line 53) is computed and never used, so it is not modelled.
- Timestamp hours are not range-checked, following the code. A negative hour such as "-1" counts as night, and 24 or more counts as night too.
- A line needs at least six comma-separated fields, following the code. Fields after the sixth are ignored.
- The mobile flag is any integer `int()` accepts, following the code; `Stats.MobileBounds` requires 0/1 flags.
