# f1-scraper core, modelled in Dafny

The scraper polls the Formula 1 live-timing index (`Index.json`). It finds
the session whose feed to follow and decodes the `CarData` stream line by
line into rows for a `car_data` table. This project models the decision
logic of `main.py` and proves properties about it:

- **Start instants** (`Offset`). `parse_start_time_with_offset` splits the
  `GmtOffset` string on `:`, passes each field through `int()`, and
  subtracts hours and minutes from the local start. A malformed offset
  raises `ValueError`.
- **Index shape and scan order** (`FeedIndex`, `Scan`). Every scan visits
  the sessions meeting by meeting, in document order. A scan either stops
  at the first session a rule accepts, or keeps the last one it accepts.
  A bad offset met on the way raises.
- **Choosing a session** (`Resolver`). `get_next_session_without_path`
  returns the first session that starts strictly after now and has no
  `Path`. `get_latest_session_with_path` returns the last session that
  started strictly before now and has a `Path`. Each one is a
  specification function plus a method with the source's nested loops.
- **One monitoring pass** (`Poller`). One iteration of
  `monitor_session_path` scans for a candidate: a session that is
  upcoming, or that is overdue today. It then chooses a sleep of 5, 600,
  120 or 10 seconds, or 60 seconds after a failed fetch or when there is
  no candidate. The `Found` branch can never fire (`Poller.PollNeverFound`),
  so `monitor_session_path` never returns normally, and `main()` never
  reaches the stream that follows it (main.py:212-221).
- **Line decoding** (`JsonValue`, `LineFormat`, `Decoder`). `process_chunk`:
  - matches the anchored `(\d+:\d+:\d+\.\d+)(.*)` prefix;
  - strips `\r`, then `"`;
  - decodes plain JSON, falling back to the packed base64/deflate form;
  - flattens `Entries` → `Cars` → `Channels` into one row per car, with
    the six tracked channels (`0`, `2`, `3`, `4`, `5`, `45`) and the
    caller's session and meeting keys.

  Any exception ends the loop. The rows gathered up to that point are
  returned.

Instants are whole seconds, and `date()` is `t / 86400`. The clock
reading (`now`) and the fetched index are parameters. `datetime.utcnow()`
has microseconds, while session starts are whole seconds. For an integer
start, each test of the source is exact when `now` is rounded as follows:
- the `>` and `<=` tests, the date comparison and the 3600 s and 600 s
  thresholds (`NextSession`, `PollStep`) take `now` rounded down;
- the strict `<` of `LatestSession` takes `now` rounded up. A session
  starting at 100 is the latest at 100.5, and `LatestSession` with
  now = 101 takes it.

The text decoder and both payload decoders are parameters of type `Codec`. A Python
exception is the `Raised` case of `Outcome`, or `None` of an `Option`
where only one exception can happen.

The latest-session test is strict: main.py:75 tests `session_start_time <
now`. `Resolver.LatestSessionIsLast` carries `start < now`, and
`Resolver.LatestIsStrict` shows that a session starting exactly at now is
never taken.

## Model

| member | source | states |
|---|---|---|
| Offset.ParseShow | main.py:46 | `int()` reads back every integer that `str()` prints |
| Offset.SplitJoin | main.py:46 | `split(':')` yields one field more than there are colons; no field contains a colon, and joining the fields gives the string back |
| Offset.ParseInt | main.py:46 | definition: `int()` on one field, an optional sign and ASCII digits, None for ValueError |
| Offset.Split | main.py:46 | `split` always yields at least one field |
| Offset.OffsetSeconds | main.py:46-47 | definition: the offset in seconds from the hours and minutes fields, None for ValueError |
| Offset.StartInstant | main.py:45-49 | definition: `parse_start_time_with_offset`, local start minus the offset |
| Offset.OffsetOfThree | main.py:46-47 | for a three-field offset: hours × 3600 + minutes × 60 when all three fields are integers, ValueError otherwise |
| Offset.StartFromFields | main.py:45-49 | an offset built from integers h, m, s gives start − (h·3600 + m·60), for every s |
| Offset.SecondsIgnored | main.py:46-47 | the seconds field must parse but does not affect the instant |
| Offset.NeedsThreeFields | main.py:46 | an offset without exactly two colons raises ValueError (unpacking into three names) |
| Offset.TwoHourOffset | main.py:45-49 | offset "02:00:00" puts the instant two hours before the local start |
| Offset.NegativeOffsetMinutes | main.py:46-47 | "-05:30:00" becomes −5 h + 30 min, because the minutes keep their own sign |
| FeedIndex.SlotsStart | main.py:57 | every slot of the encounter order carries its own session's computed start |
| FeedIndex.Truthy | main.py:65 | definition: `not index_data` is false, that is, the fetch succeeded and the document is not `{}` (also line 96) |
| FeedIndex.Date | main.py:115 | definition: `.date()` of an instant in seconds, as the day number `t / 86400` (also line 136) |
| FeedIndex.Meetings | main.py:55 | definition: `index_data.get("Meetings", [])`, the meetings of the document or none when the key is absent (also lines 72 and 106) |
| FeedIndex.Start | main.py:57 | definition: `parse_start_time_with_offset(session['StartDate'], session['GmtOffset'])`, None for ValueError (also lines 74 and 108) |
| FeedIndex.Slots | main.py:55-56 | definition: every session of every meeting, meeting by meeting, in the order of the nested loops (also lines 72-73 and 106-107) |
| FeedIndex.SlotsPrefix | main.py:55-56 | the sessions of the first i meetings come first in the encounter order |
| FeedIndex.SlotAt | main.py:55-56 | session j of meeting i sits at position (sessions before meeting i) + j |
| Scan.FirstStop | main.py:55-60 | the first position where a rule does not skip; every earlier slot is skipped |
| Scan.Classify | main.py:58 | definition: what a scan does at one session under each rule: raise on a bad offset, take it when the test of line 58, 75 or 110/115 holds, skip it otherwise |
| Scan.FirstStopUnique | main.py:55-60 | any position with every earlier slot skipped and a stop at it (or at the end) is the first stop |
| Scan.FirstResult | main.py:55-60 | a first-match scan that returns a slot returns one that is in the order and accepted |
| Scan.FirstResultConcat | main.py:55-56 | a first-match scan over two runs of slots: the first run decides unless it finds nothing |
| Scan.FirstAfterPrefix | main.py:106-123 | once the first n meetings decide, the later meetings do not change the result |
| Scan.LastHit | main.py:72-77 | the last accepted position; nothing after it is accepted |
| Scan.Held | main.py:72-77 | a keep-last scan holds its initial value or an accepted slot of the order |
| Scan.HeldIsLast | main.py:72-77 | the held slot is the one at the last accepted position, or the initial value when nothing is accepted |
| Scan.HeldConcat | main.py:72-73 | a keep-last scan over two runs equals the scan of the second run started from the first run's result |
| Scan.AllParseConcat | main.py:74 | two runs parse exactly when each run parses |
| Scan.AllParsePrefix | main.py:72-74 | if every offset parses, every offset of a prefix parses |
| Resolver.NextSession | main.py:52-60 | definition: `get_next_session_without_path` as the first-match scan of the fetched index |
| Resolver.NextInMeeting | main.py:56-59 | the inner loop equals the first-match scan of one meeting under the next-session rule |
| Resolver.NextSessionWithoutPath | main.py:52-60 | the nested loops return `NextSession` of the fetched index: AttributeError when the fetch failed, otherwise the first-match scan |
| Resolver.NextSessionIsFirst | main.py:55-59 | a returned session starts after now and has no Path, and every session before it parsed and did not qualify |
| Resolver.NextSessionNone | main.py:55-60 | None exactly when every offset parses and no session is both after now and without a Path |
| Resolver.NextSessionExists | main.py:55-59 | a qualifying session guarantees a result unless the scan raises |
| Resolver.LatestSession | main.py:62-89 | definition: `get_latest_session_with_path` as the keep-last scan, with its three result shapes |
| Resolver.TakenByLatest | main.py:75 | the latest-session rule accepts exactly the sessions with start < now and a Path |
| Resolver.LatestInMeeting | main.py:73-77 | the inner loop keeps the last qualifying session of the meeting, or raises ValueError when an offset does not parse |
| Resolver.LatestSessionWithPath | main.py:62-89 | the nested loops return `LatestSession`: (None, None, None) for a failed or empty fetch, ValueError on a bad offset, {} when nothing qualifies, otherwise the path and keys of the last qualifying session |
| Resolver.LatestSessionIsLast | main.py:72-86 | a returned path belongs to a session that started before now, its meeting key is that session's own meeting's, and no later session qualifies |
| Resolver.LatestSessionNone | main.py:72-89 | {} exactly when every offset parses and no session started before now with a Path |
| Resolver.LatestIsStrict | main.py:75 | any one session whose start is exactly now is not taken by the scan and is not the last accepted position, wherever it sits |
| Resolver.AllAtNowNoneFound | main.py:72-89 | an index whose sessions all start at now gives {} |
| Poller.SleepInterval | main.py:134-144 | definition: the 5 / 600 / 120 / 10 s choice for a candidate |
| Poller.PollStep | main.py:95-151 | definition: one pass of the monitoring loop |
| Poller.Candidate | main.py:106-123 | a candidate has a parsed start and no Path, and is either upcoming or overdue today |
| Poller.CandidateIsFirst | main.py:106-123 | the candidate is the first session in meeting-then-session order that is upcoming or overdue today; every session before it parsed and was neither |
| Poller.TakenByPoll | main.py:110-120 | the poll rule accepts exactly the sessions that are upcoming, or overdue today, without a Path |
| Poller.CandidateInMeeting | main.py:107-120 | the inner loop, left by `break`, equals the first-match scan of one meeting under the poll rule |
| Poller.ScanCandidate | main.py:106-123 | the outer loop, left by `break` when a meeting yields a candidate, computes `Candidate` |
| Poller.PollOnce | main.py:95-151 | one iteration computes `PollStep`: the retry after a failed or empty fetch, the exception of a bad offset, the Found result, or the chosen sleep |
| Poller.PollNeverFound | main.py:125-132 | the Found branch is never taken, because a candidate never has a Path |
| Poller.PollSleepValues | main.py:134-151 | every sleep is 5, 10, 60, 120 or 600 seconds |
| Poller.PollIntervalMeaning | main.py:134-151 | for a fetched, non-empty index: 5 s exactly when the candidate is overdue today; 60 s exactly when there is no candidate |
| Poller.PollRetryMeaning | main.py:95-151 | 60 s exactly when the fetch failed, the index was empty, or no candidate exists |
| Poller.SleepIntervalExamples | main.py:135-144 | the interval at and around the 3600 s and 600 s boundaries (3601, 3600, 601, 600 s) and for 4000, 700, 300 and 0 s |
| Poller.OverdueSleepsFive | main.py:136-138 | an overdue session of today polls every 5 s, however late it is |
| Poller.SleepIntervalMonotone | main.py:139-144 | for a future start, a later start never polls more often |
| Poller.FutureCandidateIsNext | main.py:52-60 | a future candidate is the session `get_next_session_without_path` returns for the same index and clock |
| JsonValue.Lookup | main.py:174-186 | definition: `dict.get` as the first member with the key |
| JsonValue.Iterate | main.py:174 | definition: `for x in v` over a list, dict or string; None for TypeError |
| JsonValue.Items | main.py:176 | definition: `dict.items()`; None for AttributeError |
| JsonValue.GetOr | main.py:174-177 | definition: `d.get(k, default)`, the value of the key or the default when it is absent |
| JsonValue.LookupMeaning | main.py:174-186 | `dict.get` fails exactly when no member has the key; when it succeeds, the value belongs to a member with that key |
| JsonValue.LookupOwnKey | main.py:176 | with distinct keys, looking up a member's own key gives that member's value |
| LineFormat.MatchStamp | main.py:160-161 | definition: `re.match` of `(\d+:\d+:\d+\.\d+)(.*)` |
| LineFormat.Strip | main.py:166 | definition: `str.strip(c)` |
| LineFormat.LineRest | main.py:160 | definition: what `(.*)` takes, the tail up to its first newline |
| LineFormat.DigitRun | main.py:160 | `\d+` takes the longest run of digits and stops at the first non-digit |
| LineFormat.DigitsThen | main.py:160 | a digit field followed by its separator splits the string into the field, the separator and the rest |
| LineFormat.LineRestShape | main.py:160 | group 2 (`.*`) is the prefix of the tail up to the first newline |
| LineFormat.LineRestWhole | main.py:160 | a tail without newlines is all of group 2 |
| LineFormat.MatchStampSound | main.py:160-165 | a match consists of four digit fields joined by `:`, `:` and `.`; it is a prefix of the line, is followed by a non-digit, and group 2 is the tail after it |
| LineFormat.StampFound | main.py:160-161 | every line that starts with such a timestamp matches, with exactly those groups |
| LineFormat.NoStampWithoutDigit | main.py:161-163 | a line that does not start with a digit does not match |
| LineFormat.StripShape | main.py:166 | `strip(c)` removes runs of c at both ends and nothing else; no c is left at either end |
| LineFormat.StripUnique | main.py:166 | stripping a string framed by runs of c gives its core when the core has no c at its ends |
| LineFormat.StripKeeps | main.py:166 | a string with no c at either end is unchanged by `strip(c)` |
| LineFormat.StripIdempotent | main.py:166-169 | stripping twice is stripping once |
| Decoder.CarRow | main.py:176-189 | definition: the row of one car, None for AttributeError |
| Decoder.MakeRow | main.py:178-189 | definition: the row dict, with the entry's timestamp, the car id, the six tracked channels and the two keys |
| Decoder.Channel | main.py:181-186 | definition: `channels.get(k)`, None when the channel is absent |
| Decoder.CarsRows | main.py:176-190 | definition: the rows of the car loop and whether it ran to its end |
| Decoder.EntryRows | main.py:174-176 | definition: the rows of one entry: `entry.get('Utc')` and the car loop over `entry.get('Cars', {}).items()`, AttributeError on a non-dict entry or `Cars` value |
| Decoder.EntriesRows | main.py:174-190 | definition: the rows of the entry loop and whether it ran to its end |
| Decoder.PayloadRows | main.py:174-190 | definition: the rows of a decoded payload |
| Decoder.Trim | main.py:166 | definition: `match.group(2).strip('\r').strip('"')` |
| Decoder.LineData | main.py:168-172 | definition: plain JSON of the content stripped of `"` first, the packed form when that fails to parse |
| Decoder.ChunkPayload | main.py:159-172 | definition: a line yields no timestamp prefix, a caught exception, or a decoded document |
| Decoder.ChunkRows | main.py:155-196 | definition: all the `try` block of `process_chunk` gathers from one line |
| Decoder.AppendCars | main.py:176-190 | the inner loop appends the rows of the car list and reports whether a car raised |
| Decoder.ProcessChunk | main.py:155-196 | the returned rows are the rows gathered before the `try` block ends or raises; both keys default to 1, as in the source |
| Decoder.CarsStop | main.py:176-192 | after a car raises, the later cars add nothing |
| Decoder.EntriesStop | main.py:174-192 | after an entry raises, the later entries add nothing |
| Decoder.EntryAborts | main.py:174-192 | an exception in entry i returns the rows of earlier entries plus the rows entry i produced before raising |
| Decoder.CarAborts | main.py:176-192 | an exception at car j ends the entry with the rows of the earlier cars |
| Decoder.NoStampNoRows | main.py:161-163 | a line without the timestamp prefix returns no rows and raises nothing |
| Decoder.UndecodableNoRows | main.py:168-172 | a line that neither decoder can read returns no rows |
| Decoder.TrimIsStripped | main.py:166-169 | the content has no `"` at either end, so the second `strip('"')` changes nothing |
| Decoder.FormatByParse | main.py:168-172 | content that parses as plain JSON is read as JSON; any other content goes to the packed decoder |
| Decoder.PackedMatchesPlain | main.py:168-174 | a packed line and a plain line that decode to the same document give the same rows |
| Decoder.KeysPropagate | main.py:187-188 | every row carries the caller's session and meeting keys |
| Decoder.RowsKept | main.py:174-192 | the rows of the first n entries come first in the result; an incomplete prefix fixes the result |
| Decoder.CarRowContents | main.py:175-189 | a row holds the entry's `Utc`, the car's key and the caller's keys; each tracked channel holds the value under its key, or None when the key is absent |
| Decoder.CarRowDefined | main.py:176-177 | a car gives a row exactly when its value and its `Channels` (default {}) are both dicts |
| Decoder.UntrackedIgnored | main.py:181-186 | channels outside the six tracked keys do not affect the row |
| Decoder.CarsCount | main.py:176-190 | over well-formed cars nothing raises, and there is one row per car |
| Decoder.CarsAt | main.py:176-190 | car j gives row j |
| Decoder.EntriesCount | main.py:174-190 | over well-formed entries nothing raises, and there is one row per (entry, car) pair |
| Decoder.EntriesAt | main.py:174-190 | row j of entry i is row (cars before entry i) + j of the result |
| Decoder.EntriesLayout | main.py:174-190 | car j of entry i gives row (cars before entry i) + j, in entry order and then car order |
| Decoder.RowCount | main.py:168-190 | a payload whose `Entries` are well formed raises nothing and gives one row per car |
| Decoder.ExampleLine | main.py:155-196 | "00:00:01.234" followed by one entry at "t1", where car 44 reports channel 0 = 100 and channel 2 = 200, gives exactly one row; the other four channels are None |

## Left out

- `fetch_index_json` (main.py:34-42): HTTP, `utf-8-sig` decoding and `json.loads` of the index are not modelled. The fetch result is a parameter: `None` for a failed request, or a decoded `Index`. A malformed index document (invalid JSON, or an index that is not a dict) is not modelled.
- Index shapes other than those the model represents are not modelled. This covers a `Meetings` or `Sessions` value that is not a list, and a session without `StartDate` or `GmtOffset` (a `KeyError`).
- `datetime.strptime` (main.py:48) is not modelled. `StartDate` enters already converted to seconds (`Session.startLocal`), so a `StartDate` in the wrong format is not modelled. The `datetime` range limits are not modelled either.
- `int()` accepts only an optional sign followed by ASCII digits. Surrounding whitespace, `_` separators and non-ASCII digits, which Python also accepts, are not modelled. In the same way, `\d` in the line pattern is taken as ASCII digits only.
- `datetime.utcnow()`, `time.sleep`, `print`, `main`, and the `while True` loop around one monitoring pass are not modelled. The clock reading is a parameter, and a sleep is a returned `Step`.
- `Poller.PollOnce` models one pass of the loop body. A `Found` step stands for the `return` at line 132, and a `Sleep` for the sleep followed by the next pass.
- The SQLite table, `insert_rows_into_db` and the streaming connection are not modelled: they are I/O.
- `bytes.decode('utf-8')`, `json.loads` and the base64/raw-deflate decoding of the packed form are not modelled. They are the `Codec` parameters, with `None` standing for their exceptions.
- JSON numbers are integers here. Floats, and duplicate keys in one object, are not modelled: `dict.get` is modelled as returning the first member with the key.
- `Decoder.EntriesLayout`, `Decoder.CarsAt` and `Decoder.RowCount` apply only to payloads in which every entry and every car is well formed. The behaviour of malformed payloads is covered by `Decoder.EntryAborts`, `Decoder.CarAborts` and `Decoder.RowsKept` instead.
- `Decoder.ExampleLine` does not spell out the line's JSON text character by character. It requires a payload text that starts with `{`, ends with `}`, has no newline, and that the plain decoder reads as the example document.
