/**
 * `process_chunk` of main.py: one line of the CarData stream in, the
 * telemetry rows it carries out. Text decoding and the two payload decoders
 * are parameters; the prefix match, the trimming and the flattening of
 * `Entries` -> `Cars` -> `Channels` into rows are modelled.
 */
module Decoder {
  import opened Wrappers
  import opened JsonValue
  import opened LineFormat

  newtype byte = x: int | 0 <= x < 256

  /**
   * One row of the `car_data` table. A channel is the JSON value found under
   * its key, or JNull (Python's None) when the key is absent.
   */
  datatype Row = Row(
    timestamp: Json,
    carId: string,
    channel0: Json,
    channel2: Json,
    channel3: Json,
    channel4: Json,
    channel5: Json,
    channel45: Json,
    sessionKey: int,
    meetingKey: int)

  /**
   * The foreign decoders: `bytes.decode('utf-8')`, `json.loads` of the
   * content, and the fallback `json.loads(zlib.decompress(base64.b64decode(c),
   * -zlib.MAX_WBITS).decode('utf-8-sig'))`. None is an exception.
   */
  datatype Codec = Codec(
    text: seq<byte> -> Option<string>,
    plain: string -> Option<Json>,
    packed: string -> Option<Json>)

  /**
   * The rows gathered by a stretch of the loops, and whether it ran to its
   * end (false: an exception stopped it, and the rows so far are kept).
   */
  datatype Gathered = Gathered(rows: seq<Row>, complete: bool)

  /** Running q after p, unless p was stopped by an exception. */
  function Then(p: Gathered, q: Gathered): Gathered {
    if !p.complete then p else Gathered(p.rows + q.rows, q.complete)
  }

  /** The keys of the six tracked channels, in column order. */
  const TrackedChannels: seq<string> := ["0", "2", "3", "4", "5", "45"]

  /** `channels.get(k)`. */
  function Channel(chans: seq<Member>, k: string): Json {
    GetOr(chans, k, JNull)
  }

  /** The row dict of lines 178-189. */
  function MakeRow(ts: Json, carId: string, chans: seq<Member>, sessionKey: int, meetingKey: int): Row {
    Row(ts, carId,
        Channel(chans, "0"), Channel(chans, "2"), Channel(chans, "3"),
        Channel(chans, "4"), Channel(chans, "5"), Channel(chans, "45"),
        sessionKey, meetingKey)
  }

  /**
   * The row of one `(car_id, car_data)` pair; None is the AttributeError of
   * `.get` on a `car_data` or a `Channels` value that is not a dict.
   */
  function CarRow(ts: Json, car: Member, sessionKey: int, meetingKey: int): Option<Row> {
    if !car.value.JObj? then None
    else
      var chans := GetOr(car.value.members, "Channels", JObj([]));
      if !chans.JObj? then None
      else Some(MakeRow(ts, car.key, chans.members, sessionKey, meetingKey))
  }

  function CarGathered(ts: Json, car: Member, sessionKey: int, meetingKey: int): Gathered {
    match CarRow(ts, car, sessionKey, meetingKey)
    case None => Gathered([], false)
    case Some(r) => Gathered([r], true)
  }

  /** The inner loop over `entry.get('Cars', {}).items()`. */
  function CarsRows(ts: Json, cars: seq<Member>, sessionKey: int, meetingKey: int): Gathered {
    if cars == [] then Gathered([], true)
    else Then(CarsRows(ts, cars[..|cars| - 1], sessionKey, meetingKey),
              CarGathered(ts, cars[|cars| - 1], sessionKey, meetingKey))
  }

  /** One entry: `entry.get('Utc')` and its cars; a non-dict entry raises AttributeError. */
  function EntryRows(entry: Json, sessionKey: int, meetingKey: int): Gathered {
    if !entry.JObj? then Gathered([], false)
    else
      match Items(GetOr(entry.members, "Cars", JObj([])))
      case None => Gathered([], false)
      case Some(cars) => CarsRows(GetOr(entry.members, "Utc", JNull), cars, sessionKey, meetingKey)
  }

  /** The outer loop over the entries. */
  function EntriesRows(entries: seq<Json>, sessionKey: int, meetingKey: int): Gathered {
    if entries == [] then Gathered([], true)
    else Then(EntriesRows(entries[..|entries| - 1], sessionKey, meetingKey),
              EntryRows(entries[|entries| - 1], sessionKey, meetingKey))
  }

  /** `for entry in line_data.get('Entries', [])`: a non-dict payload or non-iterable `Entries` raises. */
  function PayloadRows(data: Json, sessionKey: int, meetingKey: int): Gathered {
    if !data.JObj? then Gathered([], false)
    else
      match Iterate(GetOr(data.members, "Entries", JArr([])))
      case None => Gathered([], false)
      case Some(entries) => EntriesRows(entries, sessionKey, meetingKey)
  }

  /** `match.group(2).strip('\r').strip('"')`. */
  function Trim(rest: string): string {
    Strip(Strip(rest, '\r'), '"')
  }

  /** Lines 168-172: plain JSON first, the packed form when that fails to parse. */
  function LineData(codec: Codec, content: string): Option<Json> {
    match codec.plain(Strip(content, '"'))
    case Some(d) => Some(d)
    case None => codec.packed(content)
  }

  /** What lines 159-172 make of a line: no timestamp prefix, a caught exception, or a payload. */
  datatype Payload = NoStamp | Undecodable | Decoded(data: Json)

  function ChunkPayload(codec: Codec, chunk: seq<byte>): Payload {
    match codec.text(chunk)
    case None => Undecodable
    case Some(s) =>
      match MatchStamp(s)
      case None => NoStamp
      case Some(st) =>
        match LineData(codec, Trim(st.rest))
        case None => Undecodable
        case Some(d) => Decoded(d)
  }

  /** Everything the `try` block of `process_chunk` gathers from one line. */
  function ChunkRows(codec: Codec, chunk: seq<byte>, sessionKey: int, meetingKey: int): Gathered {
    match ChunkPayload(codec, chunk)
    case NoStamp => Gathered([], true)
    case Undecodable => Gathered([], false)
    case Decoded(d) => PayloadRows(d, sessionKey, meetingKey)
  }

  // ---------------------------------------------------------------------
  // The two loops, one step at a time
  // ---------------------------------------------------------------------

  lemma CarsStep(ts: Json, cars: seq<Member>, sk: int, mk: int, j: nat)
    requires j < |cars|
    ensures CarsRows(ts, cars[..j + 1], sk, mk)
            == Then(CarsRows(ts, cars[..j], sk, mk), CarGathered(ts, cars[j], sk, mk))
  {
    assert cars[..j + 1][..j] == cars[..j];
  }

  /** Once an exception has stopped the inner loop, the later cars change nothing. */
  lemma {:induction false} CarsStop(ts: Json, cars: seq<Member>, sk: int, mk: int, n: nat)
    requires n <= |cars| && !CarsRows(ts, cars[..n], sk, mk).complete
    ensures CarsRows(ts, cars, sk, mk) == CarsRows(ts, cars[..n], sk, mk)
  {
    if n == |cars| {
      assert cars[..n] == cars;
    } else {
      var p := cars[..|cars| - 1];
      assert p[..n] == cars[..n];
      CarsStop(ts, p, sk, mk, n);
    }
  }

  lemma EntriesStep(es: seq<Json>, sk: int, mk: int, i: nat)
    requires i < |es|
    ensures EntriesRows(es[..i + 1], sk, mk) == Then(EntriesRows(es[..i], sk, mk), EntryRows(es[i], sk, mk))
  {
    assert es[..i + 1][..i] == es[..i];
  }

  /** Once an exception has stopped the outer loop, the later entries change nothing. */
  lemma {:induction false} EntriesStop(es: seq<Json>, sk: int, mk: int, n: nat)
    requires n <= |es| && !EntriesRows(es[..n], sk, mk).complete
    ensures EntriesRows(es, sk, mk) == EntriesRows(es[..n], sk, mk)
  {
    if n == |es| {
      assert es[..n] == es;
    } else {
      var p := es[..|es| - 1];
      assert p[..n] == es[..n];
      EntriesStop(p, sk, mk, n);
    }
  }

  /** An exception in entry i ends the scan with the rows of the entries before it and those of i so far. */
  lemma EntryAborts(es: seq<Json>, sk: int, mk: int, i: nat, before: seq<Row>)
    requires i < |es| && EntriesRows(es[..i], sk, mk) == Gathered(before, true)
    requires !EntryRows(es[i], sk, mk).complete
    ensures EntriesRows(es, sk, mk) == Gathered(before + EntryRows(es[i], sk, mk).rows, false)
  {
    EntriesStep(es, sk, mk, i);
    EntriesStop(es, sk, mk, i + 1);
  }

  /** An exception at car j ends entry i with the rows of the cars before it. */
  lemma CarAborts(ts: Json, cars: seq<Member>, sk: int, mk: int, j: nat)
    requires j < |cars| && CarsRows(ts, cars[..j], sk, mk).complete
    requires CarRow(ts, cars[j], sk, mk).None?
    ensures CarsRows(ts, cars, sk, mk) == Gathered(CarsRows(ts, cars[..j], sk, mk).rows, false)
  {
    CarsStep(ts, cars, sk, mk, j);
    CarsStop(ts, cars, sk, mk, j + 1);
  }

  // ---------------------------------------------------------------------
  // process_chunk
  // ---------------------------------------------------------------------

  /**
   * The inner loop of lines 176-190 over one entry's cars: the rows it
   * appends, and false when `.get` on a car or its channels raised.
   */
  method AppendCars(timestamp: Json, cars: seq<Member>, sessionKey: int, meetingKey: int)
    returns (added: seq<Row>, complete: bool)
    ensures Gathered(added, complete) == CarsRows(timestamp, cars, sessionKey, meetingKey)
  {
    added := [];
    var j := 0;
    while j < |cars|
      invariant 0 <= j <= |cars|
      invariant CarsRows(timestamp, cars[..j], sessionKey, meetingKey) == Gathered(added, true)
    {
      var carId, carData := cars[j].key, cars[j].value;
      if !carData.JObj? {
        CarAborts(timestamp, cars, sessionKey, meetingKey, j);
        return added, false;
      }
      var channels := GetOr(carData.members, "Channels", JObj([]));
      if !channels.JObj? {
        CarAborts(timestamp, cars, sessionKey, meetingKey, j);
        return added, false;
      }
      var row := MakeRow(timestamp, carId, channels.members, sessionKey, meetingKey);
      CarsStep(timestamp, cars, sessionKey, meetingKey, j);
      added := added + [row];
      j := j + 1;
    }
    assert cars[..j] == cars;
    return added, true;
  }

  /**
   * `process_chunk(chunk, session_key, meeting_key)`: the rows are exactly
   * those the `try` block gathers before it ends or raises; nothing escapes.
   */
  method ProcessChunk(codec: Codec, chunk: seq<byte>, sessionKey: int := 1, meetingKey: int := 1)
    returns (rows: seq<Row>)
    ensures rows == ChunkRows(codec, chunk, sessionKey, meetingKey).rows
  {
    rows := [];
    var payload := ChunkPayload(codec, chunk);
    if !payload.Decoded? || !payload.data.JObj? {
      return;
    }
    var iterated := Iterate(GetOr(payload.data.members, "Entries", JArr([])));
    if iterated.None? {
      return;
    }
    var entries := iterated.value;
    var i := 0;
    while i < |entries|
      invariant 0 <= i <= |entries|
      invariant EntriesRows(entries[..i], sessionKey, meetingKey) == Gathered(rows, true)
    {
      var entry := entries[i];
      if !entry.JObj? {
        EntryAborts(entries, sessionKey, meetingKey, i, rows);
        return;
      }
      var timestamp := GetOr(entry.members, "Utc", JNull);
      var pairs := Items(GetOr(entry.members, "Cars", JObj([])));
      if pairs.None? {
        EntryAborts(entries, sessionKey, meetingKey, i, rows);
        return;
      }
      var added, complete := AppendCars(timestamp, pairs.value, sessionKey, meetingKey);
      assert EntryRows(entry, sessionKey, meetingKey) == Gathered(added, complete);
      EntriesStep(entries, sessionKey, meetingKey, i);
      if !complete {
        EntryAborts(entries, sessionKey, meetingKey, i, rows);
        rows := rows + added;
        return;
      }
      rows := rows + added;
      i := i + 1;
    }
    assert entries[..i] == entries;
  }

  // ---------------------------------------------------------------------
  // Properties of the decoder
  // ---------------------------------------------------------------------

  /** A line without the timestamp prefix yields no rows and no exception (lines 161-163). */
  lemma NoStampNoRows(codec: Codec, chunk: seq<byte>, s: string, sk: int, mk: int)
    requires codec.text(chunk) == Some(s) && MatchStamp(s).None?
    ensures ChunkRows(codec, chunk, sk, mk) == Gathered([], true)
  {
  }

  /** A line neither decoder can parse yields no rows (the exception is caught). */
  lemma UndecodableNoRows(codec: Codec, chunk: seq<byte>, s: string, st: Stamp, sk: int, mk: int)
    requires codec.text(chunk) == Some(s) && MatchStamp(s) == Some(st)
    requires codec.plain(Trim(st.rest)).None? && codec.packed(Trim(st.rest)).None?
    ensures ChunkRows(codec, chunk, sk, mk) == Gathered([], false)
  {
    TrimIsStripped(st.rest);
  }

  /**
   * The content handed to the decoders has no '"' at either end, so the
   * second `.strip('"')` of line 169 hands `json.loads` that same content.
   */
  lemma TrimIsStripped(rest: string)
    ensures Trim(rest) == [] || (Trim(rest)[0] != '"' && Trim(rest)[|Trim(rest)| - 1] != '"')
    ensures Strip(Trim(rest), '"') == Trim(rest)
  {
    StripShape(Strip(rest, '\r'), '"');
    StripIdempotent(Strip(rest, '\r'), '"');
  }

  /**
   * The format is chosen by parseability alone: content that parses as
   * plain JSON is read as that document, any other content goes to the
   * packed decoder.
   */
  lemma FormatByParse(codec: Codec, rest: string)
    ensures codec.plain(Trim(rest)).Some? ==> LineData(codec, Trim(rest)) == codec.plain(Trim(rest))
    ensures codec.plain(Trim(rest)).None? ==> LineData(codec, Trim(rest)) == codec.packed(Trim(rest))
  {
    TrimIsStripped(rest);
  }

  /**
   * A packed line gives the same rows as a plain line that spells out the
   * same document: the rows depend on the decoded document only.
   */
  lemma PackedMatchesPlain(codec: Codec, packedLine: seq<byte>, plainLine: seq<byte>,
                           s1: string, s2: string, st1: Stamp, st2: Stamp, d: Json, sk: int, mk: int)
    requires codec.text(packedLine) == Some(s1) && MatchStamp(s1) == Some(st1)
    requires codec.plain(Trim(st1.rest)).None? && codec.packed(Trim(st1.rest)) == Some(d)
    requires codec.text(plainLine) == Some(s2) && MatchStamp(s2) == Some(st2)
    requires codec.plain(Trim(st2.rest)) == Some(d)
    ensures ChunkRows(codec, packedLine, sk, mk) == ChunkRows(codec, plainLine, sk, mk) == PayloadRows(d, sk, mk)
  {
    FormatByParse(codec, st1.rest);
    FormatByParse(codec, st2.rest);
  }

  // Rows carry the caller's keys

  predicate KeysAre(rows: seq<Row>, sk: int, mk: int) {
    forall k :: 0 <= k < |rows| ==> rows[k].sessionKey == sk && rows[k].meetingKey == mk
  }

  lemma {:induction false} CarsKeys(ts: Json, cars: seq<Member>, sk: int, mk: int)
    ensures KeysAre(CarsRows(ts, cars, sk, mk).rows, sk, mk)
  {
    if cars != [] {
      CarsKeys(ts, cars[..|cars| - 1], sk, mk);
    }
  }

  lemma {:induction false} EntriesKeys(es: seq<Json>, sk: int, mk: int)
    ensures KeysAre(EntriesRows(es, sk, mk).rows, sk, mk)
  {
    if es != [] {
      EntriesKeys(es[..|es| - 1], sk, mk);
      var e := es[|es| - 1];
      if e.JObj? && Items(GetOr(e.members, "Cars", JObj([]))).Some? {
        CarsKeys(GetOr(e.members, "Utc", JNull), Items(GetOr(e.members, "Cars", JObj([]))).value, sk, mk);
      }
    }
  }

  /** Every row of a line carries the session and meeting keys the caller passed, unchanged. */
  lemma KeysPropagate(codec: Codec, chunk: seq<byte>, sk: int, mk: int)
    ensures KeysAre(ChunkRows(codec, chunk, sk, mk).rows, sk, mk)
  {
    var p := ChunkPayload(codec, chunk);
    if p.Decoded? && p.data.JObj? {
      var it := Iterate(GetOr(p.data.members, "Entries", JArr([])));
      if it.Some? {
        EntriesKeys(it.value, sk, mk);
      }
    }
  }

  // Rows gathered before an exception are kept

  /** The rows of the first n entries lead the rows of all of them, whatever happens later. */
  lemma {:induction false} RowsKept(es: seq<Json>, sk: int, mk: int, n: nat)
    requires n <= |es|
    ensures EntriesRows(es[..n], sk, mk).rows <= EntriesRows(es, sk, mk).rows
    ensures EntriesRows(es[..n], sk, mk).complete || EntriesRows(es, sk, mk) == EntriesRows(es[..n], sk, mk)
  {
    if n == |es| {
      assert es[..n] == es;
    } else {
      var p := es[..|es| - 1];
      assert p[..n] == es[..n];
      RowsKept(p, sk, mk, n);
    }
  }

  // What a row holds

  /**
   * A row holds its entry's `Utc`, its car's key, the caller's keys, and for
   * each tracked channel the value found under that key, or JNull (None)
   * when the key is absent; an absent channel is never read as 0.
   */
  lemma CarRowContents(ts: Json, car: Member, sk: int, mk: int, r: Row)
    requires CarRow(ts, car, sk, mk) == Some(r)
    ensures r.timestamp == ts && r.carId == car.key && r.sessionKey == sk && r.meetingKey == mk
    ensures var chans := GetOr(car.value.members, "Channels", JObj([])).members;
            && (Lookup(chans, "0").None? ==> r.channel0 == JNull)
            && (Lookup(chans, "0").Some? ==> r.channel0 == Lookup(chans, "0").value)
            && (Lookup(chans, "2").None? ==> r.channel2 == JNull)
            && (Lookup(chans, "2").Some? ==> r.channel2 == Lookup(chans, "2").value)
            && (Lookup(chans, "3").None? ==> r.channel3 == JNull)
            && (Lookup(chans, "3").Some? ==> r.channel3 == Lookup(chans, "3").value)
            && (Lookup(chans, "4").None? ==> r.channel4 == JNull)
            && (Lookup(chans, "4").Some? ==> r.channel4 == Lookup(chans, "4").value)
            && (Lookup(chans, "5").None? ==> r.channel5 == JNull)
            && (Lookup(chans, "5").Some? ==> r.channel5 == Lookup(chans, "5").value)
            && (Lookup(chans, "45").None? ==> r.channel45 == JNull)
            && (Lookup(chans, "45").Some? ==> r.channel45 == Lookup(chans, "45").value)
  {
  }

  /** A row exists exactly when the car's value and its `Channels` (default {}) are both dicts. */
  lemma CarRowDefined(ts: Json, car: Member, sk: int, mk: int)
    ensures CarRow(ts, car, sk, mk).Some?
            <==> car.value.JObj? && GetOr(car.value.members, "Channels", JObj([])).JObj?
  {
  }

  /** Channels other than the six tracked ones do not affect the row. */
  lemma UntrackedIgnored(ts: Json, carId: string, a: seq<Member>, b: seq<Member>, sk: int, mk: int)
    requires forall k :: 0 <= k < |TrackedChannels| ==> Lookup(a, TrackedChannels[k]) == Lookup(b, TrackedChannels[k])
    ensures MakeRow(ts, carId, a, sk, mk) == MakeRow(ts, carId, b, sk, mk)
  {
    assert Lookup(a, TrackedChannels[0]) == Lookup(b, TrackedChannels[0]);
    assert Lookup(a, TrackedChannels[1]) == Lookup(b, TrackedChannels[1]);
    assert Lookup(a, TrackedChannels[2]) == Lookup(b, TrackedChannels[2]);
    assert Lookup(a, TrackedChannels[3]) == Lookup(b, TrackedChannels[3]);
    assert Lookup(a, TrackedChannels[4]) == Lookup(b, TrackedChannels[4]);
    assert Lookup(a, TrackedChannels[5]) == Lookup(b, TrackedChannels[5]);
  }

  // Row count and order on a well-formed payload

  /** A car whose value is a dict whose `Channels` (default {}) is a dict. */
  predicate CarOk(v: Json) {
    v.JObj? && GetOr(v.members, "Channels", JObj([])).JObj?
  }

  /** The `(car_id, car_data)` pairs of an entry, [] when there are none to iterate. */
  function CarsOf(e: Json): seq<Member> {
    if !e.JObj? then []
    else match Items(GetOr(e.members, "Cars", JObj([])))
      case None => []
      case Some(cars) => cars
  }

  /** An entry the loops walk through without an exception. */
  predicate EntryOk(e: Json) {
    && e.JObj?
    && Items(GetOr(e.members, "Cars", JObj([]))).Some?
    && forall j :: 0 <= j < |CarsOf(e)| ==> CarOk(CarsOf(e)[j].value)
  }

  /** Entries the loops walk through without an exception. */
  predicate AllOk(es: seq<Json>) {
    forall i :: 0 <= i < |es| ==> EntryOk(es[i])
  }

  lemma AllOkPrefix(es: seq<Json>, n: nat)
    requires AllOk(es) && n <= |es|
    ensures AllOk(es[..n])
  {
    assert forall i :: 0 <= i < n ==> es[..n][i] == es[i];
  }

  /** The number of cars over all entries. */
  function TotalCars(es: seq<Json>): nat {
    if es == [] then 0 else TotalCars(es[..|es| - 1]) + |CarsOf(es[|es| - 1])|
  }

  /** `car_data.get('Channels', {})` of a car that is a dict with dict channels. */
  function ChannelsOf(v: Json): seq<Member> {
    if !v.JObj? then []
    else
      var chans := GetOr(v.members, "Channels", JObj([]));
      if chans.JObj? then chans.members else []
  }

  /** The row that car j of entry e stands for. */
  function RowFor(e: Json, j: nat, sk: int, mk: int): Row
    requires e.JObj? && j < |CarsOf(e)|
  {
    MakeRow(GetOr(e.members, "Utc", JNull), CarsOf(e)[j].key, ChannelsOf(CarsOf(e)[j].value), sk, mk)
  }

  /** Over cars that are all dicts with dict channels: nothing is raised and there is one row per car. */
  lemma {:induction false} CarsCount(ts: Json, cars: seq<Member>, sk: int, mk: int)
    requires forall j :: 0 <= j < |cars| ==> CarOk(cars[j].value)
    ensures CarsRows(ts, cars, sk, mk).complete && |CarsRows(ts, cars, sk, mk).rows| == |cars|
  {
    if cars != [] {
      var p := cars[..|cars| - 1];
      assert forall j :: 0 <= j < |p| ==> p[j] == cars[j];
      CarsCount(ts, p, sk, mk);
    }
  }

  /** ... and car j gives row j. */
  lemma {:induction false} CarsAt(ts: Json, cars: seq<Member>, sk: int, mk: int, j: nat)
    requires forall j :: 0 <= j < |cars| ==> CarOk(cars[j].value)
    requires j < |cars|
    ensures j < |CarsRows(ts, cars, sk, mk).rows|
    ensures CarsRows(ts, cars, sk, mk).rows[j] == MakeRow(ts, cars[j].key, ChannelsOf(cars[j].value), sk, mk)
  {
    var p := cars[..|cars| - 1];
    assert forall j :: 0 <= j < |p| ==> p[j] == cars[j];
    CarsCount(ts, p, sk, mk);
    var last := cars[|cars| - 1];
    assert CarRow(ts, last, sk, mk) == Some(MakeRow(ts, last.key, ChannelsOf(last.value), sk, mk));
    if j < |p| {
      CarsAt(ts, p, sk, mk, j);
    }
  }

  lemma EntryCount(e: Json, sk: int, mk: int)
    requires EntryOk(e)
    ensures EntryRows(e, sk, mk).complete && |EntryRows(e, sk, mk).rows| == |CarsOf(e)|
  {
    CarsCount(GetOr(e.members, "Utc", JNull), CarsOf(e), sk, mk);
  }

  lemma EntryAt(e: Json, sk: int, mk: int, j: nat)
    requires EntryOk(e) && j < |CarsOf(e)|
    ensures j < |EntryRows(e, sk, mk).rows| && EntryRows(e, sk, mk).rows[j] == RowFor(e, j, sk, mk)
  {
    CarsAt(GetOr(e.members, "Utc", JNull), CarsOf(e), sk, mk, j);
  }

  /** Over well-formed entries: nothing is raised, and there is one row per (entry, car) pair. */
  lemma {:induction false} EntriesCount(es: seq<Json>, sk: int, mk: int)
    requires AllOk(es)
    ensures EntriesRows(es, sk, mk).complete && |EntriesRows(es, sk, mk).rows| == TotalCars(es)
  {
    if es != [] {
      var p := es[..|es| - 1];
      AllOkPrefix(es, |es| - 1);
      EntriesCount(p, sk, mk);
      EntryCount(es[|es| - 1], sk, mk);
    }
  }

  /** ... and row j of entry i is row TotalCars(entries before i) + j of all of them. */
  lemma EntriesAt(es: seq<Json>, sk: int, mk: int, i: nat, j: nat)
    requires AllOk(es)
    requires i < |es| && j < |CarsOf(es[i])|
    ensures j < |EntryRows(es[i], sk, mk).rows|
    ensures TotalCars(es[..i]) + j < |EntriesRows(es, sk, mk).rows|
    ensures EntriesRows(es, sk, mk).rows[TotalCars(es[..i]) + j] == EntryRows(es[i], sk, mk).rows[j]
  {
    AllOkPrefix(es, i);
    EntriesCount(es[..i], sk, mk);
    EntryCount(es[i], sk, mk);
    EntryRowAt(es, sk, mk, i, j);
  }

  /** The rows of entry i follow those of the entries before it, once those are complete. */
  lemma EntryRowAt(es: seq<Json>, sk: int, mk: int, i: nat, j: nat)
    requires i < |es| && EntriesRows(es[..i], sk, mk).complete
    requires j < |EntryRows(es[i], sk, mk).rows|
    ensures |EntriesRows(es[..i], sk, mk).rows| + j < |EntriesRows(es, sk, mk).rows|
    ensures EntriesRows(es, sk, mk).rows[|EntriesRows(es[..i], sk, mk).rows| + j]
            == EntryRows(es[i], sk, mk).rows[j]
  {
    EntriesStep(es, sk, mk, i);
    RowsKept(es, sk, mk, i + 1);
  }

  /**
   * Over well-formed entries: car j of entry i gives row
   * TotalCars(entries before i) + j, so the rows run in entry order and then
   * car-map order.
   */
  lemma EntriesLayout(es: seq<Json>, sk: int, mk: int, i: nat, j: nat)
    requires AllOk(es)
    requires i < |es| && j < |CarsOf(es[i])|
    ensures TotalCars(es[..i]) + j < |EntriesRows(es, sk, mk).rows|
    ensures EntriesRows(es, sk, mk).rows[TotalCars(es[..i]) + j] == RowFor(es[i], j, sk, mk)
  {
    EntriesAt(es, sk, mk, i, j);
    EntryAt(es[i], sk, mk, j);
  }

  /** A payload with an `Entries` list of well-formed entries: no exception, one row per car. */
  lemma RowCount(codec: Codec, chunk: seq<byte>, es: seq<Json>, sk: int, mk: int)
    requires ChunkPayload(codec, chunk).Decoded? && ChunkPayload(codec, chunk).data.JObj?
    requires Lookup(ChunkPayload(codec, chunk).data.members, "Entries") == Some(JArr(es))
    requires AllOk(es)
    ensures ChunkRows(codec, chunk, sk, mk).complete
    ensures |ChunkRows(codec, chunk, sk, mk).rows| == TotalCars(es)
  {
    EntriesCount(es, sk, mk);
  }

  // A worked example

  const ExampleCar: Member :=
    Member("44", JObj([Member("Channels", JObj([Member("0", JNum(100)), Member("2", JNum(200))]))]))

  const ExampleEntry: Json := JObj([Member("Utc", JStr("t1")), Member("Cars", JObj([ExampleCar]))])

  /**
   * The document {"Entries":[{"Utc":"t1","Cars":{"44":{"Channels":{"0":100,"2":200}}}}]}:
   * one entry at "t1" with car 44 reporting channels 0 and 2.
   */
  const ExampleData: Json := JObj([Member("Entries", JArr([ExampleEntry]))])

  /** A line "00:00:01.234" + tail, with tail a one-line JSON object text, is matched and nothing is trimmed. */
  lemma ExamplePayload(codec: Codec, chunk: seq<byte>, tail: string)
    requires |tail| > 0 && tail[0] == '{' && tail[|tail| - 1] == '}' && '\n' !in tail
    requires codec.text(chunk) == Some("00:00:01.234" + tail)
    requires codec.plain(tail) == Some(ExampleData)
    ensures ChunkPayload(codec, chunk) == Decoded(ExampleData)
  {
    assert "00:00:01.234" + tail == "00" + ":" + "00" + ":" + "01" + "." + "234" + tail;
    assert DigitField("00") && DigitField("01") && DigitField("234");
    StampFound("00", "00", "01", "234", tail);
    LineRestWhole(tail);
    StripKeeps(tail, '\r');
    StripKeeps(tail, '"');
  }

  /** The example document flattens to one row for car 44. */
  lemma ExampleRows(sk: int, mk: int)
    ensures PayloadRows(ExampleData, sk, mk)
            == Gathered([Row(JStr("t1"), "44", JNum(100), JNum(200), JNull, JNull, JNull, JNull, sk, mk)], true)
  {
    var chans := [Member("0", JNum(100)), Member("2", JNum(200))];
    assert Channel(chans, "0") == JNum(100) && Channel(chans, "2") == JNum(200);
    assert Channel(chans, "3") == JNull && Channel(chans, "4") == JNull;
    assert Channel(chans, "5") == JNull && Channel(chans, "45") == JNull;
    var row := Row(JStr("t1"), "44", JNum(100), JNum(200), JNull, JNull, JNull, JNull, sk, mk);
    assert CarRow(JStr("t1"), ExampleCar, sk, mk) == Some(row);
    assert [ExampleCar][..0] == [];
    assert CarsRows(JStr("t1"), [ExampleCar], sk, mk) == Gathered([row], true);
    assert GetOr(ExampleEntry.members, "Utc", JNull) == JStr("t1");
    var cars := [Member("Cars", JObj([ExampleCar]))];
    assert Lookup(cars, "Cars") == Some(JObj([ExampleCar]));
    assert |"Utc"| != |"Cars"|;
    assert ExampleEntry.members == [Member("Utc", JStr("t1"))] + cars;
    assert ExampleEntry.members[1..] == cars;
    assert GetOr(ExampleEntry.members, "Cars", JObj([])) == JObj([ExampleCar]);
    assert EntryRows(ExampleEntry, sk, mk) == Gathered([row], true);
    assert [ExampleEntry][..0] == [];
    assert EntriesRows([ExampleEntry], sk, mk) == Gathered([row], true);
  }

  /**
   * The line "00:00:01.234" followed by the text of ExampleData gives
   * exactly one row: car "44", channel 0 = 100, channel 2 = 200, and the
   * four other channels None.
   */
  lemma ExampleLine(codec: Codec, chunk: seq<byte>, tail: string, sk: int, mk: int)
    requires |tail| > 0 && tail[0] == '{' && tail[|tail| - 1] == '}' && '\n' !in tail
    requires codec.text(chunk) == Some("00:00:01.234" + tail)
    requires codec.plain(tail) == Some(ExampleData)
    ensures ChunkRows(codec, chunk, sk, mk)
            == Gathered([Row(JStr("t1"), "44", JNum(100), JNum(200), JNull, JNull, JNull, JNull, sk, mk)], true)
  {
    ExamplePayload(codec, chunk, tail);
    ExampleRows(sk, mk);
  }
}
