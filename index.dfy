/**
 * The shape of the feed index (`Index.json`) as the scraper reads it, and the
 * encounter order in which every scan of main.py visits its sessions.
 */
module FeedIndex {
  import opened Wrappers
  import Offset

  /**
   * One session of a meeting. `startLocal` is `StartDate` already read as
   * seconds (naive local time); `gmtOffset` is the raw `GmtOffset` string;
   * `path` is absent until the feed is published.
   */
  datatype Session = Session(
    name: string,
    key: int,
    startLocal: int,
    gmtOffset: string,
    path: Option<string>)

  /** A meeting; a missing `Sessions` list reads as empty (`meeting.get("Sessions", [])`). */
  datatype Meeting = Meeting(key: int, sessions: seq<Session>)

  /**
   * The decoded index document: its `Meetings` member if present, and how
   * many other members it has (only needed for Python truthiness of `{}`).
   */
  datatype Index = Index(meetings: Option<seq<Meeting>>, otherFields: nat)

  /** An exception that escapes a scan of main.py. */
  datatype PyError = ValueError | AttributeError

  /** A Python call that either returns a value or raises. */
  datatype Outcome<T> = Returned(value: T) | Raised(error: PyError)

  /** `not index_data` is false: the fetch succeeded and the document is not `{}`. */
  predicate Truthy(ix: Index) {
    ix.meetings.Some? || ix.otherFields > 0
  }

  /** `index_data.get("Meetings", [])`. */
  function Meetings(ix: Index): seq<Meeting> {
    match ix.meetings
    case None => []
    case Some(ms) => ms
  }

  /** The computed UTC start of a session, None when its offset raises ValueError. */
  function Start(s: Session): Option<int> {
    Offset.StartInstant(s.startLocal, s.gmtOffset)
  }

  /** `datetime.date()` of an instant counted in seconds. */
  function Date(t: int): int {
    t / 86400
  }

  /**
   * A session as a scan meets it: with the key of its meeting and its
   * computed start (None when the offset raises ValueError).
   */
  datatype Slot = Slot(meetingKey: int, session: Session, start: Option<int>)

  function MakeSlot(meetingKey: int, s: Session): (r: Slot)
    ensures r.meetingKey == meetingKey && r.session == s && r.start == Start(s)
  {
    Slot(meetingKey, s, Start(s))
  }

  /** The sessions of one meeting, in order. */
  function SlotsOf(m: Meeting): (r: seq<Slot>)
    ensures |r| == |m.sessions|
    ensures forall j :: 0 <= j < |r| ==> r[j] == MakeSlot(m.key, m.sessions[j])
  {
    seq(|m.sessions|, j requires 0 <= j < |m.sessions| => MakeSlot(m.key, m.sessions[j]))
  }

  /**
   * Every session of every meeting in the order of the nested loops
   * `for meeting in ...: for session in ...`.
   */
  function Slots(ms: seq<Meeting>): seq<Slot> {
    if ms == [] then [] else Slots(ms[..|ms| - 1]) + SlotsOf(ms[|ms| - 1])
  }

  /** Every slot carries its own session's computed start. */
  lemma {:induction false} SlotsStart(ms: seq<Meeting>)
    ensures forall k :: 0 <= k < |Slots(ms)| ==> Slots(ms)[k].start == Start(Slots(ms)[k].session)
  {
    if ms != [] {
      SlotsStart(ms[..|ms| - 1]);
    }
  }

  lemma SlotsStep(ms: seq<Meeting>, i: nat)
    requires i < |ms|
    ensures Slots(ms[..i + 1]) == Slots(ms[..i]) + SlotsOf(ms[i])
  {
    assert ms[..i + 1][..i] == ms[..i];
  }

  /** The slots of the first i meetings come first, in the same order. */
  lemma {:induction false} SlotsPrefix(ms: seq<Meeting>, i: nat)
    requires i <= |ms|
    ensures Slots(ms[..i]) <= Slots(ms)
  {
    if i < |ms| {
      SlotsPrefix(ms[..|ms| - 1], i);
      assert ms[..|ms| - 1][..i] == ms[..i];
      assert ms[..|ms|] == ms;
    } else {
      assert ms[..i] == ms;
    }
  }

  /** Where session j of meeting i sits in the encounter order. */
  lemma SlotAt(ms: seq<Meeting>, i: nat, j: nat)
    requires i < |ms| && j < |ms[i].sessions|
    ensures |Slots(ms[..i])| + j < |Slots(ms)|
    ensures Slots(ms)[|Slots(ms[..i])| + j] == MakeSlot(ms[i].key, ms[i].sessions[j])
    ensures Slots(ms)[..|Slots(ms[..i])| + j] == Slots(ms[..i]) + SlotsOf(ms[i])[..j]
  {
    SlotsStep(ms, i);
    SlotsPrefix(ms, i + 1);
    var p := Slots(ms[..i + 1]);
    assert p[|Slots(ms[..i])| + j] == MakeSlot(ms[i].key, ms[i].sessions[j]);
    assert p[..|Slots(ms[..i])| + j] == Slots(ms[..i]) + SlotsOf(ms[i])[..j];
  }
}
