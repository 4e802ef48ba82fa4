/**
 * `get_next_session_without_path` and `get_latest_session_with_path` of
 * main.py: each is a specification function over the encounter order of the
 * index and a method with the nested loops of the source, the inner loop
 * over one meeting's sessions written as a method of its own.
 */
module Resolver {
  import opened Wrappers
  import opened FeedIndex
  import opened Scan

  // ---------------------------------------------------------------------
  // get_next_session_without_path
  // ---------------------------------------------------------------------

  /**
   * The result of `get_next_session_without_path` for the fetched index:
   * a failed fetch makes `data.get` raise AttributeError, a bad offset met
   * before any match raises ValueError.
   */
  function NextSession(fetched: Option<Index>, now: int): Outcome<Option<Session>> {
    match fetched
    case None => Raised(AttributeError)
    case Some(ix) =>
      match FirstResult(NextRule, Slots(Meetings(ix)), now)
      case Raised(e) => Raised(e)
      case Returned(None) => Returned(None)
      case Returned(Some(c)) => Returned(Some(c.session))
  }

  /** The inner loop over one meeting's sessions, returning at the first one that qualifies. */
  method NextInMeeting(m: Meeting, now: int) returns (r: Outcome<Option<Slot>>)
    ensures r == FirstResult(NextRule, SlotsOf(m), now)
  {
    var j := 0;
    while j < |m.sessions|
      invariant 0 <= j <= |m.sessions|
      invariant AllSkip(NextRule, SlotsOf(m)[..j], now)
    {
      var session := m.sessions[j];
      var start := Start(session);
      if start.None? {
        FirstStopUnique(NextRule, SlotsOf(m), now, j);
        return Raised(ValueError);
      }
      if start.value > now && session.path.None? {
        FirstStopUnique(NextRule, SlotsOf(m), now, j);
        return Returned(Some(MakeSlot(m.key, session)));
      }
      SkipMore(NextRule, SlotsOf(m), now, j);
      j := j + 1;
    }
    FirstStopUnique(NextRule, SlotsOf(m), now, j);
    return Returned(None);
  }

  method NextSessionWithoutPath(fetched: Option<Index>, now: int) returns (r: Outcome<Option<Session>>)
    ensures r == NextSession(fetched, now)
  {
    if fetched.None? {
      return Raised(AttributeError);
    }
    var ms := Meetings(fetched.value);
    var i := 0;
    while i < |ms|
      invariant 0 <= i <= |ms|
      invariant FirstResult(NextRule, Slots(ms[..i]), now) == Returned(None)
    {
      var found := NextInMeeting(ms[i], now);
      SlotsStep(ms, i);
      FirstResultConcat(NextRule, Slots(ms[..i]), SlotsOf(ms[i]), now);
      if found != Returned(None) {
        FirstAfterPrefix(NextRule, ms, i + 1, now);
        match found {
          case Raised(e) => r := Raised(e);
          case Returned(c) => r := Returned(Some(c.value.session));
        }
        return;
      }
      i := i + 1;
    }
    assert ms[..i] == ms;
    return Returned(None);
  }

  /**
   * First match: a returned session starts strictly after now, has no Path,
   * and every session before it in meeting-then-session order parsed and
   * did not qualify.
   */
  lemma NextSessionIsFirst(ix: Index, now: int, x: Session)
    requires NextSession(Some(ix), now) == Returned(Some(x))
    ensures exists k :: (0 <= k < |Slots(Meetings(ix))| && Slots(Meetings(ix))[k].session == x
                         && AllSkip(NextRule, Slots(Meetings(ix))[..k], now))
    ensures Start(x).Some? && Start(x).value > now && x.path.None?
  {
    var s := Slots(Meetings(ix));
    var k := FirstStop(NextRule, s, now);
    SlotsStart(Meetings(ix));
    assert s[k].session == x;
  }

  /** Every offset parses and no session starts after now without a Path. */
  predicate NoneUpcoming(s: seq<Slot>, now: int) {
    forall k :: 0 <= k < |s| ==> s[k].start.Some? && !Upcoming(s[k].start.value, s[k].session, now)
  }

  /**
   * No result exactly when every session's offset parsed and none starts
   * after now without a Path.
   */
  lemma NextSessionNone(ix: Index, now: int)
    ensures NextSession(Some(ix), now) == Returned(None) <==> NoneUpcoming(Slots(Meetings(ix)), now)
  {
    FirstNoneMeaning(Slots(Meetings(ix)), now);
  }

  lemma FirstNoneMeaning(s: seq<Slot>, now: int)
    ensures FirstResult(NextRule, s, now) == Returned(None) <==> NoneUpcoming(s, now)
  {
    var k := FirstStop(NextRule, s, now);
    if k < |s| {
      assert s[k].start.None? || Upcoming(s[k].start.value, s[k].session, now);
    } else {
      forall j | 0 <= j < |s|
        ensures s[j].start.Some? && !Upcoming(s[j].start.value, s[j].session, now)
      {
        SkippedAt(NextRule, s, now, |s|, j);
      }
    }
  }

  /** Any session that qualifies guarantees a result unless an earlier offset raises. */
  lemma NextSessionExists(ix: Index, now: int, k: nat)
    requires k < |Slots(Meetings(ix))|
    requires Classify(NextRule, Slots(Meetings(ix))[k], now) == Hit
    ensures NextSession(Some(ix), now).Returned? ==> NextSession(Some(ix), now).value.Some?
  {
    var s := Slots(Meetings(ix));
    if FirstStop(NextRule, s, now) == |s| {
      SkippedAt(NextRule, s, now, |s|, k);
    }
  }

  // ---------------------------------------------------------------------
  // get_latest_session_with_path
  // ---------------------------------------------------------------------

  /** The three shapes `get_latest_session_with_path` returns. */
  datatype Latest =
    | NoIndex                                            // (None, None, None): fetch failed or index is {}
    | NoneFound                                          // {}
    | Latest(path: string, meetingKey: int, sessionKey: int)

  function LatestSession(fetched: Option<Index>, now: int): Outcome<Latest> {
    if fetched.None? || !Truthy(fetched.value) then Returned(NoIndex)
    else
      var s := Slots(Meetings(fetched.value));
      if !AllParse(s) then Raised(ValueError)
      else
        match Held(LatestRule, s, now, None)
        case None => Returned(NoneFound)
        case Some(c) => Returned(Latest(c.session.path.value, c.meetingKey, c.session.key))
  }

  lemma TakenByLatest(slot: Slot, now: int)
    requires slot.start.Some?
    ensures Classify(LatestRule, slot, now) == Hit
            <==> slot.start.value < now && slot.session.path.Some?
  {
  }

  /**
   * The inner loop over one meeting's sessions: every qualifying session
   * overwrites the one held so far, and a bad offset raises.
   */
  method LatestInMeeting(m: Meeting, now: int, latest: Option<Slot>) returns (r: Outcome<Option<Slot>>)
    ensures r == if AllParse(SlotsOf(m)) then Returned(Held(LatestRule, SlotsOf(m), now, latest))
                 else Raised(ValueError)
  {
    var held := latest;
    var j := 0;
    while j < |m.sessions|
      invariant 0 <= j <= |m.sessions|
      invariant AllParse(SlotsOf(m)[..j])
      invariant held == Held(LatestRule, SlotsOf(m)[..j], now, latest)
    {
      var session := m.sessions[j];
      var start := Start(session);
      if start.None? {
        assert !AllParse(SlotsOf(m));
        return Raised(ValueError);
      }
      ParseMore(SlotsOf(m), j);
      HeldMore(LatestRule, SlotsOf(m), now, latest, j);
      TakenByLatest(SlotsOf(m)[j], now);
      if start.value < now && session.path.Some? {
        held := Some(MakeSlot(m.key, session));
      }
      j := j + 1;
    }
    assert SlotsOf(m)[..j] == SlotsOf(m);
    return Returned(held);
  }

  method LatestSessionWithPath(fetched: Option<Index>, now: int) returns (r: Outcome<Latest>)
    ensures r == LatestSession(fetched, now)
  {
    if fetched.None? || !Truthy(fetched.value) {
      return Returned(NoIndex);
    }
    var ms := Meetings(fetched.value);
    var latest: Option<Slot> := None;
    var i := 0;
    while i < |ms|
      invariant 0 <= i <= |ms|
      invariant AllParse(Slots(ms[..i]))
      invariant latest == Held(LatestRule, Slots(ms[..i]), now, None)
    {
      var step := LatestInMeeting(ms[i], now, latest);
      SlotsStep(ms, i);
      AllParseConcat(Slots(ms[..i]), SlotsOf(ms[i]));
      if step.Raised? {
        if AllParse(Slots(ms)) {
          AllParsePrefix(ms, i + 1);
        }
        return Raised(ValueError);
      }
      HeldConcat(LatestRule, Slots(ms[..i]), SlotsOf(ms[i]), now, None);
      latest := step.value;
      i := i + 1;
    }
    assert ms[..i] == ms;
    if latest.Some? {
      return Returned(Latest(latest.value.session.path.value, latest.value.meetingKey, latest.value.session.key));
    }
    return Returned(NoneFound);
  }

  /**
   * Last match: a returned path belongs to a session that started strictly
   * before now, paired with its own meeting's key, and no later session in
   * encounter order has a Path and a start before now.
   */
  lemma LatestSessionIsLast(ix: Index, now: int, path: string, mk: int, sk: int)
    requires LatestSession(Some(ix), now) == Returned(Latest(path, mk, sk))
    ensures exists k :: (0 <= k < |Slots(Meetings(ix))|
                         && Slots(Meetings(ix))[k].meetingKey == mk
                         && Slots(Meetings(ix))[k].session.key == sk
                         && Slots(Meetings(ix))[k].session.path == Some(path)
                         && Slots(Meetings(ix))[k].start.Some?
                         && Slots(Meetings(ix))[k].start.value < now
                         && forall j :: k < j < |Slots(Meetings(ix))| ==>
                              Classify(LatestRule, Slots(Meetings(ix))[j], now) != Hit)
  {
    var s := Slots(Meetings(ix));
    HeldIsLast(LatestRule, s, now, None);
    var k := LastHit(LatestRule, s, now);
    assert Classify(LatestRule, s[k], now) == Hit;
  }

  /** `{}` exactly when every session parsed and none started strictly before now with a Path. */
  lemma LatestSessionNone(ix: Index, now: int)
    requires Truthy(ix)
    ensures LatestSession(Some(ix), now) == Returned(NoneFound)
        <==> AllParse(Slots(Meetings(ix)))
             && forall k :: 0 <= k < |Slots(Meetings(ix))| ==>
                  !Published(Slots(Meetings(ix))[k].start.value, Slots(Meetings(ix))[k].session, now)
  {
    var s := Slots(Meetings(ix));
    if AllParse(s) {
      HeldIsLast(LatestRule, s, now, None);
      var k := LastHit(LatestRule, s, now);
      if k >= 0 {
        assert Published(s[k].start.value, s[k].session, now);
      }
      forall j | 0 <= j < |s| && Published(s[j].start.value, s[j].session, now)
        ensures k >= 0
      {
        assert Classify(LatestRule, s[j], now) == Hit;
      }
    }
  }

  /**
   * A session that starts exactly at now is never the latest, wherever it
   * sits in the encounter order: the test is strict, so the scan does not
   * take it, and the returned session is some other one.
   */
  lemma LatestIsStrict(ix: Index, now: int, k: nat)
    requires k < |Slots(Meetings(ix))| && Slots(Meetings(ix))[k].start == Some(now)
    ensures Classify(LatestRule, Slots(Meetings(ix))[k], now) != Hit
    ensures LastHit(LatestRule, Slots(Meetings(ix)), now) != k
  {
  }

  /** In particular, an index whose sessions all start at now has no latest session. */
  lemma AllAtNowNoneFound(ix: Index, now: int)
    requires Truthy(ix)
    requires forall k :: 0 <= k < |Slots(Meetings(ix))| ==> Start(Slots(Meetings(ix))[k].session) == Some(now)
    ensures LatestSession(Some(ix), now) == Returned(NoneFound)
  {
    SlotsStart(Meetings(ix));
    LatestSessionNone(ix, now);
  }
}
