/**
 * One iteration of the `while True` loop of `monitor_session_path` in
 * main.py: fetch result and clock reading in, the path to stream or the
 * number of seconds to sleep out.
 */
module Poller {
  import opened Wrappers
  import opened FeedIndex
  import opened Scan
  import opened Resolver

  /** Seconds to wait after a failed fetch or when no candidate exists. */
  const RetryDelay: nat := 60

  /** What one iteration ends with: the feed to stream, or a sleep. */
  datatype Step =
    | Found(path: string, meetingKey: int, sessionKey: int)
    | Sleep(seconds: nat)

  /**
   * The interval chosen for a candidate starting at `start`: 5 s while it is
   * overdue today, otherwise 600, 120 or 10 s by the time left until it starts.
   */
  function SleepInterval(start: int, now: int): nat {
    var timeToStart := start - now;
    if Date(start) == Date(now) && start <= now then 5
    else if timeToStart > 3600 then 600
    else if timeToStart > 600 then 120
    else 10
  }

  /**
   * The candidate of the scan in `monitor_session_path`: the first session
   * that is upcoming or overdue today; a bad offset met before it raises
   * ValueError. A candidate never has a Path.
   */
  function Candidate(ix: Index, now: int): (r: Outcome<Option<Slot>>)
    ensures r.Returned? && r.value.Some? ==>
              && r.value.value.start.Some?
              && r.value.value.session.path.None?
              && (Upcoming(r.value.value.start.value, r.value.value.session, now)
                  || OverdueToday(r.value.value.start.value, r.value.value.session, now))
  {
    FirstResult(PollRule, Slots(Meetings(ix)), now)
  }

  /**
   * First match: the candidate is the first session, in meeting-then-session
   * order, that is upcoming or overdue today; every session before it parsed
   * and was neither.
   */
  lemma CandidateIsFirst(ix: Index, now: int, c: Slot)
    requires Candidate(ix, now) == Returned(Some(c))
    ensures exists k :: (0 <= k < |Slots(Meetings(ix))| && Slots(Meetings(ix))[k] == c
                         && AllSkip(PollRule, Slots(Meetings(ix))[..k], now))
  {
    var k := FirstStop(PollRule, Slots(Meetings(ix)), now);
    assert Slots(Meetings(ix))[k] == c;
  }

  /**
   * The whole iteration: a failed or empty fetch sleeps 60; no candidate
   * sleeps 60; a candidate with a Path is returned; otherwise the iteration
   * sleeps for the interval the candidate's start calls for.
   */
  function PollStep(fetched: Option<Index>, now: int): Outcome<Step> {
    if fetched.None? || !Truthy(fetched.value) then Returned(Sleep(RetryDelay))
    else
      match Candidate(fetched.value, now)
      case Raised(e) => Raised(e)
      case Returned(None) => Returned(Sleep(RetryDelay))
      case Returned(Some(c)) =>
        if c.session.path.Some? then Returned(Found(c.session.path.value, c.meetingKey, c.session.key))
        else Returned(Sleep(SleepInterval(c.start.value, now)))
  }

  lemma TakenByPoll(slot: Slot, now: int)
    requires slot.start.Some?
    ensures Classify(PollRule, slot, now) == Hit
            <==> (Upcoming(slot.start.value, slot.session, now)
                  || OverdueToday(slot.start.value, slot.session, now))
  {
  }

  /** The inner loop of lines 107-120 over one meeting's sessions, left by `break`. */
  method CandidateInMeeting(m: Meeting, now: int) returns (r: Outcome<Option<Slot>>)
    ensures r == FirstResult(PollRule, SlotsOf(m), now)
  {
    var next: Option<Slot> := None;
    var j := 0;
    while j < |m.sessions|
      invariant 0 <= j <= |m.sessions|
      invariant next.None? && AllSkip(PollRule, SlotsOf(m)[..j], now)
    {
      var session := m.sessions[j];
      var start := Start(session);
      if start.None? {
        FirstStopUnique(PollRule, SlotsOf(m), now, j);
        return Raised(ValueError);
      }
      TakenByPoll(SlotsOf(m)[j], now);
      if start.value > now && session.path.None? {
        next := Some(MakeSlot(m.key, session));
        FirstStopUnique(PollRule, SlotsOf(m), now, j);
        break;
      } else if start.value <= now && session.path.None? && Date(start.value) == Date(now) {
        next := Some(MakeSlot(m.key, session));
        FirstStopUnique(PollRule, SlotsOf(m), now, j);
        break;
      }
      SkipMore(PollRule, SlotsOf(m), now, j);
      j := j + 1;
    }
    if next.None? {
      FirstStopUnique(PollRule, SlotsOf(m), now, j);
    }
    return Returned(next);
  }

  /** The candidate scan of lines 106-123: stop at the first meeting that yields one. */
  method ScanCandidate(ix: Index, now: int) returns (r: Outcome<Option<Slot>>)
    ensures r == Candidate(ix, now)
  {
    var ms := Meetings(ix);
    var next: Outcome<Option<Slot>> := Returned(None);
    var i := 0;
    while i < |ms|
      invariant 0 <= i <= |ms|
      invariant next == Returned(None)
      invariant FirstResult(PollRule, Slots(ms[..i]), now) == Returned(None)
    {
      next := CandidateInMeeting(ms[i], now);
      SlotsStep(ms, i);
      FirstResultConcat(PollRule, Slots(ms[..i]), SlotsOf(ms[i]), now);
      if next != Returned(None) {
        FirstAfterPrefix(PollRule, ms, i + 1, now);
        break;
      }
      i := i + 1;
    }
    if next == Returned(None) {
      assert ms[..i] == ms;
    }
    return next;
  }

  /** One pass of the loop body of `monitor_session_path` (lines 95-151). */
  method PollOnce(fetched: Option<Index>, now: int) returns (r: Outcome<Step>)
    ensures r == PollStep(fetched, now)
  {
    if fetched.None? || !Truthy(fetched.value) {
      return Returned(Sleep(RetryDelay));
    }
    var scan := ScanCandidate(fetched.value, now);
    if scan.Raised? {
      return Raised(scan.error);
    }
    match scan.value {
      case Some(next) =>
        match next.session.path {
          case Some(path) =>
            r := Returned(Found(path, next.meetingKey, next.session.key));
          case None =>
            var nextStart := next.start.value;
            r := Returned(Sleep(SleepInterval(nextStart, now)));
        }
      case None =>
        r := Returned(Sleep(RetryDelay));
    }
  }

  /**
   * The Found branch cannot fire on the candidate of the same iteration:
   * the scan only ever picks sessions without a Path.
   */
  lemma PollNeverFound(fetched: Option<Index>, now: int)
    ensures !(PollStep(fetched, now).Returned? && PollStep(fetched, now).value.Found?)
  {
  }

  /** Every interval the iteration can sleep is one of five constants. */
  lemma PollSleepValues(fetched: Option<Index>, now: int, n: nat)
    requires PollStep(fetched, now) == Returned(Sleep(n))
    ensures n in {5, 10, 60, 120, 600}
  {
  }

  /**
   * For a fetched, non-empty index: the five-second poll happens exactly
   * when the candidate started at or before now on today's date, and the
   * 60-second retry exactly when no candidate exists.
   */
  lemma PollIntervalMeaning(ix: Index, now: int)
    requires Truthy(ix)
    requires PollStep(Some(ix), now).Returned?
    ensures PollStep(Some(ix), now) == Returned(Sleep(5))
            <==> (Candidate(ix, now).value.Some?
                  && OverdueToday(Candidate(ix, now).value.value.start.value, Candidate(ix, now).value.value.session, now))
    ensures PollStep(Some(ix), now) == Returned(Sleep(RetryDelay)) <==> Candidate(ix, now) == Returned(None)
  {
  }

  /**
   * The 60-second retry happens exactly when the fetch failed, the index was
   * empty, or no candidate exists.
   */
  lemma PollRetryMeaning(fetched: Option<Index>, now: int)
    requires PollStep(fetched, now).Returned?
    ensures PollStep(fetched, now) == Returned(Sleep(RetryDelay))
            <==> (fetched.None? || !Truthy(fetched.value) || Candidate(fetched.value, now) == Returned(None))
  {
  }

  /** The worked examples and the two boundaries of the interval choice. */
  lemma SleepIntervalExamples(now: int)
    ensures SleepInterval(now + 4000, now) == 600
    ensures SleepInterval(now + 3601, now) == 600
    ensures SleepInterval(now + 3600, now) == 120
    ensures SleepInterval(now + 700, now) == 120
    ensures SleepInterval(now + 601, now) == 120
    ensures SleepInterval(now + 600, now) == 10
    ensures SleepInterval(now + 300, now) == 10
    ensures SleepInterval(now, now) == 5
  {
  }

  /** An overdue session of today polls every five seconds, however late it is. */
  lemma OverdueSleepsFive(start: int, now: int)
    requires start <= now && Date(start) == Date(now)
    ensures SleepInterval(start, now) == 5
  {
  }

  /** For sessions in the future, a later start never polls more often. */
  lemma SleepIntervalMonotone(t1: int, t2: int, now: int)
    requires now < t1 <= t2
    ensures SleepInterval(t1, now) <= SleepInterval(t2, now)
    ensures SleepInterval(t1, now) in {10, 120, 600}
  {
  }

  /**
   * When the candidate lies in the future, it is the session that
   * `get_next_session_without_path` returns for the same index and clock:
   * every session the poll skipped is skipped by that scan too.
   */
  lemma FutureCandidateIsNext(ix: Index, now: int, c: Slot)
    requires Candidate(ix, now) == Returned(Some(c)) && c.start.value > now
    ensures NextSession(Some(ix), now) == Returned(Some(c.session))
  {
    var s := Slots(Meetings(ix));
    var k := FirstStop(PollRule, s, now);
    forall j | 0 <= j < k
      ensures Classify(NextRule, s[..k][j], now) == Skip
    {
      SkippedAt(PollRule, s, now, k, j);
      assert s[..k][j] == s[j];
    }
    assert Classify(NextRule, s[k], now) == Hit;
    FirstStopUnique(NextRule, s, now, k);
  }
}
