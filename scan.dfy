/**
 * The ordered searches that main.py runs over the sessions of the index:
 * the per-session tests, first-match and keep-the-last scans over the
 * encounter order, and how a scan over one meeting combines with the scan
 * over the meetings before it.
 */
module Scan {
  import opened Wrappers
  import opened FeedIndex

  /** The three tests the scans apply to a session. */
  datatype Rule =
    | NextRule    // start > now and no Path
    | LatestRule  // start < now and a Path
    | PollRule    // no Path, and start > now or start <= now on today's date

  /** What a scan does on reaching a slot: skip it, take it, or raise. */
  datatype Verdict = Skip | Hit | Fail

  /** A session that starts after now and has no Path. */
  predicate Upcoming(t: int, s: Session, now: int) {
    t > now && s.path.None?
  }

  /** A session that started at or before now, today, and has no Path. */
  predicate OverdueToday(t: int, s: Session, now: int) {
    t <= now && s.path.None? && Date(t) == Date(now)
  }

  /** A session that started strictly before now and has a Path. */
  predicate Published(t: int, s: Session, now: int) {
    t < now && s.path.Some?
  }

  function Classify(rule: Rule, slot: Slot, now: int): Verdict {
    match slot.start
    case None => Fail
    case Some(t) =>
      var taken := match rule
        case NextRule => Upcoming(t, slot.session, now)
        case LatestRule => Published(t, slot.session, now)
        case PollRule => Upcoming(t, slot.session, now) || OverdueToday(t, slot.session, now);
      if taken then Hit else Skip
  }

  predicate AllSkip(rule: Rule, s: seq<Slot>, now: int) {
    forall k :: 0 <= k < |s| ==> Classify(rule, s[k], now) == Skip
  }

  /** Every session's offset parses, so a full scan raises nothing. */
  predicate AllParse(s: seq<Slot>) {
    forall k :: 0 <= k < |s| ==> s[k].start.Some?
  }

  // ---------------------------------------------------------------------
  // First match
  // ---------------------------------------------------------------------

  /** Where a first-match scan stops: the first slot it does not skip, or |s|. */
  function FirstStop(rule: Rule, s: seq<Slot>, now: int): (k: nat)
    ensures k <= |s|
    ensures AllSkip(rule, s[..k], now)
    ensures k < |s| ==> Classify(rule, s[k], now) != Skip
  {
    if s == [] then 0
    else if Classify(rule, s[0], now) != Skip then 0
    else
      var k := 1 + FirstStop(rule, s[1..], now);
      assert forall j :: 1 <= j < k ==> s[..k][j] == s[1..][..k - 1][j - 1];
      k
  }

  lemma SkippedAt(rule: Rule, s: seq<Slot>, now: int, n: nat, k: nat)
    requires k < n <= |s| && AllSkip(rule, s[..n], now)
    ensures Classify(rule, s[k], now) == Skip
  {
    assert s[..n][k] == s[k];
  }

  lemma SkipMore(rule: Rule, s: seq<Slot>, now: int, n: nat)
    requires n < |s| && AllSkip(rule, s[..n], now)
    requires Classify(rule, s[n], now) == Skip
    ensures AllSkip(rule, s[..n + 1], now)
  {
    assert s[..n + 1] == s[..n] + [s[n]];
  }

  /** The stopping point of a first-match scan is the only one with its two properties. */
  lemma FirstStopUnique(rule: Rule, s: seq<Slot>, now: int, k: nat)
    requires k <= |s| && AllSkip(rule, s[..k], now)
    requires k < |s| ==> Classify(rule, s[k], now) != Skip
    ensures FirstStop(rule, s, now) == k
  {
    var f := FirstStop(rule, s, now);
    if f < k {
      SkippedAt(rule, s, now, k, f);
      assert false;
    }
    if k < f {
      SkippedAt(rule, s, now, f, k);
      assert false;
    }
  }

  /**
   * What a first-match scan ends with: nothing, the slot it stopped at, or
   * the ValueError of a bad offset met first. What it returns was taken.
   */
  function FirstResult(rule: Rule, s: seq<Slot>, now: int): (r: Outcome<Option<Slot>>)
    ensures r.Returned? && r.value.Some? ==>
              r.value.value in s && Classify(rule, r.value.value, now) == Hit
  {
    var k := FirstStop(rule, s, now);
    if k == |s| then Returned(None)
    else if s[k].start.None? then Raised(ValueError)
    else Returned(Some(s[k]))
  }

  /** A first-match scan over a + b is the scan over a unless that found nothing. */
  lemma FirstResultConcat(rule: Rule, a: seq<Slot>, b: seq<Slot>, now: int)
    ensures FirstResult(rule, a + b, now)
            == if FirstResult(rule, a, now) == Returned(None) then FirstResult(rule, b, now)
               else FirstResult(rule, a, now)
  {
    var ka := FirstStop(rule, a, now);
    if ka < |a| {
      assert (a + b)[..ka] == a[..ka];
      assert (a + b)[ka] == a[ka];
      FirstStopUnique(rule, a + b, now, ka);
    } else {
      var kb := FirstStop(rule, b, now);
      assert a[..ka] == a;
      assert (a + b)[..|a| + kb] == a + b[..kb];
      assert kb < |b| ==> (a + b)[|a| + kb] == b[kb];
      FirstStopUnique(rule, a + b, now, |a| + kb);
    }
  }

  /** Once the meetings up to n have given a result, the later meetings do not matter. */
  lemma FirstAfterPrefix(rule: Rule, ms: seq<Meeting>, n: nat, now: int)
    requires n <= |ms| && FirstResult(rule, Slots(ms[..n]), now) != Returned(None)
    ensures FirstResult(rule, Slots(ms), now) == FirstResult(rule, Slots(ms[..n]), now)
  {
    SlotsPrefix(ms, n);
    FirstAfterLeading(rule, Slots(ms[..n]), Slots(ms), now);
  }

  /** The same for any run of slots that leads another. */
  lemma FirstAfterLeading(rule: Rule, p: seq<Slot>, all: seq<Slot>, now: int)
    requires p <= all && FirstResult(rule, p, now) != Returned(None)
    ensures FirstResult(rule, all, now) == FirstResult(rule, p, now)
  {
    assert all == p + all[|p|..];
    FirstResultConcat(rule, p, all[|p|..], now);
  }

  // ---------------------------------------------------------------------
  // Keep the last
  // ---------------------------------------------------------------------

  /** The last slot of s that a rule takes, or -1. */
  function LastHit(rule: Rule, s: seq<Slot>, now: int): (k: int)
    ensures -1 <= k < |s|
    ensures k >= 0 ==> Classify(rule, s[k], now) == Hit
    ensures forall j :: k < j < |s| ==> Classify(rule, s[j], now) != Hit
  {
    if s == [] then -1
    else if Classify(rule, s[|s| - 1], now) == Hit then |s| - 1
    else LastHit(rule, s[..|s| - 1], now)
  }

  /**
   * What a scan that overwrites its accumulator on every taken slot holds
   * after s, starting from `init`: the last slot taken, or `init`.
   */
  function Held(rule: Rule, s: seq<Slot>, now: int, init: Option<Slot>): (r: Option<Slot>)
    ensures r == init || (r.Some? && r.value in s && Classify(rule, r.value, now) == Hit)
  {
    if s == [] then init
    else if Classify(rule, s[|s| - 1], now) == Hit then Some(s[|s| - 1])
    else Held(rule, s[..|s| - 1], now, init)
  }

  /** The accumulator is exactly the last taken slot. */
  lemma {:induction false} HeldIsLast(rule: Rule, s: seq<Slot>, now: int, init: Option<Slot>)
    ensures Held(rule, s, now, init)
            == if LastHit(rule, s, now) < 0 then init else Some(s[LastHit(rule, s, now)])
  {
    if s != [] && Classify(rule, s[|s| - 1], now) != Hit {
      HeldIsLast(rule, s[..|s| - 1], now, init);
    }
  }

  /** Scanning a then b is scanning b from where a left the accumulator. */
  lemma {:induction false} HeldConcat(rule: Rule, a: seq<Slot>, b: seq<Slot>, now: int, init: Option<Slot>)
    ensures Held(rule, a + b, now, init) == Held(rule, b, now, Held(rule, a, now, init))
  {
    if b == [] {
      assert a + b == a;
    } else {
      assert (a + b)[..|a + b| - 1] == a + b[..|b| - 1];
      HeldConcat(rule, a, b[..|b| - 1], now, init);
    }
  }

  lemma HeldMore(rule: Rule, s: seq<Slot>, now: int, init: Option<Slot>, n: nat)
    requires n < |s|
    ensures Held(rule, s[..n + 1], now, init)
            == if Classify(rule, s[n], now) == Hit then Some(s[n]) else Held(rule, s[..n], now, init)
  {
    assert s[..n + 1][..n] == s[..n];
  }

  lemma ParseMore(s: seq<Slot>, n: nat)
    requires n < |s| && AllParse(s[..n]) && s[n].start.Some?
    ensures AllParse(s[..n + 1])
  {
    assert s[..n + 1] == s[..n] + [s[n]];
  }

  lemma AllParseConcat(a: seq<Slot>, b: seq<Slot>)
    ensures AllParse(a + b) <==> AllParse(a) && AllParse(b)
  {
    if AllParse(a + b) {
      forall k | 0 <= k < |a| ensures a[k].start.Some? {
        assert (a + b)[k] == a[k];
      }
      forall k | 0 <= k < |b| ensures b[k].start.Some? {
        assert (a + b)[|a| + k] == b[k];
      }
    }
    if AllParse(a) && AllParse(b) {
      forall k | 0 <= k < |a + b| ensures (a + b)[k].start.Some? {
        if k >= |a| {
          assert (a + b)[k] == b[k - |a|];
        }
      }
    }
  }

  lemma AllParsePrefix(ms: seq<Meeting>, n: nat)
    requires n <= |ms| && AllParse(Slots(ms))
    ensures AllParse(Slots(ms[..n]))
  {
    SlotsPrefix(ms, n);
    AllParseLeading(Slots(ms[..n]), Slots(ms));
  }

  lemma AllParseLeading(p: seq<Slot>, all: seq<Slot>)
    requires p <= all && AllParse(all)
    ensures AllParse(p)
  {
    forall k | 0 <= k < |p| ensures p[k].start.Some? {
      assert p[k] == all[k];
    }
  }
}
