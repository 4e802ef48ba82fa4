/**
 * The text handling of `process_chunk` in main.py: the anchored match of
 * `(\d+:\d+:\d+\.\d+)(.*)` at the start of a line, and `str.strip` with a
 * single character.
 */
module LineFormat {
  import opened Wrappers
  import opened Offset

  // ---------------------------------------------------------------------
  // The timestamp prefix
  // ---------------------------------------------------------------------

  /** The length of the run of decimal digits that starts s. */
  function DigitRun(s: string): (n: nat)
    ensures n <= |s|
    ensures forall k :: 0 <= k < n ==> IsDigit(s[k])
    ensures n < |s| ==> !IsDigit(s[n])
  {
    if s != [] && IsDigit(s[0]) then 1 + DigitRun(s[1..]) else 0
  }

  /** A digit run is the only one with its two properties: all digits, then a non-digit or the end. */
  lemma {:induction false} DigitRunExact(s: string, n: nat)
    requires n <= |s| && forall k :: 0 <= k < n ==> IsDigit(s[k])
    requires n < |s| ==> !IsDigit(s[n])
    ensures DigitRun(s) == n
  {
    if n > 0 {
      assert forall k :: 0 <= k < n - 1 ==> s[1..][k] == s[k + 1];
      DigitRunExact(s[1..], n - 1);
    }
  }

  predicate DigitField(f: string) {
    |f| > 0 && AllDigits(f)
  }

  /**
   * One `\d+` followed by the literal `sep` at the start of s: the digits
   * and what follows the separator, or None.
   */
  function DigitsThen(s: string, sep: char): (r: Option<(string, string)>)
    ensures r.Some? ==> DigitField(r.value.0) && s == r.value.0 + [sep] + r.value.1
  {
    var n := DigitRun(s);
    if n == 0 || n == |s| || s[n] != sep then None
    else
      assert s == s[..n] + [sep] + s[n + 1..];
      Some((s[..n], s[n + 1..]))
  }

  /** A digit field followed by its separator is found as exactly that field. */
  lemma DigitsThenField(d: string, sep: char, rest: string)
    requires DigitField(d) && !IsDigit(sep)
    ensures DigitsThen(d + [sep] + rest, sep) == Some((d, rest))
  {
    var s := d + [sep] + rest;
    DigitRunExact(s, |d|);
    assert s[..|d|] == d && s[|d| + 1..] == rest;
  }

  /** What `.*` takes: everything up to the first newline, which `.` does not match. */
  function LineRest(t: string): string {
    if t == [] || t[0] == '\n' then [] else [t[0]] + LineRest(t[1..])
  }

  /** Group 2 is a prefix of the tail without newlines, cut at the first newline. */
  lemma {:induction false} LineRestShape(t: string)
    ensures LineRest(t) <= t && '\n' !in LineRest(t)
    ensures |LineRest(t)| < |t| ==> t[|LineRest(t)|] == '\n'
  {
    if t != [] && t[0] != '\n' {
      LineRestShape(t[1..]);
    }
  }

  lemma {:induction false} LineRestWhole(t: string)
    requires '\n' !in t
    ensures LineRest(t) == t
  {
    if t != [] {
      assert t[0] in t;
      assert forall c :: c in t[1..] ==> c in t;
      LineRestWhole(t[1..]);
    }
  }

  /** The two groups of a successful match, group 1 as its four digit runs. */
  datatype Stamp = Stamp(hours: string, minutes: string, seconds: string, fraction: string, rest: string)

  /** Group 1 of the match: `H:M:S.F`. */
  function Time(st: Stamp): string {
    st.hours + ":" + st.minutes + ":" + st.seconds + "." + st.fraction
  }

  /**
   * `re.match(r'(\d+:\d+:\d+\.\d+)(.*)', s)`: four digit runs joined by ':',
   * ':' and '.' at the start of the line, the last run as long as it goes,
   * and the rest of the line as group 2.
   */
  function MatchStamp(s: string): Option<Stamp> {
    match DigitsThen(s, ':')
    case None => None
    case Some((h, r1)) =>
      match DigitsThen(r1, ':')
      case None => None
      case Some((m, r2)) =>
        match DigitsThen(r2, '.')
        case None => None
        case Some((sec, r3)) =>
          var n := DigitRun(r3);
          if n == 0 then None else Some(Stamp(h, m, sec, r3[..n], LineRest(r3[n..])))
  }

  /**
   * A match is sound: the line is group 1 followed by a tail that does not
   * start with a digit, group 1 is made of four non-empty digit runs, and
   * group 2 is that tail up to the first newline.
   */
  lemma MatchStampSound(s: string)
    requires MatchStamp(s).Some?
    ensures var st := MatchStamp(s).value;
            && DigitField(st.hours) && DigitField(st.minutes)
            && DigitField(st.seconds) && DigitField(st.fraction)
            && Time(st) <= s
            && (|Time(st)| < |s| ==> !IsDigit(s[|Time(st)|]))
            && st.rest == LineRest(s[|Time(st)|..])
  {
    var (h, r1) := DigitsThen(s, ':').value;
    var (m, r2) := DigitsThen(r1, ':').value;
    var (sec, r3) := DigitsThen(r2, '.').value;
    var n := DigitRun(r3);
    var st := MatchStamp(s).value;
    assert st == Stamp(h, m, sec, r3[..n], LineRest(r3[n..]));
    RunIsField(r3, n);
    SplitAt(r3, n);
    JoinTime(st, r1, r2, r3, r3[n..]);
    assert s[|Time(st)|..] == r3[n..];
  }

  lemma SplitAt(r: string, n: nat)
    requires n <= |r|
    ensures r == r[..n] + r[n..]
  {
  }

  lemma RunIsField(r: string, n: nat)
    requires 0 < n <= |r| && forall k :: 0 <= k < n ==> IsDigit(r[k])
    ensures DigitField(r[..n])
  {
    assert forall k :: 0 <= k < n ==> r[..n][k] == r[k];
  }

  /** The line rebuilt from the pieces the matcher cut it into. */
  lemma JoinTime(st: Stamp, r1: string, r2: string, r3: string, tail: string)
    requires r3 == st.fraction + tail
    requires r2 == st.seconds + ['.'] + r3
    requires r1 == st.minutes + [':'] + r2
    ensures st.hours + [':'] + r1 == Time(st) + tail
  {
  }

  /** Every line that starts with four digit runs in the right shape matches, with exactly those runs. */
  lemma StampFound(h: string, m: string, sec: string, f: string, tail: string)
    requires DigitField(h) && DigitField(m) && DigitField(sec) && DigitField(f)
    requires tail == [] || !IsDigit(tail[0])
    ensures MatchStamp(h + ":" + m + ":" + sec + "." + f + tail) == Some(Stamp(h, m, sec, f, LineRest(tail)))
  {
    var s := h + ":" + m + ":" + sec + "." + f + tail;
    var r3 := f + tail;
    var r2 := sec + "." + r3;
    var r1 := m + ":" + r2;
    assert s == h + [':'] + r1;
    DigitsThenField(h, ':', r1);
    assert r1 == m + [':'] + r2;
    DigitsThenField(m, ':', r2);
    assert r2 == sec + ['.'] + r3;
    DigitsThenField(sec, '.', r3);
    DigitRunExact(r3, |f|);
    assert r3[..|f|] == f && r3[|f|..] == tail;
  }

  /** A line that does not start with a digit never matches. */
  lemma NoStampWithoutDigit(s: string)
    requires s == [] || !IsDigit(s[0])
    ensures MatchStamp(s) == None
  {
  }

  // ---------------------------------------------------------------------
  // str.strip(c)
  // ---------------------------------------------------------------------

  /** `s.lstrip(c)`: drops every leading c. */
  function StripStart(s: string, c: char): string {
    if s != [] && s[0] == c then StripStart(s[1..], c) else s
  }

  /** `s.rstrip(c)`: drops every trailing c. */
  function StripEnd(s: string, c: char): string {
    if s != [] && s[|s| - 1] == c then StripEnd(s[..|s| - 1], c) else s
  }

  /** lstrip keeps a suffix that does not start with c, and drops only c. */
  lemma {:induction false} StripStartShape(s: string, c: char)
    ensures |StripStart(s, c)| <= |s| && StripStart(s, c) == s[|s| - |StripStart(s, c)|..]
    ensures forall k :: 0 <= k < |s| - |StripStart(s, c)| ==> s[k] == c
    ensures StripStart(s, c) == [] || StripStart(s, c)[0] != c
  {
    if s != [] && s[0] == c {
      StripStartShape(s[1..], c);
      assert forall k :: 1 <= k < |s| ==> s[k] == s[1..][k - 1];
    }
  }

  /** rstrip keeps a prefix that does not end with c, and drops only c. */
  lemma {:induction false} StripEndShape(s: string, c: char)
    ensures StripEnd(s, c) <= s
    ensures forall k :: |StripEnd(s, c)| <= k < |s| ==> s[k] == c
    ensures StripEnd(s, c) == [] || StripEnd(s, c)[|StripEnd(s, c)| - 1] != c
  {
    if s != [] && s[|s| - 1] == c {
      StripEndShape(s[..|s| - 1], c);
    }
  }

  /** `s.strip(c)`: drops c from both ends. */
  function Strip(s: string, c: char): string {
    StripEnd(StripStart(s, c), c)
  }

  /** A string made only of c. */
  predicate Only(s: string, c: char) {
    forall k :: 0 <= k < |s| ==> s[k] == c
  }

  /**
   * What strip leaves: s is a run of c, the result, and another run of c,
   * and the result neither starts nor ends with c.
   */
  lemma StripShape(s: string, c: char)
    ensures Strip(s, c) == [] || (Strip(s, c)[0] != c && Strip(s, c)[|Strip(s, c)| - 1] != c)
    ensures exists i, j :: (0 <= i <= j <= |s| && Only(s[..i], c) && Only(s[j..], c) && s[i..j] == Strip(s, c))
  {
    var a := StripStart(s, c);
    var r := StripEnd(a, c);
    StripStartShape(s, c);
    StripEndShape(a, c);
    var i := |s| - |a|;
    var j := i + |r|;
    assert s[i..] == a;
    assert s[i..j] == r;
    assert Only(s[..i], c);
    forall k | 0 <= k < |s| - j ensures s[j..][k] == c {
      assert s[j..][k] == a[|r| + k];
    }
    assert Only(s[j..], c);
    if r != [] {
      assert r[0] == a[0];
    }
  }

  /** Only the result has that shape: strip removes exactly the runs of c at both ends. */
  lemma StripUnique(pre: string, x: string, post: string, c: char)
    requires Only(pre, c) && Only(post, c)
    requires x == [] || (x[0] != c && x[|x| - 1] != c)
    ensures Strip(pre + x + post, c) == x
  {
    if x == [] {
      var all := pre + x + post;
      assert all == all + [];
      forall k | 0 <= k < |all| ensures all[k] == c {
        if k < |pre| { assert all[k] == pre[k]; } else { assert all[k] == post[k - |pre|]; }
      }
      StripStartRun(all, [], c);
    } else {
      StripStartRun(pre, x + post, c);
      assert pre + x + post == pre + (x + post);
      StripEndRun(x, post, c);
    }
  }

  lemma {:induction false} StripStartRun(pre: string, t: string, c: char)
    requires Only(pre, c) && (t == [] || t[0] != c)
    ensures StripStart(pre + t, c) == t
  {
    if pre != [] {
      assert (pre + t)[1..] == pre[1..] + t;
      StripStartRun(pre[1..], t, c);
    } else {
      assert pre + t == t;
    }
  }

  lemma {:induction false} StripEndRun(t: string, post: string, c: char)
    requires Only(post, c) && (t == [] || t[|t| - 1] != c)
    ensures StripEnd(t + post, c) == t
  {
    if post != [] {
      assert (t + post)[..|t + post| - 1] == t + post[..|post| - 1];
      StripEndRun(t, post[..|post| - 1], c);
    } else {
      assert t + post == t;
    }
  }

  /** A string with no c at either end is left alone. */
  lemma StripKeeps(s: string, c: char)
    requires s == [] || (s[0] != c && s[|s| - 1] != c)
    ensures Strip(s, c) == s
  {
    assert [] + s + [] == s;
    StripUnique([], s, [], c);
  }

  /** Stripping twice is stripping once: the second `.strip('"')` of line 169 changes nothing. */
  lemma StripIdempotent(s: string, c: char)
    ensures Strip(Strip(s, c), c) == Strip(s, c)
  {
    StripShape(s, c);
    StripKeeps(Strip(s, c), c);
  }
}
