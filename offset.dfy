/**
 * The start-time arithmetic of the scraper: `parse_start_time_with_offset`
 * in main.py. The offset is a string `HH:MM:SS`; it is split on ':' and every
 * field goes through Python's `int()`. Only hours and minutes are applied.
 */
module Offset {
  import opened Wrappers

  predicate IsDigit(c: char) {
    '0' <= c <= '9'
  }

  predicate AllDigits(s: string) {
    forall i :: 0 <= i < |s| ==> IsDigit(s[i])
  }

  function DigitValue(c: char): nat
    requires IsDigit(c)
  {
    c as int - '0' as int
  }

  function DigitChar(d: nat): (c: char)
    requires d < 10
    ensures IsDigit(c) && DigitValue(c) == d
  {
    ('0' as int + d) as char
  }

  /** The value of a run of decimal digits, most significant digit first. */
  function DigitsValue(s: string): nat
    requires AllDigits(s)
  {
    if s == [] then 0 else DigitsValue(s[..|s| - 1]) * 10 + DigitValue(s[|s| - 1])
  }

  /** Decimal digits of n without leading zeros. */
  function NatDigits(n: nat): (r: string)
    ensures |r| > 0 && AllDigits(r)
  {
    if n < 10 then [DigitChar(n)] else NatDigits(n / 10) + [DigitChar(n % 10)]
  }

  /** Python's `str(n)` for an integer. */
  function Show(n: int): string {
    if n < 0 then "-" + NatDigits(-n) else NatDigits(n)
  }

  /**
   * Python's `int()` on one field: an optional sign followed by at least one
   * decimal digit; anything else raises ValueError (None here).
   */
  function ParseInt(s: string): Option<int> {
    if |s| > 0 && (s[0] == '+' || s[0] == '-') then
      if |s| > 1 && AllDigits(s[1..]) then
        var v: int := DigitsValue(s[1..]);
        Some(if s[0] == '-' then -v else v)
      else None
    else if |s| > 0 && AllDigits(s) then Some(DigitsValue(s))
    else None
  }

  lemma {:induction false} DigitsRoundTrip(n: nat)
    ensures DigitsValue(NatDigits(n)) == n
  {
    if n >= 10 {
      DigitsRoundTrip(n / 10);
      var s := NatDigits(n);
      assert s[..|s| - 1] == NatDigits(n / 10);
    }
  }

  /** `int(str(n)) == n`: what Show prints, ParseInt reads back. */
  lemma ParseShow(n: int)
    ensures ParseInt(Show(n)) == Some(n)
  {
    if n < 0 {
      DigitsRoundTrip(-n);
      assert Show(n)[1..] == NatDigits(-n);
    } else {
      DigitsRoundTrip(n);
    }
  }

  /** Number of occurrences of c in s. */
  function Count(s: string, c: char): nat {
    if s == [] then 0 else (if s[0] == c then 1 else 0) + Count(s[1..], c)
  }

  /** The inverse of Split: the fields glued back together with sep. */
  function Join(parts: seq<string>, sep: char): string
    requires |parts| > 0
  {
    if |parts| == 1 then parts[0] else parts[0] + [sep] + Join(parts[1..], sep)
  }

  /**
   * Python's `s.split(sep)` with an explicit one-character separator: every
   * occurrence separates, so "" gives [""] and "a::b" gives ["a", "", "b"].
   */
  function Split(s: string, sep: char): (r: seq<string>)
    ensures |r| > 0
  {
    if s == [] then [[]]
    else
      var rest := Split(s[1..], sep);
      if s[0] == sep then [[]] + rest
      else [[s[0]] + rest[0]] + rest[1..]
  }

  /**
   * Split cuts at every separator and nowhere else: one more field than
   * separators, no field holds one, and joining the fields gives s back.
   */
  lemma {:induction false} SplitJoin(s: string, sep: char)
    ensures |Split(s, sep)| == Count(s, sep) + 1
    ensures forall i :: 0 <= i < |Split(s, sep)| ==> sep !in Split(s, sep)[i]
    ensures Join(Split(s, sep), sep) == s
  {
    if s != [] {
      SplitJoin(s[1..], sep);
      var rest := Split(s[1..], sep);
      if s[0] != sep {
        assert |rest| > 1 ==> Join(rest, sep) == rest[0] + [sep] + Join(rest[1..], sep);
        assert [s[0]] + s[1..] == s;
        var r := Split(s, sep);
        assert r[1..] == rest[1..];
      } else {
        assert Split(s, sep)[1..] == rest;
      }
    }
  }

  lemma {:induction false} SplitNoSep(a: string, sep: char)
    requires sep !in a
    ensures Split(a, sep) == [a]
  {
    if a != [] {
      SplitNoSep(a[1..], sep);
      assert [a[0]] + a[1..] == a;
    }
  }

  lemma {:induction false} SplitField(a: string, sep: char, b: string)
    requires sep !in a
    ensures Split(a + [sep] + b, sep) == [a] + Split(b, sep)
  {
    if a == [] {
      assert (a + [sep] + b)[1..] == b;
    } else {
      assert (a + [sep] + b)[1..] == a[1..] + [sep] + b;
      SplitField(a[1..], sep, b);
      assert [a[0]] + a[1..] == a;
    }
  }

  /**
   * `offset_hours, offset_minutes, _ = map(int, gmt_offset.split(':'))` and
   * `timedelta(hours=offset_hours, minutes=offset_minutes)`, in seconds.
   * None stands for the ValueError raised when there are not exactly three
   * fields or a field is not an integer.
   */
  function OffsetSeconds(gmtOffset: string): Option<int> {
    var fields := Split(gmtOffset, ':');
    if |fields| != 3 then None
    else
      match (ParseInt(fields[0]), ParseInt(fields[1]), ParseInt(fields[2]))
      case (Some(h), Some(m), Some(_)) => Some(h * 3600 + m * 60)
      case _ => None
  }

  /**
   * `parse_start_time_with_offset`: the local start (already in seconds)
   * minus the offset; None when the offset raises ValueError.
   */
  function StartInstant(startLocal: int, gmtOffset: string): Option<int> {
    match OffsetSeconds(gmtOffset)
    case None => None
    case Some(off) => Some(startLocal - off)
  }

  /** Show never prints the field separator. */
  lemma ShowHasNoColon(n: int)
    ensures ':' !in Show(n)
  {
    if n < 0 {
      assert Show(n) == "-" + NatDigits(-n);
    }
  }

  /** An offset made of three fields splits back into exactly those fields. */
  lemma SplitThree(a: string, b: string, c: string)
    requires ':' !in a && ':' !in b && ':' !in c
    ensures Split(a + ":" + b + ":" + c, ':') == [a, b, c]
  {
    assert a + ":" + b + ":" + c == a + [':'] + (b + [':'] + c);
    SplitField(a, ':', b + [':'] + c);
    SplitField(b, ':', c);
    SplitNoSep(c, ':');
  }

  /** What the offset of three fields is, in terms of `int()` of each field. */
  lemma OffsetOfThree(a: string, b: string, c: string)
    requires ':' !in a && ':' !in b && ':' !in c
    ensures OffsetSeconds(a + ":" + b + ":" + c)
            == if ParseInt(a).Some? && ParseInt(b).Some? && ParseInt(c).Some?
               then Some(ParseInt(a).value * 3600 + ParseInt(b).value * 60)
               else None
  {
    SplitThree(a, b, c);
  }

  /**
   * An offset built from three integers applies the hours and the minutes
   * and nothing of the seconds: start - (h * 3600 + m * 60) for every s.
   */
  lemma StartFromFields(startLocal: int, h: int, m: int, s: int)
    ensures StartInstant(startLocal, Show(h) + ":" + Show(m) + ":" + Show(s))
            == Some(startLocal - (h * 3600 + m * 60))
  {
    ShowHasNoColon(h);
    ShowHasNoColon(m);
    ShowHasNoColon(s);
    ParseShow(h);
    ParseShow(m);
    ParseShow(s);
    OffsetOfThree(Show(h), Show(m), Show(s));
  }

  /**
   * The seconds field is parsed but has no effect: two offsets that differ
   * only in an integer seconds field give the same instant.
   */
  lemma SecondsIgnored(startLocal: int, h: string, m: string, s1: string, s2: string)
    requires ':' !in h && ':' !in m && ':' !in s1 && ':' !in s2
    requires ParseInt(s1).Some? && ParseInt(s2).Some?
    ensures StartInstant(startLocal, h + ":" + m + ":" + s1)
            == StartInstant(startLocal, h + ":" + m + ":" + s2)
  {
    OffsetOfThree(h, m, s1);
    OffsetOfThree(h, m, s2);
  }

  /** An offset that does not have exactly two ':' always raises ValueError. */
  lemma NeedsThreeFields(startLocal: int, gmtOffset: string)
    requires Count(gmtOffset, ':') != 2
    ensures StartInstant(startLocal, gmtOffset) == None
  {
    SplitJoin(gmtOffset, ':');
  }

  lemma TwoDigits(s: string)
    requires |s| == 2 && AllDigits(s)
    ensures DigitsValue(s) == DigitValue(s[0]) * 10 + DigitValue(s[1])
  {
    var p := s[..1];
    assert p[..0] == [] && p[0] == s[0];
    assert DigitsValue(p) == DigitValue(s[0]);
    assert s[..|s| - 1] == p;
  }

  /**
   * A worked example: 14:00 local with offset
   * "02:00:00" is 12:00 UTC, two hours earlier.
   */
  lemma TwoHourOffset(startLocal: int)
    ensures StartInstant(startLocal, "02:00:00") == Some(startLocal - 7200)
  {
    assert "02:00:00" == "02" + ":" + "00" + ":" + "00";
    TwoDigits("02");
    TwoDigits("00");
    assert ParseInt("02") == Some(2);
    assert ParseInt("00") == Some(0);
    OffsetOfThree("02", "00", "00");
    assert OffsetSeconds("02:00:00") == Some(7200);
  }

  /**
   * A negative offset keeps the sign on the hours only: the minutes field is
   * added with its own sign, so "-05:30:00" is -5 h + 30 min (-16200 s), not
   * -5 h 30 min.
   */
  lemma NegativeOffsetMinutes(startLocal: int)
    ensures StartInstant(startLocal, "-05:30:00") == Some(startLocal + 16200)
  {
    assert "-05:30:00" == "-05" + ":" + "30" + ":" + "00";
    assert "-05"[1..] == "05";
    TwoDigits("05");
    TwoDigits("30");
    TwoDigits("00");
    assert ParseInt("-05") == Some(-5);
    assert ParseInt("30") == Some(30);
    assert ParseInt("00") == Some(0);
    OffsetOfThree("-05", "30", "00");
    assert OffsetSeconds("-05:30:00") == Some(-16200);
  }
}
