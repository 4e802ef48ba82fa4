/**
 * A decoded JSON document as the line decoder of main.py walks it: the
 * values `json.loads` produces and the three ways the decoder touches them
 * (`dict.get` with a default, `for x in v`, and `dict.items()`).
 */
module JsonValue {
  import opened Wrappers

  /** JSON `null` is Python's `None`, so it also stands for a missing `.get`. */
  datatype Json =
    | JNull
    | JBool(b: bool)
    | JNum(n: int)
    | JStr(s: string)
    | JArr(items: seq<Json>)
    | JObj(members: seq<Member>)

  /** One member of an object, in document order. */
  datatype Member = Member(key: string, value: Json)

  /** The value of the first member named k, None when there is none. */
  function Lookup(ms: seq<Member>, k: string): Option<Json> {
    if ms == [] then None
    else if ms[0].key == k then Some(ms[0].value)
    else Lookup(ms[1..], k)
  }

  /** A lookup fails exactly when no member has the key, and succeeds with the value of a member that has it. */
  lemma {:induction false} LookupMeaning(ms: seq<Member>, k: string)
    ensures Lookup(ms, k).None? <==> forall i :: 0 <= i < |ms| ==> ms[i].key != k
    ensures Lookup(ms, k).Some? ==> Member(k, Lookup(ms, k).value) in ms
  {
    if ms != [] && ms[0].key != k {
      LookupMeaning(ms[1..], k);
      assert forall i :: 1 <= i < |ms| ==> ms[i] == ms[1..][i - 1];
    }
  }

  /** `d.get(k, default)` on a dict with members ms. */
  function GetOr(ms: seq<Member>, k: string, default: Json): Json {
    match Lookup(ms, k)
    case None => default
    case Some(v) => v
  }

  /**
   * `for x in v`: a list yields its items, a dict its keys, a string its
   * one-character strings; anything else raises TypeError (None here).
   */
  function Iterate(v: Json): Option<seq<Json>> {
    match v
    case JArr(items) => Some(items)
    case JObj(ms) => Some(seq(|ms|, i requires 0 <= i < |ms| => JStr(ms[i].key)))
    case JStr(s) => Some(seq(|s|, i requires 0 <= i < |s| => JStr([s[i]])))
    case _ => None
  }

  /** `v.items()`: the members of a dict; anything else raises AttributeError (None here). */
  function Items(v: Json): Option<seq<Member>> {
    if v.JObj? then Some(v.members) else None
  }

  /** Members with distinct keys, as in every dict `json.loads` builds. */
  predicate DistinctKeys(ms: seq<Member>) {
    forall i, j :: 0 <= i < j < |ms| ==> ms[i].key != ms[j].key
  }

  /** With distinct keys, looking up a member's own key finds that member's value. */
  lemma {:induction false} LookupOwnKey(ms: seq<Member>, i: nat)
    requires i < |ms| && DistinctKeys(ms)
    ensures Lookup(ms, ms[i].key) == Some(ms[i].value)
  {
    if i > 0 {
      assert ms[0].key != ms[i].key;
      assert ms[1..][i - 1] == ms[i];
      LookupOwnKey(ms[1..], i - 1);
    }
  }
}
