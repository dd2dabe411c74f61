/** The parts of PHP's runtime behaviour the plugin depends on: truthiness of
    string-or-null values, the null-to-string conversion, `stristr` and
    `str_replace`. */
module Php {

  datatype Option<+T> = None | Some(value: T)

  /** PHP truthiness of a value that is a string or null (or `false`, which
      the model writes as None): null, "" and "0" are falsy. */
  predicate Truthy(v: Option<string>) {
    v.Some? && v.value != "" && v.value != "0"
  }

  /** `(string)$v` for a string-or-null value. It is also the key PHP uses
      for `$a[$v]`, since a null key is the empty string. */
  function ToStr(v: Option<string>): string {
    if v.Some? then v.value else ""
  }

  /** `$m[$k] ?? null`. */
  function Lookup<K(==), V>(m: map<K, V>, k: K): (r: Option<V>)
    ensures r.Some? <==> k in m
    ensures r.Some? ==> r.value == m[k]
  {
    if k in m then Some(m[k]) else None
  }

  // ---------------------------------------------------------------------
  // stristr: ASCII case-insensitive search that returns the rest of the
  // haystack from the first match, or false.
  // ---------------------------------------------------------------------

  function LowerChar(c: char): char {
    if 'A' <= c <= 'Z' then (c as int + 32) as char else c
  }

  /** The needle occurs at position i of the haystack, ignoring ASCII case. */
  predicate MatchesAtCI(h: string, n: string, i: nat) {
    i + |n| <= |h| && forall k :: 0 <= k < |n| ==> LowerChar(h[i + k]) == LowerChar(n[k])
  }

  predicate ContainsCI(h: string, n: string) {
    exists i: nat :: i + |n| <= |h| && MatchesAtCI(h, n, i)
  }

  function FirstMatchCI(h: string, n: string, from: nat): Option<nat>
    decreases |h| - from
  {
    if from + |n| > |h| then None
    else if MatchesAtCI(h, n, from) then Some(from)
    else FirstMatchCI(h, n, from + 1)
  }

  /** `stristr($h, $n)`: None stands for PHP's `false`. An empty needle
      matches at position 0, as in PHP 8. */
  function Stristr(h: string, n: string): Option<string> {
    match FirstMatchCI(h, n, 0)
    case None => None
    case Some(i) => if i <= |h| then Some(h[i..]) else None
  }

  /** FirstMatchCI finds the first case-insensitive match at or after from:
      the position is a match and none comes before it. */
  lemma {:induction false} FirstMatchCISpec(h: string, n: string, from: nat)
    ensures FirstMatchCI(h, n, from).Some? ==>
              from <= FirstMatchCI(h, n, from).value
              && MatchesAtCI(h, n, FirstMatchCI(h, n, from).value)
    ensures FirstMatchCI(h, n, from).Some? ==>
              forall i: nat :: from <= i < FirstMatchCI(h, n, from).value ==> !MatchesAtCI(h, n, i)
    ensures FirstMatchCI(h, n, from).None? ==>
              forall i: nat :: from <= i ==> !MatchesAtCI(h, n, i)
    decreases |h| - from
  {
    if from + |n| > |h| {
    } else if MatchesAtCI(h, n, from) {
    } else {
      FirstMatchCISpec(h, n, from + 1);
      forall i: nat | from <= i && (FirstMatchCI(h, n, from).None? || i < FirstMatchCI(h, n, from).value)
        ensures !MatchesAtCI(h, n, i)
      {
        if i != from {
          assert from + 1 <= i;
        }
      }
    }
  }

  /** The condition `if (stristr($h, $n))` holds exactly when the needle
      occurs in the haystack ignoring ASCII case, for a needle of at least
      two characters: the returned suffix starts with a match, so it can be
      neither "" nor "0". */
  lemma StristrTruthy(h: string, n: string)
    requires |n| >= 2
    ensures Truthy(Stristr(h, n)) <==> ContainsCI(h, n)
  {
    FirstMatchCISpec(h, n, 0);
    match FirstMatchCI(h, n, 0)
    case None =>
    case Some(i) =>
      assert MatchesAtCI(h, n, i);
      assert |h[i..]| >= 2;
  }

  // ---------------------------------------------------------------------
  // str_replace: every non-overlapping occurrence, leftmost first; the
  // inserted text is never scanned again.
  // ---------------------------------------------------------------------

  /** `str_replace($search, $replace, $subject)`. An empty search leaves the
      subject unchanged, as in PHP. */
  function StrReplace(search: string, replace: string, subject: string): string
    decreases |subject|
  {
    if |search| == 0 || |subject| < |search| then subject
    else if subject[..|search|] == search then
      replace + StrReplace(search, replace, subject[|search|..])
    else
      [subject[0]] + StrReplace(search, replace, subject[1..])
  }

  /** `explode($sep, $s)`: the pieces between the occurrences of sep. */
  function Explode(sep: string, s: string): (parts: seq<string>)
    requires |sep| > 0
    ensures |parts| >= 1
    decreases |s|
  {
    if |s| < |sep| then [s]
    else if s[..|sep|] == sep then [""] + Explode(sep, s[|sep|..])
    else
      var rest := Explode(sep, s[1..]);
      [[s[0]] + rest[0]] + rest[1..]
  }

  /** `implode($glue, $parts)`. */
  function Implode(glue: string, parts: seq<string>): string
    requires |parts| >= 1
  {
    if |parts| == 1 then parts[0] else parts[0] + glue + Implode(glue, parts[1..])
  }

  lemma {:induction false} ImplodeConsHead(glue: string, c: string, parts: seq<string>)
    requires |parts| >= 1
    ensures Implode(glue, [c + parts[0]] + parts[1..]) == c + Implode(glue, parts)
  {
    var ps := [c + parts[0]] + parts[1..];
    if |parts| > 1 {
      assert ps[1..] == parts[1..];
    }
  }

  /** str_replace agrees with its independent reference definition:
      replacing is exploding on the search string and imploding with the
      replacement. */
  lemma {:induction false} ReplaceIsImplodeExplode(search: string, replace: string, subject: string)
    requires |search| > 0
    ensures StrReplace(search, replace, subject) == Implode(replace, Explode(search, subject))
    decreases |subject|
  {
    if |subject| < |search| {
    } else if subject[..|search|] == search {
      var tail := subject[|search|..];
      ReplaceIsImplodeExplode(search, replace, tail);
      var parts := [""] + Explode(search, tail);
      assert parts[1..] == Explode(search, tail);
      assert Implode(replace, parts) == "" + replace + Implode(replace, Explode(search, tail));
    } else {
      ReplaceIsImplodeExplode(search, replace, subject[1..]);
      ImplodeConsHead(replace, [subject[0]], Explode(search, subject[1..]));
    }
  }

  /** Replacing a string with itself changes nothing. */
  lemma {:induction false} ReplaceWithItself(search: string, subject: string)
    ensures StrReplace(search, search, subject) == subject
    decreases |subject|
  {
    if |search| == 0 || |subject| < |search| {
    } else if subject[..|search|] == search {
      ReplaceWithItself(search, subject[|search|..]);
      assert subject[..|search|] + subject[|search|..] == subject;
    } else {
      ReplaceWithItself(search, subject[1..]);
      assert [subject[0]] + subject[1..] == subject;
    }
  }

  /** Exploding and imploding with the same separator is the identity. */
  lemma ImplodeExplodeRoundTrip(sep: string, s: string)
    requires |sep| > 0
    ensures Implode(sep, Explode(sep, s)) == s
  {
    ReplaceIsImplodeExplode(sep, sep, s);
    ReplaceWithItself(sep, s);
  }

  /** The search string occurs at position i of s. */
  predicate OccursAt(search: string, s: string, i: nat) {
    i + |search| <= |s| && s[i..i + |search|] == search
  }

  /** A subject in which the search string does not occur is returned
      unchanged. */
  lemma {:induction false} ReplaceAbsent(search: string, replace: string, subject: string)
    requires forall i: nat :: !OccursAt(search, subject, i)
    ensures StrReplace(search, replace, subject) == subject
    decreases |subject|
  {
    if |search| == 0 || |subject| < |search| {
    } else {
      assert !OccursAt(search, subject, 0);
      var tail := subject[1..];
      forall i: nat ensures !OccursAt(search, tail, i) {
        if OccursAt(search, tail, i) {
          assert tail[i..i + |search|] == subject[i + 1..i + 1 + |search|];
          assert OccursAt(search, subject, i + 1);
        }
      }
      ReplaceAbsent(search, replace, tail);
      assert [subject[0]] + tail == subject;
    }
  }

  /** An occurrence at the front is replaced, and the scan resumes after it
      without looking at the inserted text. */
  lemma ReplaceAtFront(search: string, replace: string, rest: string)
    requires |search| > 0
    ensures StrReplace(search, replace, search + rest)
            == replace + StrReplace(search, replace, rest)
  {
    var s := search + rest;
    assert s[..|search|] == search;
    assert s[|search|..] == rest;
  }
}
