/**
 * Shared vocabulary: optional values, outcomes that may carry a raised
 * exception, the JSON-like values stored in the minion data cache, and the
 * handful of Python string operations the matcher code relies on
 * (`str.split()`, `str.split(sep)`, `sep.join(...)`, substring tests).
 */
module Common {

  datatype Option<+T> = None | Some(value: T)

  /** The result of a Python call that either returns a value or raises. */
  datatype Outcome<+T> = Ok(value: T) | Raised

  /** Cached grains/pillar data, as the cache backends hand it back. */
  datatype Json =
    | JNull
    | JBool(b: bool)
    | JNum(n: int)
    | JStr(s: string)
    | JArr(items: seq<Json>)
    | JObj(fields: map<string, Json>)

  /** `d.get(key)` on a value that should be a dict; anything else gives None. */
  function Get(d: Json, key: string): (r: Json)
    ensures r != JNull ==> d.JObj? && key in d.fields
  {
    if d.JObj? && key in d.fields then d.fields[key] else JNull
  }

  // ---------------------------------------------------------------------
  // Whitespace splitting, as Python's `str.split()` with no argument does it
  // ---------------------------------------------------------------------

  /** The characters `str.split()` treats as separators. */
  predicate IsSpace(c: char)
  {
    ('\t' <= c <= '\r') || ('\U{1C}' <= c <= ' ') ||
    c == '\U{85}' || c == '\U{A0}' || c == '\U{1680}' ||
    ('\U{2000}' <= c <= '\U{200A}') || c == '\U{2028}' || c == '\U{2029}' ||
    c == '\U{202F}' || c == '\U{205F}' || c == '\U{3000}'
  }

  predicate NoSpace(w: string)
  {
    forall i | 0 <= i < |w| :: !IsSpace(w[i])
  }

  /** Length of the run of non-space characters that starts `s`. */
  function WordLen(s: string): (k: nat)
    requires s != [] && !IsSpace(s[0])
    ensures 0 < k <= |s| && NoSpace(s[..k]) && (k == |s| || IsSpace(s[k]))
  {
    if |s| == 1 || IsSpace(s[1]) then 1
    else
      var k := 1 + WordLen(s[1..]);
      assert s[..k] == [s[0]] + s[1..][..k - 1];
      k
  }

  /** `s.split()`: the maximal runs of non-space characters, in order. */
  function Split(s: string): (ws: seq<string>)
    ensures forall w | w in ws :: w != [] && NoSpace(w)
    decreases |s|
  {
    if s == [] then []
    else if IsSpace(s[0]) then Split(s[1..])
    else
      var k := WordLen(s);
      [s[..k]] + Split(s[k..])
  }

  // ---------------------------------------------------------------------
  // Splitting on one separator character and joining with a separator
  // ---------------------------------------------------------------------

  /** `sep.join(ws)`. */
  function Join(sep: string, ws: seq<string>): string
  {
    if |ws| == 0 then []
    else if |ws| == 1 then ws[0]
    else ws[0] + sep + Join(sep, ws[1..])
  }

  /** Index of the first occurrence of `d` in `s`. */
  function IndexOf(s: string, d: char): (i: nat)
    requires d in s
    ensures i < |s| && s[i] == d && d !in s[..i]
  {
    if s[0] == d then 0
    else
      var i := 1 + IndexOf(s[1..], d);
      assert s[..i] == [s[0]] + s[1..][..i - 1];
      i
  }

  /** `s.split(d)` for a one-character separator: empty parts are kept. */
  function SplitOn(s: string, d: char): (parts: seq<string>)
    ensures |parts| >= 1
    ensures forall p | p in parts :: d !in p
    decreases |s|
  {
    if d !in s then [s]
    else
      var i := IndexOf(s, d);
      [s[..i]] + SplitOn(s[i + 1..], d)
  }

  /** Joining the parts of a split with the separator gives back the string. */
  lemma {:induction false} JoinSplitOn(s: string, d: char)
    ensures Join([d], SplitOn(s, d)) == s
    decreases |s|
  {
    if d in s {
      var i := IndexOf(s, d);
      var rest := SplitOn(s[i + 1..], d);
      JoinSplitOn(s[i + 1..], d);
      var parts := [s[..i]] + rest;
      assert SplitOn(s, d) == parts;
      assert |parts| >= 2 && parts[0] == s[..i] && parts[1..] == rest;
      assert Join([d], parts) == s[..i] + [d] + s[i + 1..];
      assert s == s[..i] + [d] + s[i + 1..];
    }
  }

  /** Splitting a join recovers the parts, provided no part holds the separator. */
  lemma {:induction false} SplitOnJoin(parts: seq<string>, d: char)
    requires |parts| >= 1
    requires forall p | p in parts :: d !in p
    ensures SplitOn(Join([d], parts), d) == parts
  {
    if |parts| > 1 {
      var tail := parts[1..];
      SplitOnJoin(tail, d);
      var s := Join([d], parts);
      assert s == parts[0] + [d] + Join([d], tail);
      assert s[|parts[0]|] == d;
      assert s[..|parts[0]|] == parts[0];
      assert d in s;
      assert parts[0] in parts;
      var i := IndexOf(s, d);
      assert i == |parts[0]|;
      assert s[i + 1..] == Join([d], tail);
    } else {
      assert Join([d], parts) == parts[0];
    }
  }

  /** Splitting on spaces undoes a join with a single space. */
  lemma {:induction false} SplitJoinSpace(ws: seq<string>)
    requires forall w | w in ws :: w != [] && NoSpace(w)
    ensures Split(Join(" ", ws)) == ws
  {
    if |ws| == 1 {
      assert ws[0] in ws;
      SplitWord(ws[0], []);
      assert ws[0] + [] == ws[0];
    } else if |ws| > 1 {
      var tail := ws[1..];
      assert forall w | w in tail :: w in ws;
      assert ws[0] in ws;
      SplitJoinSpace(tail);
      var rest := " " + Join(" ", tail);
      assert Join(" ", ws) == ws[0] + rest;
      SplitWord(ws[0], rest);
      assert Split(rest) == Split(Join(" ", tail)) by {
        assert rest[0] == ' ' && rest[1..] == Join(" ", tail);
      }
    }
  }

  /** A word followed by either nothing or a space splits off as one word. */
  lemma SplitWord(w: string, rest: string)
    requires w != [] && NoSpace(w)
    requires rest == [] || IsSpace(rest[0])
    ensures Split(w + rest) == [w] + Split(rest)
  {
    var s := w + rest;
    assert s[0] == w[0];
    var k := WordLen(s);
    assert forall i | 0 <= i < |w| :: !IsSpace(s[i]) by {
      forall i | 0 <= i < |w| ensures s[i] == w[i] { }
    }
    assert |w| < |s| ==> IsSpace(s[|w|]);
    assert k == |w|;
    assert s[..k] == w && s[k..] == rest;
  }

  // ---------------------------------------------------------------------
  // Substrings
  // ---------------------------------------------------------------------

  predicate StartsWith(s: string, prefix: string)
  {
    |prefix| <= |s| && s[..|prefix|] == prefix
  }

  /** `sub in s` on Python strings. */
  predicate Contains(s: string, sub: string)
    decreases |s|
  {
    StartsWith(s, sub) || (|s| > 0 && Contains(s[1..], sub))
  }

  predicate EndsWith(s: string, suffix: string)
  {
    |suffix| <= |s| && s[|s| - |suffix|..] == suffix
  }

  /** `s.rstrip(c)`. */
  function RStrip(s: string, c: char): (r: string)
    ensures StartsWith(s, r)
    ensures r == [] || r[|r| - 1] != c
    ensures forall i | |r| <= i < |s| :: s[i] == c
  {
    if s == [] || s[|s| - 1] != c then s
    else
      var r := RStrip(s[..|s| - 1], c);
      assert s[..|r|] == s[..|s| - 1][..|r|];
      r
  }
}
