/**
 * Target expressions of the form `[ENGINE[DELIM]@]pattern`.
 *
 * The source recognises them with one regular expression, matched from the
 * start of the string:
 *   ((?P<engine>G|P|I|J|L|N|S|E|R)(?P<delimiter>(?<=G|P|I|J).)?@)?(?P<pattern>.+)$
 * Here the same recognition is written out by hand, alternative by
 * alternative in the order the regex engine tries them, so that Python's
 * `.` (any character but a newline) and `$` (end of string, or just before
 * a final newline) are reproduced exactly.
 */
module Targets {
  import opened Common

  /** The nine engine letters the regex accepts. */
  datatype Engine = G | P | I | J | L | N | S | E | R

  function EngineOf(c: char): (e: Option<Engine>)
    ensures e.Some? ==> Letter(e.value) == c
  {
    match c
    case 'G' => Some(G)
    case 'P' => Some(P)
    case 'I' => Some(I)
    case 'J' => Some(J)
    case 'L' => Some(L)
    case 'N' => Some(N)
    case 'S' => Some(S)
    case 'E' => Some(E)
    case 'R' => Some(R)
    case _ => None
  }

  function Letter(e: Engine): char
  {
    match e
    case G => 'G' case P => 'P' case I => 'I' case J => 'J' case L => 'L'
    case N => 'N' case S => 'S' case E => 'E' case R => 'R'
  }

  /** The look-behind `(?<=G|P|I|J)`: only these engines take a delimiter. */
  predicate TakesDelimiter(e: Engine)
  {
    e == G || e == P || e == I || e == J
  }

  /** The dict `parse_target` returns; `None` entries are the regex's unmatched groups. */
  datatype Target = Target(engine: Option<Engine>, delimiter: Option<char>, pattern: string)

  /**
   * `(?P<pattern>.+)$` tried on the rest of the input: one or more
   * non-newline characters, then the end of the string or a final newline.
   * The captured group excludes that newline.
   */
  function PatternOf(rest: string): (p: Option<string>)
    ensures p.Some? ==> p.value != [] && '\n' !in p.value
    ensures p.Some? ==> p.value == rest || p.value + "\n" == rest
  {
    if rest != [] && '\n' !in rest then Some(rest)
    else if |rest| >= 2 && rest[|rest| - 1] == '\n' && '\n' !in rest[..|rest| - 1] then
      Some(rest[..|rest| - 1])
    else None
  }

  /** `parse_target`: a failed match gives engine and delimiter None and the whole input as pattern. */
  function ParseTarget(s: string): (t: Target)
    ensures t.engine.None? ==> t.delimiter.None? && (t.pattern == s || t.pattern + "\n" == s)
    ensures t.engine.Some? ==>
              |s| >= 3 && EngineOf(s[0]) == t.engine && t.pattern != [] && '\n' !in t.pattern
    ensures t.delimiter.Some? ==>
              t.engine.Some? && TakesDelimiter(t.engine.value) &&
              s[1] == t.delimiter.value && s[1] != '\n' && s[2] == '@'
    ensures t.engine.Some? && t.delimiter.None? ==> s[1] == '@'
  {
    var e := if s != [] then EngineOf(s[0]) else None;
    if |s| >= 2 && e.Some? then
      if TakesDelimiter(e.value) && |s| >= 3 && s[1] != '\n' && s[2] == '@' && PatternOf(s[3..]).Some? then
        Target(e, Some(s[1]), PatternOf(s[3..]).value)
      else if s[1] == '@' && PatternOf(s[2..]).Some? then
        Target(e, None, PatternOf(s[2..]).value)
      else Unprefixed(s)
    else Unprefixed(s)
  }

  /** The alternative without the optional engine group, and the no-match fallback. */
  function Unprefixed(s: string): Target
  {
    var p := PatternOf(s);
    Target(None, None, if p.Some? then p.value else s)
  }

  /** Writes a target back in `[ENGINE[DELIM]@]pattern` form. */
  function Render(t: Target): string
  {
    match t.engine
    case None => t.pattern
    case Some(e) =>
      [Letter(e)] + (if t.delimiter.Some? then [t.delimiter.value] else []) + "@" + t.pattern
  }

  /**
   * When the regex cannot match at all (the empty string, a newline before
   * the last character, or a lone newline) the whole input is the pattern
   * and both engine and delimiter are None.
   */
  lemma NoMatchFallback(s: string)
    requires PatternOf(s).None?
    ensures ParseTarget(s) == Target(None, None, s)
  {
    if |s| >= 3 && EngineOf(s[0]).Some? && s[1] != '\n' && s[2] == '@' && PatternOf(s[3..]).Some? {
      SuffixPattern(s, 3);
    }
    if |s| >= 2 && EngineOf(s[0]).Some? && s[1] == '@' && PatternOf(s[2..]).Some? {
      SuffixPattern(s, 2);
    }
  }

  /** If a suffix matches `.+$` and the prefix has no newline, the whole string matches too. */
  lemma SuffixPattern(s: string, k: nat)
    requires 1 <= k <= |s| && forall i | 0 <= i < k :: s[i] != '\n'
    requires PatternOf(s[k..]).Some?
    ensures PatternOf(s).Some?
  {
    var rest := s[k..];
    assert s == s[..k] + rest;
    assert '\n' !in s[..k];
    if '\n' in rest {
      assert rest[|rest| - 1] == '\n' && '\n' !in rest[..|rest| - 1];
      assert s[..|s| - 1] == s[..k] + rest[..|rest| - 1];
    }
  }

  /** Printing a parsed target gives back the input, for input without newlines. */
  lemma RenderParse(s: string)
    requires '\n' !in s
    ensures Render(ParseTarget(s)) == s
  {
    var t := ParseTarget(s);
    if t.engine.Some? {
      if t.delimiter.Some? {
        assert s == [s[0]] + [s[1]] + "@" + s[3..];
      } else {
        assert s == [s[0]] + "@" + s[2..];
      }
    }
  }

  /**
   * A prefixed target whose pattern has no newline parses back from its
   * printed form, unless it is the one ambiguous shape: a delimiter-taking
   * engine with no delimiter and a pattern that itself starts with `@`
   * (`G@@x` reads as engine G with delimiter `@`).
   */
  lemma ParseRender(t: Target)
    requires t.engine.Some? && t.pattern != [] && '\n' !in t.pattern
    requires t.delimiter.Some? ==> TakesDelimiter(t.engine.value) && t.delimiter.value != '\n'
    requires t.delimiter.None? && TakesDelimiter(t.engine.value) ==> |t.pattern| < 2 || t.pattern[0] != '@'
    ensures ParseTarget(Render(t)) == t
  {
    var s := Render(t);
    var e := t.engine.value;
    assert EngineOf(s[0]) == Some(e) by {
      match e
      case G => case P => case I => case J => case L => case N => case S => case E => case R =>
    }
    if t.delimiter.Some? {
      assert s[3..] == t.pattern;
    } else {
      assert s[2..] == t.pattern;
      if TakesDelimiter(e) && |s| >= 3 && s[2] == '@' {
        assert t.pattern[0] == '@';
        assert PatternOf(s[3..]).None? by {
          assert s[3..] == t.pattern[1..];
        }
      }
    }
  }

  /** Two inputs without an engine prefix: a plain glob, and `L@` with nothing after the `@`. */
  lemma ParseUnprefixedExamples()
    ensures ParseTarget("foo*") == Target(None, None, "foo*")
    ensures ParseTarget("L@") == Target(None, None, "L@")
  {
  }

  /** An engine-prefixed target without a delimiter, as the documentation gives it. */
  lemma ParseGrainExample()
    ensures ParseTarget("G@os:Debian") == Target(Some(G), None, "os:Debian")
  {
    var s := "G@os:Debian";
    var rest := s[2..];
    assert rest == "os:Debian";
    assert '\n' !in rest by {
      assert forall i | 0 <= i < |rest| :: rest[i] != '\n';
    }
    assert PatternOf(rest) == Some(rest);
    assert s[2] != '@';
  }

  /** An engine-prefixed target with its own delimiter before the `@`. */
  lemma ParseDelimitedExample()
    ensures ParseTarget("G|@os|Debian") == Target(Some(G), Some('|'), "os|Debian")
  {
    var s := "G|@os|Debian";
    var rest := s[3..];
    assert rest == "os|Debian";
    assert '\n' !in rest by {
      assert forall i | 0 <= i < |rest| :: rest[i] != '\n';
    }
    assert PatternOf(rest) == Some(rest);
    assert s[1] == '|' && s[2] == '@';
  }
}
