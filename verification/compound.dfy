/**
 * The compound matcher (`_check_compound_minions`).
 *
 * The words of a compound target are scanned left to right into a stream
 * of set-expression tokens: each leaf target becomes the set of ids its
 * matcher returns, `and`/`or` become `&`/`|`, `not` opens a parenthesised
 * difference from the set of all known ids, and nested nodegroups are
 * expanded in place. The stream is closed and then evaluated with Python's
 * operator precedence (see `SetExprs`).
 */
module Compound {
  import opened Common
  import opened Targets
  import opened Nodegroups
  import opened Directory
  import opened PgJsonb
  import opened Matchers
  import opened SetExprs

  /** The target as the caller hands it over. */
  datatype CompoundExpr =
    | CText(text: string)      // a string, split on whitespace
    | CWords(ws: seq<string>)  // a list of words
    | COther                   // neither: matches nothing

  /** What is waiting to be closed: an explicit `(`, or the `(` a `not` opened. */
  datatype Pend = PParen | PNot

  datatype State = State(results: seq<Tok>, unmatched: seq<Pend>, missing: seq<string>)

  /** How a scan ends: with a token stream, refused for a malformed expression, or with an exception. */
  datatype Scanned = Done(st: State) | Refused | Failed

  // ---------------------------------------------------------------------
  // Termination of in-place nodegroup expansion
  // ---------------------------------------------------------------------

  function RefCount(ws: seq<string>): nat
  {
    if ws == [] then 0 else (if IsRef(ws[0]) then 1 else 0) + RefCount(ws[1..])
  }

  lemma {:induction false} RefCountAppend(a: seq<string>, b: seq<string>)
    requires NoRefs(a)
    ensures RefCount(a + b) == RefCount(b)
    decreases |a|
  {
    if a == [] {
      assert a + b == b;
    } else {
      assert a[0] in a;
      assert forall w | w in a[1..] :: w in a;
      RefCountAppend(a[1..], b);
      assert (a + b)[0] == a[0];
      assert (a + b)[1..] == a[1..] + b;
      assert RefCount(a + b) == RefCount(a[1..] + b);
    }
  }

  /** Only a nested-nodegroup word parses with engine `N`. */
  lemma NodegroupWordIsRef(w: string)
    requires ParseTarget(w).engine == Some(N)
    ensures IsRef(w)
  {
    assert Letter(N) == 'N';
  }

  // ---------------------------------------------------------------------
  // The scan, as a specification
  // ---------------------------------------------------------------------

  /** After a set is appended: if a `not` is waiting, its parenthesis is closed. */
  function CloseNot(st: State): (r: State)
    ensures r.missing == st.missing
  {
    if st.unmatched != [] && st.unmatched[|st.unmatched| - 1] == PNot then
      State(st.results + [TClose], st.unmatched[..|st.unmatched| - 1], st.missing)
    else st
  }

  /** One operator word; None when the expression is refused. */
  function OperStep(st: State, word: string, all: set<string>): (r: Option<State>)
    requires IsOper(word)
    ensures r.Some? ==> r.value.missing == st.missing
  {
    var rs := st.results;
    var un := st.unmatched;
    if rs != [] then
      var last := rs[|rs| - 1];
      if last == TOpen && (word == "and" || word == "or") then None
      else if word == "not" then
        var glue := if last == TAnd || last == TOr || last == TOpen then [] else [TAnd];
        Some(State(rs + glue + [TOpen, TSet(all), TMinus], un + [PNot], st.missing))
      else if word == "and" then Some(State(rs + [TAnd], un, st.missing))
      else if word == "or" then Some(State(rs + [TOr], un, st.missing))
      else if word == "(" then Some(State(rs + [TOpen], un + [PParen], st.missing))
      else if un == [] || un[|un| - 1] != PParen then None
      else Some(CloseNot(State(rs + [TClose], un[..|un| - 1], st.missing)))
    else if word == "not" then Some(State([TOpen, TSet(all), TMinus], un + [PNot], st.missing))
    else if word == "(" then Some(State([TOpen], un + [PParen], st.missing))
    else None
  }

  /** The matcher an engine letter calls; `R` is called with one argument too many and raises. */
  function EngineMatch(env: Env, e: Engine, pattern: string, delim: Option<char>, greedy: bool, pillarExact: bool)
    : (r: Outcome<MatchResult>)
    requires e != N
    ensures e == R ==> r.Raised?
    ensures e == L ==> r == Ok(ListMinions(env, ListItems(pattern)))
  {
    var d := if delim.Some? then delim.value else ':';
    match e
    case G => CacheOutcome(env, QueryFor(Grain, pattern, d), greedy)
    case P => CacheOutcome(env, QueryFor(GrainPcre, pattern, d), greedy)
    case I => CacheOutcome(env, QueryFor(if pillarExact then PillarExact else Pillar, pattern, d), greedy)
    case J => CacheOutcome(env, QueryFor(if pillarExact then PillarExact else PillarPcre, pattern, d), greedy)
    case L => Ok(ListMinions(env, ListItems(pattern)))
    case S => Ok(MatchResult(IpcidrAnswer(env, Some(pattern), greedy), []))
    case E => PcreMinions(env, pattern)
    case R => Raised
  }

  /** Appending a leaf's ids and missing names. */
  function Push(st: State, m: MatchResult): State
  {
    CloseNot(State(st.results + [TSet(m.minions)], st.unmatched, st.missing + m.missing))
  }

  /** The scan of the remaining words from a given state. */
  function Scan(env: Env, words: seq<string>, st: State, greedy: bool, pillarExact: bool): Scanned
    decreases RefCount(words), |words|
  {
    if words == [] then Done(st)
    else
      var word := words[0];
      var rest := words[1..];
      if IsOper(word) then
        match OperStep(st, word, Pki(env))
        case None => Refused
        case Some(st') => Scan(env, rest, st', greedy, pillarExact)
      else
        var t := ParseTarget(word);
        if t.engine == Some(N) then
          NodegroupWordIsRef(word);
          var decomposed := Comp(t.pattern, env.cfg.nodegroups, {}, true);
          RefCountAppend(decomposed, rest);
          Scan(env, decomposed + rest, st, greedy, pillarExact)
        else if t.engine.Some? then
          match EngineMatch(env, t.engine.value, t.pattern, t.delimiter, greedy, pillarExact)
          case Raised => Failed
          case Ok(m) => Scan(env, rest, Push(st, m), greedy, pillarExact)
        else Scan(env, rest, Push(st, GlobMinions(env, word)), greedy, pillarExact)
  }

  function Closes(n: nat): (r: seq<Tok>)
    ensures |r| == n && forall i | 0 <= i < n :: r[i] == TClose
  {
    if n == 0 then [] else Closes(n - 1) + [TClose]
  }

  function WordsOf(expr: CompoundExpr): seq<string>
    requires !expr.COther?
  {
    if expr.CText? then Split(expr.text) else expr.ws
  }

  /**
   * The compound matcher's answer. Outside a master with the minion data
   * cache and outside a minion, every known id is returned. A refused
   * expression and one whose token stream does not evaluate match
   * nothing; an exception from a leaf matcher propagates.
   */
  function CompoundSpec(env: Env, expr: CompoundExpr, greedy: bool, pillarExact: bool): Outcome<MatchResult>
  {
    if expr.COther? then Ok(Empty)
    else if !(env.cfg.dataCache || env.cfg.role == "minion") then Ok(MatchResult(Pki(env), []))
    else
      match Scan(env, WordsOf(expr), State([], [], []), greedy, pillarExact)
      case Refused => Ok(Empty)
      case Failed => Raised
      case Done(st) =>
        match EvalTokens(st.results + Closes(|st.unmatched|))
        case None => Ok(Empty)
        case Some(ids) => Ok(MatchResult(ids, st.missing))
  }

  // ---------------------------------------------------------------------
  // The scan, as the source runs it
  // ---------------------------------------------------------------------

  /** One leaf matcher call, dispatched on the engine letter. */
  method RunLeaf(env: Env, e: Engine, pattern: string, delim: Option<char>, greedy: bool, pillarExact: bool)
    returns (r: Outcome<MatchResult>)
    requires e != N
    ensures r == EngineMatch(env, e, pattern, delim, greedy, pillarExact)
  {
    var d := if delim.Some? then delim.value else ':';
    match e
    case G => r := CheckCache(env, QueryFor(Grain, pattern, d), greedy);
    case P => r := CheckCache(env, QueryFor(GrainPcre, pattern, d), greedy);
    case I => r := CheckCache(env, QueryFor(if pillarExact then PillarExact else Pillar, pattern, d), greedy);
    case J => r := CheckCache(env, QueryFor(if pillarExact then PillarExact else PillarPcre, pattern, d), greedy);
    case L => r := Ok(ListMinions(env, ListItems(pattern)));
    case S =>
      var m := IpcidrMinions(env, Some(pattern), greedy);
      r := Ok(m);
    case E => r := PcreMinions(env, pattern);
    case R => r := Raised;
  }

  /** `_check_compound_minions` (and, with `pillarExact`, `_check_compound_pillar_exact_minions`). */
  method CompoundMinions(env: Env, expr: CompoundExpr, greedy: bool, pillarExact: bool)
    returns (r: Outcome<MatchResult>)
    ensures r == CompoundSpec(env, expr, greedy, pillarExact)
  {
    if expr.COther? {
      return Ok(Empty);
    }
    var minions := Pki(env);
    if !(env.cfg.dataCache || env.cfg.role == "minion") {
      return Ok(MatchResult(minions, []));
    }
    var scanned := RunScan(env, WordsOf(expr), greedy, pillarExact);
    match scanned {
      case Refused => return Ok(Empty);
      case Failed => return Raised;
      case Done(st) =>
        var results := st.results + Closes(|st.unmatched|);
        var ids := EvalTokens(results);
        if ids.None? {
          return Ok(Empty);
        }
        r := Ok(MatchResult(ids.value, st.missing));
    }
  }

  /** The word loop of the compound matcher: one operator, nodegroup or leaf per pass. */
  method RunScan(env: Env, words: seq<string>, greedy: bool, pillarExact: bool) returns (r: Scanned)
    ensures r == Scan(env, words, State([], [], []), greedy, pillarExact)
  {
    var minions := Pki(env);
    var words := words;
    var results: seq<Tok> := [];
    var unmatched: seq<Pend> := [];
    var missing: seq<string> := [];
    ghost var goal := Scan(env, words, State(results, unmatched, missing), greedy, pillarExact);
    while words != []
      invariant Scan(env, words, State(results, unmatched, missing), greedy, pillarExact) == goal
      decreases RefCount(words), |words|
    {
      var word := words[0];
      var rest := words[1..];
      if IsOper(word) {
        var next := OperStep(State(results, unmatched, missing), word, minions);
        if next.None? {
          return Refused;
        }
        results, unmatched := next.value.results, next.value.unmatched;
        words := rest;
      } else {
        var info := ParseTarget(word);
        if info.engine == Some(N) {
          NodegroupWordIsRef(word);
          var decomposed := NodegroupComp(info.pattern, env.cfg.nodegroups, null, true);
          RefCountAppend(decomposed, rest);
          words := decomposed + rest;
        } else {
          var res: Outcome<MatchResult>;
          if info.engine.Some? {
            res := RunLeaf(env, info.engine.value, info.pattern, info.delimiter, greedy, pillarExact);
            if res.Raised? {
              return Failed;
            }
          } else {
            res := Ok(GlobMinions(env, word));
          }
          var st := Push(State(results, unmatched, missing), res.value);
          results, unmatched, missing := st.results, st.unmatched, st.missing;
          words := rest;
        }
      }
    }
    r := Done(State(results, unmatched, missing));
  }

  // ---------------------------------------------------------------------
  // Properties
  // ---------------------------------------------------------------------

  /** Open parentheses minus closed ones. */
  function Depth(ts: seq<Tok>): int
  {
    if ts == [] then 0
    else Depth(ts[..|ts| - 1]) + (if ts[|ts| - 1] == TOpen then 1 else if ts[|ts| - 1] == TClose then -1 else 0)
  }

  lemma {:induction false} DepthAppend(a: seq<Tok>, b: seq<Tok>)
    ensures Depth(a + b) == Depth(a) + Depth(b)
    decreases |b|
  {
    if b == [] {
      assert a + b == a;
    } else {
      var b' := b[..|b| - 1];
      DepthAppend(a, b');
      assert (a + b)[|a + b| - 1] == b[|b| - 1];
      assert (a + b)[..|a + b| - 1] == a + b';
    }
  }

  lemma {:induction false} DepthCloses(n: nat)
    ensures Depth(Closes(n)) == -(n as int)
    decreases n
  {
    if n > 0 {
      DepthCloses(n - 1);
      DepthAppend(Closes(n - 1), [TClose]);
      assert Depth([TClose]) == Depth([]) - 1;
    }
  }

  predicate Balanced(st: State)
  {
    Depth(st.results) == |st.unmatched|
  }

  lemma CloseNotBalanced(st: State)
    requires Balanced(st)
    ensures Balanced(CloseNot(st))
  {
    if st.unmatched != [] && st.unmatched[|st.unmatched| - 1] == PNot {
      DepthAppend(st.results, [TClose]);
      assert Depth([TClose]) == Depth([]) - 1;
    }
  }

  lemma PushBalanced(st: State, m: MatchResult)
    requires Balanced(st)
    ensures Balanced(Push(st, m))
  {
    DepthAppend(st.results, [TSet(m.minions)]);
    assert Depth([TSet(m.minions)]) == Depth([]);
    CloseNotBalanced(State(st.results + [TSet(m.minions)], st.unmatched, st.missing + m.missing));
  }

  lemma SmallDepths(all: set<string>)
    ensures Depth([TAnd]) == 0 && Depth([TOr]) == 0
    ensures Depth([TOpen]) == 1 && Depth([TClose]) == -1
    ensures Depth([TOpen, TSet(all), TMinus]) == 1
  {
    assert [TOpen][..0] == [] && [TAnd][..0] == [] && [TOr][..0] == [] && [TClose][..0] == [];
    assert [TOpen, TSet(all)][..1] == [TOpen];
    assert [TOpen, TSet(all), TMinus][..2] == [TOpen, TSet(all)];
  }

  /** Appending tokens of known depth, and pushing that many pending entries, keeps the balance. */
  lemma AppendBalanced(st: State, ts: seq<Tok>, un: seq<Pend>)
    requires Balanced(st) && |un| == |st.unmatched| + Depth(ts)
    ensures Balanced(State(st.results + ts, un, st.missing))
  {
    DepthAppend(st.results, ts);
  }

  lemma OperBalanced(st: State, word: string, all: set<string>)
    requires IsOper(word) && Balanced(st) && OperStep(st, word, all).Some?
    ensures Balanced(OperStep(st, word, all).value)
  {
    var rs := st.results;
    var un := st.unmatched;
    var opening := [TOpen, TSet(all), TMinus];
    SmallDepths(all);
    if rs != [] {
      var last := rs[|rs| - 1];
      if word == "not" {
        var glue := if last == TAnd || last == TOr || last == TOpen then [] else [TAnd];
        assert Depth(glue) == 0;
        DepthAppend(glue, opening);
        assert rs + glue + opening == rs + (glue + opening);
        AppendBalanced(st, glue + opening, un + [PNot]);
      } else if word == "and" {
        AppendBalanced(st, [TAnd], un);
      } else if word == "or" {
        AppendBalanced(st, [TOr], un);
      } else if word == "(" {
        AppendBalanced(st, [TOpen], un + [PParen]);
      } else {
        AppendBalanced(st, [TClose], un[..|un| - 1]);
        CloseNotBalanced(State(rs + [TClose], un[..|un| - 1], st.missing));
      }
    } else if word == "not" {
      assert [] + opening == opening;
      AppendBalanced(st, opening, un + [PNot]);
    } else {
      AppendBalanced(st, [TOpen], un + [PParen]);
    }
  }

  /**
   * Every scan that finishes leaves as many `(` open as it has pending
   * entries, so the closing parentheses appended at the end balance the
   * stream exactly.
   */
  lemma {:induction false} ScanBalanced(env: Env, words: seq<string>, st: State, greedy: bool, pillarExact: bool)
    requires Balanced(st)
    requires Scan(env, words, st, greedy, pillarExact).Done?
    ensures var fin := Scan(env, words, st, greedy, pillarExact).st;
            Balanced(fin) && Depth(fin.results + Closes(|fin.unmatched|)) == 0
    decreases RefCount(words), |words|
  {
    if words == [] {
      DepthAppend(st.results, Closes(|st.unmatched|));
      DepthCloses(|st.unmatched|);
    } else {
      var word := words[0];
      var rest := words[1..];
      if IsOper(word) {
        OperBalanced(st, word, Pki(env));
        ScanBalanced(env, rest, OperStep(st, word, Pki(env)).value, greedy, pillarExact);
      } else {
        var t := ParseTarget(word);
        if t.engine == Some(N) {
          NodegroupWordIsRef(word);
          var decomposed := Comp(t.pattern, env.cfg.nodegroups, {}, true);
          RefCountAppend(decomposed, rest);
          ScanBalanced(env, decomposed + rest, st, greedy, pillarExact);
        } else if t.engine.Some? {
          var m := EngineMatch(env, t.engine.value, t.pattern, t.delimiter, greedy, pillarExact).value;
          PushBalanced(st, m);
          ScanBalanced(env, rest, Push(st, m), greedy, pillarExact);
        } else {
          PushBalanced(st, GlobMinions(env, word));
          ScanBalanced(env, rest, Push(st, GlobMinions(env, word)), greedy, pillarExact);
        }
      }
    }
  }

  /** A word that is neither an operator nor an engine target is matched as a glob. */
  predicate PlainWord(w: string)
  {
    !IsOper(w) && ParseTarget(w).engine.None?
  }

  predicate Active(env: Env)
  {
    env.cfg.dataCache || env.cfg.role == "minion"
  }

  /** `not x` is every known id outside what `x` matches. */
  lemma NotIsComplement(env: Env, w: string, greedy: bool, pillarExact: bool)
    requires Active(env) && PlainWord(w)
    ensures CompoundSpec(env, CWords(["not", w]), greedy, pillarExact) ==
              Ok(MatchResult(Pki(env) - GlobMinions(env, w).minions, []))
  {
    var st := NotScan(env, w, greedy, pillarExact);
    assert st.results + Closes(0) == st.results;
    DiffLeavesRender(Pki(env), GlobMinions(env, w).minions);
    EvalRender(Diff(Leaf(Pki(env)), Leaf(GlobMinions(env, w).minions)));
  }

  /** The scan of `not w`: the negation group is opened and closed again around the leaf. */
  lemma NotScan(env: Env, w: string, greedy: bool, pillarExact: bool) returns (st: State)
    requires PlainWord(w)
    ensures Scan(env, ["not", w], State([], [], []), greedy, pillarExact) == Done(st)
    ensures st.results == [TOpen, TSet(Pki(env)), TMinus] + [TSet(GlobMinions(env, w).minions)] + [TClose]
    ensures st.unmatched == [] && st.missing == []
  {
    var st1 := State([TOpen, TSet(Pki(env)), TMinus], [PNot], []);
    NotOpensGroup(Pki(env));
    ScanOperFirst(env, "not", [w], State([], [], []), st1, greedy, pillarExact);
    assert ["not"] + [w] == ["not", w];
    ScanLastPlain(env, w, st1, greedy, pillarExact);
    st := Push(st1, GlobMinions(env, w));
    assert [PNot][..0] == [];
  }

  /** A leading `not` opens the negation group `( all -`. */
  lemma NotOpensGroup(all: set<string>)
    ensures OperStep(State([], [], []), "not", all) == Some(State([TOpen, TSet(all), TMinus], [PNot], []))
  {
    assert [] + [PNot] == [PNot];
  }

  /** An accepted operator word: the scan moves past it. */
  lemma ScanOperFirst(env: Env, op: string, rest: seq<string>, st: State, st': State, greedy: bool, pillarExact: bool)
    requires IsOper(op) && OperStep(st, op, Pki(env)) == Some(st')
    ensures Scan(env, [op] + rest, st, greedy, pillarExact) == Scan(env, rest, st', greedy, pillarExact)
  {
    var ws := [op] + rest;
    assert ws[0] == op && ws[1..] == rest;
  }

  /** A plain word followed by an accepted operator: the scan moves past both. */
  lemma ScanPlainOper(env: Env, w: string, op: string, rest: seq<string>, st: State, st': State, greedy: bool, pillarExact: bool)
    requires PlainWord(w) && IsOper(op) && OperStep(Push(st, GlobMinions(env, w)), op, Pki(env)) == Some(st')
    ensures Scan(env, [w, op] + rest, st, greedy, pillarExact) == Scan(env, rest, st', greedy, pillarExact)
  {
    var ws := [w, op] + rest;
    assert ws[0] == w && ws[1..] == [op] + rest;
    assert ([op] + rest)[0] == op && ([op] + rest)[1..] == rest;
  }

  /** A plain word that ends the expression: its glob answer is pushed and the scan is done. */
  lemma ScanLastPlain(env: Env, w: string, st: State, greedy: bool, pillarExact: bool)
    requires PlainWord(w)
    ensures Scan(env, [w], st, greedy, pillarExact) == Done(Push(st, GlobMinions(env, w)))
  {
    assert [w][1..] == [];
  }

  /** `a or b and c`: `and` binds tighter than `or`. */
  lemma OrOfAnd(env: Env, a: string, b: string, c: string, greedy: bool, pillarExact: bool)
    requires Active(env) && PlainWord(a) && PlainWord(b) && PlainWord(c)
    ensures CompoundSpec(env, CWords([a, "or", b, "and", c]), greedy, pillarExact) ==
              Ok(MatchResult(GlobMinions(env, a).minions + (GlobMinions(env, b).minions * GlobMinions(env, c).minions), []))
  {
    var ga, gb, gc := GlobMinions(env, a).minions, GlobMinions(env, b).minions, GlobMinions(env, c).minions;
    var s5 := OrOfAndScan(env, a, b, c, greedy, pillarExact);
    FiveTokens(TSet(ga), TOr, TSet(gb), TAnd, TSet(gc));
    AndBeforeOr(ga, gb, gc);
    assert s5.results + Closes(0) == s5.results;
  }

  /** The scan of `a or b and c` leaves the five tokens in order and nothing open. */
  lemma OrOfAndScan(env: Env, a: string, b: string, c: string, greedy: bool, pillarExact: bool) returns (s5: State)
    requires PlainWord(a) && PlainWord(b) && PlainWord(c)
    ensures Scan(env, [a, "or", b, "and", c], State([], [], []), greedy, pillarExact) == Done(s5)
    ensures s5.results == [TSet(GlobMinions(env, a).minions)] + [TOr] + [TSet(GlobMinions(env, b).minions)] + [TAnd] +
                          [TSet(GlobMinions(env, c).minions)]
    ensures s5.unmatched == [] && s5.missing == []
  {
    var ga, gb, gc := GlobMinions(env, a), GlobMinions(env, b), GlobMinions(env, c);
    var s0 := State([], [], []);
    var s1 := State([TSet(ga.minions)], [], []);
    var s2 := State(s1.results + [TOr], [], []);
    var s3 := State(s2.results + [TSet(gb.minions)], [], []);
    var s4 := State(s3.results + [TAnd], [], []);
    s5 := State(s4.results + [TSet(gc.minions)], [], []);
    PushClosed(s0, ga);
    assert Push(s0, ga) == s1;
    BinaryStep(s1, "or", Pki(env));
    PushClosed(s2, gb);
    BinaryStep(s3, "and", Pki(env));
    PushClosed(s4, gc);
    ScanPlainOper(env, a, "or", [b, "and", c], s0, s2, greedy, pillarExact);
    ScanPlainOper(env, b, "and", [c], s2, s4, greedy, pillarExact);
    ScanLastPlain(env, c, s4, greedy, pillarExact);
    assert [a, "or"] + [b, "and", c] == [a, "or", b, "and", c];
    assert [b, "and"] + [c] == [b, "and", c];
  }

  lemma FiveTokens(t0: Tok, t1: Tok, t2: Tok, t3: Tok, t4: Tok)
    ensures [t0] + [t1] + [t2] + [t3] + [t4] == [t0, t1, t2, t3, t4]
  {
  }

  /** With no `not` pending, a leaf only appends its ids and its missing names. */
  lemma PushClosed(st: State, m: MatchResult)
    requires st.unmatched == []
    ensures Push(st, m) == State(st.results + [TSet(m.minions)], [], st.missing + m.missing)
  {
  }

  /** `and` and `or` after an operand append their token. */
  lemma BinaryStep(st: State, word: string, all: set<string>)
    requires word == "and" || word == "or"
    requires st.results != [] && st.results[|st.results| - 1] != TOpen
    ensures IsOper(word)
    ensures OperStep(st, word, all) == Some(State(st.results + [if word == "and" then TAnd else TOr], st.unmatched, st.missing))
  {
  }

  /** An expression may not start with `and`, `or` or `)`, nor put `and`/`or` right after `(`. */
  lemma MisplacedOperatorRefused(env: Env, op: string, rest: seq<string>, greedy: bool, pillarExact: bool)
    requires Active(env) && (op == "and" || op == "or")
    ensures CompoundSpec(env, CWords([op] + rest), greedy, pillarExact) == Ok(Empty)
    ensures CompoundSpec(env, CWords([")"] + rest), greedy, pillarExact) == Ok(Empty)
    ensures CompoundSpec(env, CWords(["(", op] + rest), greedy, pillarExact) == Ok(Empty)
  {
    var s0 := State([], [], []);
    assert ([op] + rest)[0] == op && ([op] + rest)[1..] == rest;
    assert ([")"] + rest)[0] == ")";
    var ws := ["(", op] + rest;
    assert ws[0] == "(" && ws[1..] == [op] + rest;
    var s1 := State([TOpen], [PParen], []);
    assert [] + [PParen] == [PParen];
    assert OperStep(s0, "(", Pki(env)) == Some(s1);
    assert OperStep(s1, op, Pki(env)).None?;
    assert Scan(env, [op] + rest, s1, greedy, pillarExact) == Refused;
    assert Scan(env, ws, s0, greedy, pillarExact) == Refused;
  }

  /** A `)` with no `(` waiting for it refuses the expression. */
  lemma UnexpectedCloseRefused(env: Env, w: string, rest: seq<string>, greedy: bool, pillarExact: bool)
    requires Active(env) && PlainWord(w)
    ensures CompoundSpec(env, CWords([w, ")"] + rest), greedy, pillarExact) == Ok(Empty)
  {
    var ws := [w, ")"] + rest;
    var s0 := State([], [], []);
    var s1 := Push(s0, GlobMinions(env, w));
    assert ws[0] == w && ws[1..] == [")"] + rest;
    assert s1.unmatched == [] && s1.results != [];
    assert IsOper(")") && ")" != "not" && ")" != "and" && ")" != "or" && ")" != "(";
    assert OperStep(s1, ")", Pki(env)).None?;
    assert ([")"] + rest)[0] == ")";
    assert Scan(env, [")"] + rest, s1, greedy, pillarExact) == Refused;
    assert Scan(env, ws, s0, greedy, pillarExact) == Refused;
  }

  /** A `(` left open is closed at the end: `( x` matches what `x` matches. */
  lemma OpenParenClosed(env: Env, w: string, greedy: bool, pillarExact: bool)
    requires Active(env) && PlainWord(w)
    ensures CompoundSpec(env, CWords(["(", w]), greedy, pillarExact) ==
              Ok(MatchResult(GlobMinions(env, w).minions, []))
  {
    var g := GlobMinions(env, w).minions;
    var s2 := OpenParenScan(env, w, greedy, pillarExact);
    assert Closes(1) == [TClose];
    ThreeTokens(TOpen, TSet(g), TClose);
    ParenLeaf(g);
  }

  /** The scan of `( w` leaves the parenthesis open after the leaf. */
  lemma OpenParenScan(env: Env, w: string, greedy: bool, pillarExact: bool) returns (s2: State)
    requires PlainWord(w)
    ensures Scan(env, ["(", w], State([], [], []), greedy, pillarExact) == Done(s2)
    ensures s2.results == [TOpen] + [TSet(GlobMinions(env, w).minions)]
    ensures s2.unmatched == [PParen] && s2.missing == []
  {
    var s0 := State([], [], []);
    var s1 := State([TOpen], [PParen], []);
    assert [] + [PParen] == [PParen];
    assert OperStep(s0, "(", Pki(env)) == Some(s1);
    assert ["(", w][1..] == [w];
    s2 := Push(s1, GlobMinions(env, w));
    ScanLastPlain(env, w, s1, greedy, pillarExact);
  }

  lemma ThreeTokens(t0: Tok, t1: Tok, t2: Tok)
    ensures [t0] + [t1] + [t2] == [t0, t1, t2]
  {
  }

  /** A range target (`R@…`) raises; the exception leaves the compound matcher. */
  lemma RangeTargetRaises(env: Env, w: string, rest: seq<string>, greedy: bool, pillarExact: bool)
    requires Active(env) && ParseTarget(w).engine == Some(R)
    ensures CompoundSpec(env, CWords([w] + rest), greedy, pillarExact) == Raised
  {
    var t := ParseTarget(w);
    assert !IsOper(w) by {
      assert |w| >= 3;
    }
    assert EngineMatch(env, R, t.pattern, t.delimiter, greedy, pillarExact).Raised?;
    assert ([w] + rest)[0] == w;
    assert Scan(env, [w] + rest, State([], [], []), greedy, pillarExact) == Failed;
  }

  /** Without the minion data cache on a master, every known id matches, whatever the expression. */
  lemma InactiveMatchesAll(env: Env, expr: CompoundExpr, greedy: bool, pillarExact: bool)
    requires !Active(env) && !expr.COther?
    ensures CompoundSpec(env, expr, greedy, pillarExact) == Ok(MatchResult(Pki(env), []))
  {
  }
}
