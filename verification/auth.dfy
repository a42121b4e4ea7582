/**
 * The permission checks: function-name and argument conditions, the
 * publish check that combines target scopes with function conditions, the
 * wheel/runner/cloud check, and the assembly of a user's ACL from the
 * configured principals and groups.
 */
module Auth {
  import opened Common
  import opened Targets
  import opened Directory
  import opened Resolver

  // ---------------------------------------------------------------------
  // ACL data
  // ---------------------------------------------------------------------

  /** One argument condition: positional regexes (None allows anything) and keyword regexes. */
  datatype ArgCond =
    | ArgCond(args: seq<Option<string>>, kwargs: map<string, Option<string>>)
    | NotDict  // anything that is not a mapping: ignored

  /** One function condition: a name regex, or a mapping from a name regex to argument conditions. */
  datatype FunCond =
    | FunName(regex: string)
    | FunDict(fields: map<string, seq<ArgCond>>)
    | OtherCond  // neither a string nor a mapping: ignored

  /** One ACL entry: a function regex valid on every minion, or a mapping from a target to function conditions. */
  datatype AclEntry =
    | Global(regex: string)
    | AclDict(fields: map<string, seq<FunCond>>)
    | OtherEntry

  /** A call argument in its text form; a mapping also keeps its fields (`__kwarg__` marks keyword arguments). */
  datatype Arg = Pos(text: string) | Dict(fields: map<string, string>, text: string)

  // ---------------------------------------------------------------------
  // match_check
  // ---------------------------------------------------------------------

  /** `re.match(regex, s)` on a valid pattern. */
  predicate Matches(o: Oracle, regex: string, s: string)
  {
    o.reValid(regex) && o.reMatch(regex, s)
  }

  /** What `match_check` promises: at least one name, and the pattern matches every one. */
  predicate MatchesAll(o: Oracle, regex: string, funs: seq<string>)
  {
    |funs| > 0 && forall f | f in funs :: Matches(o, regex, f)
  }

  /**
   * `match_check`: one verdict per name; an invalid pattern raises on
   * every name and leaves no verdict, and no verdict means no match.
   */
  method MatchCheck(o: Oracle, regex: string, funs: seq<string>) returns (ok: bool)
    ensures ok <==> MatchesAll(o, regex, funs)
  {
    var vals: seq<bool> := [];
    for i := 0 to |funs|
      invariant |vals| == if o.reValid(regex) then i else 0
      invariant forall j | 0 <= j < |vals| :: vals[j] == o.reMatch(regex, funs[j])
    {
      if o.reValid(regex) {
        vals := vals + [o.reMatch(regex, funs[i])];
      }
    }
    ok := vals != [] && forall j | 0 <= j < |vals| :: vals[j];
    assert MatchesAll(o, regex, funs) ==> ok by {
      if MatchesAll(o, regex, funs) {
        assert funs[0] in funs;
        forall j | 0 <= j < |vals|
          ensures vals[j]
        {
          assert funs[j] in funs;
        }
      }
    }
    assert ok ==> forall f | f in funs :: Matches(o, regex, f) by {
      if ok {
        forall f | f in funs
          ensures Matches(o, regex, f)
        {
          var j :| 0 <= j < |funs| && funs[j] == f;
          assert vals[j];
        }
      }
    }
  }

  // ---------------------------------------------------------------------
  // __args_check and __fun_check
  // ---------------------------------------------------------------------

  /** The argument at position `i` exists and satisfies its condition (None allows anything). */
  predicate PositionOk(o: Oracle, cond: Option<string>, args: Option<seq<string>>, i: int)
  {
    args.Some? && 0 <= i < |args.value| && (cond.None? || Matches(o, cond.value, args.value[i]))
  }

  /** The keyword argument `k` exists and satisfies its condition (None allows anything). */
  predicate KeywordOk(o: Oracle, cond: Option<string>, kwargs: Option<map<string, string>>, k: string)
  {
    kwargs.Some? && k in kwargs.value && (cond.None? || Matches(o, cond.value, kwargs.value[k]))
  }

  predicate PositionsOk(o: Oracle, conds: seq<Option<string>>, args: Option<seq<string>>)
  {
    forall i | 0 <= i < |conds| :: PositionOk(o, conds[i], args, i)
  }

  predicate KeywordsOk(o: Oracle, conds: map<string, Option<string>>, kwargs: Option<map<string, string>>)
  {
    forall k | k in conds :: KeywordOk(o, conds[k], kwargs, k)
  }

  /** Whether one argument condition accepts the call's positional and keyword arguments. */
  predicate ArgCondOk(o: Oracle, c: ArgCond, args: Option<seq<string>>, kwargs: Option<map<string, string>>)
  {
    c.ArgCond? && PositionsOk(o, c.args, args) && KeywordsOk(o, c.kwargs, kwargs)
  }

  predicate ArgsOk(o: Oracle, conds: seq<ArgCond>, args: Option<seq<string>>, kwargs: Option<map<string, string>>)
  {
    exists c | c in conds :: ArgCondOk(o, c, args, kwargs)
  }

  /** The positional part of one condition: stops at the first argument that is missing or fails. */
  method PositionalCheck(o: Oracle, conds: seq<Option<string>>, args: Option<seq<string>>) returns (good: bool)
    ensures good <==> PositionsOk(o, conds, args)
  {
    var i := 0;
    while i < |conds|
      invariant 0 <= i <= |conds|
      invariant forall j | 0 <= j < i :: PositionOk(o, conds[j], args, j)
    {
      if args.None? || |args.value| <= i {
        assert !PositionOk(o, conds[i], args, i);
        return false;
      }
      if conds[i].Some? {
        var m := MatchCheck(o, conds[i].value, [args.value[i]]);
        if !m {
          assert !PositionOk(o, conds[i], args, i);
          return false;
        }
      }
      i := i + 1;
    }
    return true;
  }

  /** The keyword part of one condition, visiting the condition's keys. */
  method KeywordCheck(o: Oracle, conds: map<string, Option<string>>, kwargs: Option<map<string, string>>) returns (good: bool)
    ensures good <==> KeywordsOk(o, conds, kwargs)
  {
    var todo := conds.Keys;
    while todo != {}
      invariant todo <= conds.Keys
      invariant forall k | k in conds && k !in todo :: KeywordOk(o, conds[k], kwargs, k)
      decreases |todo|
    {
      var k :| k in todo;
      if kwargs.None? || k !in kwargs.value {
        assert !KeywordOk(o, conds[k], kwargs, k);
        return false;
      }
      if conds[k].Some? {
        var m := MatchCheck(o, conds[k].value, [kwargs.value[k]]);
        if !m {
          assert !KeywordOk(o, conds[k], kwargs, k);
          return false;
        }
      }
      todo := todo - {k};
    }
    return true;
  }

  /** `__args_check`: some condition accepts the arguments. */
  method ArgsCheck(o: Oracle, conds: seq<ArgCond>, args: Option<seq<string>>, kwargs: Option<map<string, string>>)
    returns (ok: bool)
    ensures ok <==> ArgsOk(o, conds, args, kwargs)
  {
    for n := 0 to |conds|
      invariant forall j | 0 <= j < n :: !ArgCondOk(o, conds[j], args, kwargs)
    {
      var c := conds[n];
      if c.NotDict? {
        continue;
      }
      var good := PositionalCheck(o, c.args, args);
      if !good {
        assert !ArgCondOk(o, c, args, kwargs);
        continue;
      }
      good := KeywordCheck(o, c.kwargs, kwargs);
      if good {
        assert c in conds && ArgCondOk(o, c, args, kwargs);
        return true;
      }
      assert !ArgCondOk(o, c, args, kwargs);
    }
    assert forall c | c in conds :: !ArgCondOk(o, c, args, kwargs) by {
      forall c | c in conds
        ensures !ArgCondOk(o, c, args, kwargs)
      {
        var j :| 0 <= j < |conds| && conds[j] == c;
      }
    }
    return false;
  }

  /** A mapping with one key has that key alone. */
  lemma OnlyKey<V>(m: map<string, V>, k: string)
    requires |m| == 1 && k in m
    ensures m.Keys == {k}
  {
    var rest := m.Keys - {k};
    assert |rest| == 0;
    assert m.Keys == rest + {k};
  }

  predicate FunCondOk(o: Oracle, c: FunCond, fun: string, args: Option<seq<string>>, kwargs: Option<map<string, string>>)
  {
    match c
    case FunName(regex) => Matches(o, regex, fun)
    case FunDict(fields) =>
      |fields| == 1 && exists k | k in fields :: Matches(o, k, fun) && ArgsOk(o, fields[k], args, kwargs)
    case OtherCond => false
  }

  predicate FunOk(o: Oracle, conds: seq<FunCond>, fun: string, args: Option<seq<string>>, kwargs: Option<map<string, string>>)
  {
    exists c | c in conds :: FunCondOk(o, c, fun, args, kwargs)
  }

  /** `__fun_check`: some condition names the function and, if it has argument conditions, accepts the arguments. */
  method FunCheck(o: Oracle, conds: seq<FunCond>, fun: string, args: Option<seq<string>>, kwargs: Option<map<string, string>>)
    returns (ok: bool)
    ensures ok <==> FunOk(o, conds, fun, args, kwargs)
  {
    for n := 0 to |conds|
      invariant forall j | 0 <= j < n :: !FunCondOk(o, conds[j], fun, args, kwargs)
    {
      match conds[n]
      case FunName(regex) =>
        var m := MatchCheck(o, regex, [fun]);
        if m {
          assert conds[n] in conds && FunCondOk(o, conds[n], fun, args, kwargs);
          return true;
        }
      case FunDict(fields) =>
        if |fields| != 1 {
          continue;
        }
        var k :| k in fields;
        OnlyKey(fields, k);
        var m := MatchCheck(o, k, [fun]);
        if m {
          var a := ArgsCheck(o, fields[k], args, kwargs);
          if a {
            assert conds[n] in conds && FunCondOk(o, conds[n], fun, args, kwargs);
            return true;
          }
        }
      case OtherCond =>
    }
    assert forall c | c in conds :: !FunCondOk(o, c, fun, args, kwargs) by {
      forall c | c in conds
        ensures !FunCondOk(o, c, fun, args, kwargs)
      {
        var j :| 0 <= j < |conds| && conds[j] == c;
      }
    }
    return false;
  }

  // ---------------------------------------------------------------------
  // auth_check
  // ---------------------------------------------------------------------

  /** The text of every argument. */
  function Texts(args: seq<Arg>): (r: seq<string>)
    ensures |r| == |args| && forall i | 0 <= i < |args| :: r[i] == args[i].text
  {
    if args == [] then [] else [args[0].text] + Texts(args[1..])
  }

  /**
   * Splits a call's arguments: a trailing mapping holding `__kwarg__`
   * carries the keyword arguments and is not a positional argument.
   */
  function SplitCall(args: seq<Arg>): (r: (seq<string>, Option<map<string, string>>))
    ensures r.1.Some? <==> args != [] && args[|args| - 1].Dict? && "__kwarg__" in args[|args| - 1].fields
    ensures r.1.Some? ==> r.0 == Texts(args[..|args| - 1]) && r.1.value == args[|args| - 1].fields
    ensures r.1.None? ==> r.0 == Texts(args)
  {
    if args != [] && args[|args| - 1].Dict? && "__kwarg__" in args[|args| - 1].fields then
      (Texts(args[..|args| - 1]), Some(args[|args| - 1].fields))
    else (Texts(args), None)
  }

  /** ASCII `str.lower()`. */
  function Lower(s: string): (r: string)
    ensures |r| == |s|
    ensures forall i | 0 <= i < |s| :: r[i] == if 'A' <= s[i] <= 'Z' then (s[i] as int + 32) as char else s[i]
  {
    if s == [] then []
    else [if 'A' <= s[0] <= 'Z' then (s[0] as int + 32) as char else s[0]] + Lower(s[1..])
  }

  /** The target type a published command is re-resolved with: pillar globbing and regexes become exact. */
  function ExactType(tgtType: string): string
  {
    var l := Lower(tgtType);
    if l == "pillar" || l == "pillar_pcre" then "pillar_exact"
    else if l == "compound" then "compound_pillar_exact"
    else tgtType
  }

  /** The requested target reaches minions its exact-pillar reading does not. */
  predicate PublishMismatch(env: Env, tgt: TgtExpr, tgtType: string)
  {
    !(CheckMinionsSpec(env, tgt, tgtType, ':', true).minions <= CheckMinionsSpec(env, tgt, ExactType(tgtType), ':', true).minions)
  }

  /** The ids the scope checks compare against: with publish validation they are resolved once up front. */
  function ScopeMinions(env: Env, tgt: TgtExpr, tgtType: string, publishValidate: bool, minions: Option<set<string>>)
    : Option<set<string>>
  {
    if publishValidate then Some(CheckMinionsSpec(env, tgt, tgtType, ':', true).minions) else minions
  }

  /** Whether one ACL entry allows one function call on the requested minions. */
  predicate EntryGrants(env: Env, ind: AclEntry, fun: string, callArgs: seq<Arg>,
                        tgt: TgtExpr, tgtType: string, ms: Option<set<string>>)
  {
    match ind
    case Global(regex) => Matches(env.oracle, regex, fun)
    case AclDict(fields) => DictGrants(env, fields, fun, callArgs, tgt, tgtType, ms)
    case OtherEntry => false
  }

  /** A mapping entry: a single target key whose scope holds the request and whose conditions accept the call. */
  predicate DictGrants(env: Env, fields: map<string, seq<FunCond>>, fun: string, callArgs: seq<Arg>,
                       tgt: TgtExpr, tgtType: string, ms: Option<set<string>>)
  {
    |fields| == 1 && exists k | k in fields ::
      TargetMinions(env, tgt, tgtType, ms) <= ExpandMatching(env, k) &&
      FunOk(env.oracle, fields[k], fun, Some(SplitCall(callArgs).0), SplitCall(callArgs).1)
  }

  /** Some entry of the list allows the call. */
  predicate AnyEntryGrants(env: Env, acl: seq<AclEntry>, fun: string, callArgs: seq<Arg>,
                           tgt: TgtExpr, tgtType: string, ms: Option<set<string>>)
  {
    exists ind | ind in acl :: EntryGrants(env, ind, fun, callArgs, tgt, tgtType, ms)
  }

  /** One requested function is whitelisted or allowed by some entry. */
  predicate FunGranted(env: Env, acl: seq<AclEntry>, fun: string, callArgs: seq<Arg>,
                       tgt: TgtExpr, tgtType: string, ms: Option<set<string>>, whitelist: seq<string>)
  {
    fun in whitelist || AnyEntryGrants(env, acl, fun, callArgs, tgt, tgtType, ms)
  }

  /**
   * `auth_check` grants when publish validation (if asked for) finds no
   * pillar globbing, and some requested function is whitelisted or allowed
   * by some ACL entry on the requested minions.
   */
  predicate AuthGranted(env: Env, acl: seq<AclEntry>, funs: seq<string>, args: seq<seq<Arg>>,
                        tgt: TgtExpr, tgtType: string, publishValidate: bool,
                        minions: Option<set<string>>, whitelist: seq<string>)
    requires |args| >= |funs|
  {
    !(publishValidate && PublishMismatch(env, tgt, tgtType)) &&
    exists num | 0 <= num < |funs| ::
      FunGranted(env, acl, funs[num], args[num], tgt, tgtType, ScopeMinions(env, tgt, tgtType, publishValidate, minions), whitelist)
  }

  /** One entry of the inner loop of `auth_check`. */
  method EntryCheck(env: Env, ind: AclEntry, fun: string, callArgs: seq<Arg>,
                    tgt: TgtExpr, tgtType: string, ms: Option<set<string>>) returns (ok: bool)
    ensures ok <==> EntryGrants(env, ind, fun, callArgs, tgt, tgtType, ms)
  {
    match ind
    case Global(regex) =>
      ok := MatchCheck(env.oracle, regex, [fun]);
      assert MatchesAll(env.oracle, regex, [fun]) <==> Matches(env.oracle, regex, fun) by {
        assert fun in [fun];
      }
    case AclDict(fields) =>
      ok := DictEntryCheck(env, fields, fun, callArgs, tgt, tgtType, ms);
    case OtherEntry =>
      ok := false;
  }

  /** A mapping entry: exactly one key, the request inside its target, then the function conditions. */
  method DictEntryCheck(env: Env, fields: map<string, seq<FunCond>>, fun: string, callArgs: seq<Arg>,
                        tgt: TgtExpr, tgtType: string, ms: Option<set<string>>) returns (ok: bool)
    ensures ok <==> DictGrants(env, fields, fun, callArgs, tgt, tgtType, ms)
  {
    if |fields| != 1 {
      return false;
    }
    var valid :| valid in fields;
    OnlyKey(fields, valid);
    var inScope := ValidateTgt(env, valid, tgt, tgtType, ms);
    if !inScope {
      return false;
    }
    var split := SplitCall(callArgs);
    ok := FunCheck(env.oracle, fields[valid], fun, Some(split.0), split.1);
  }

  /** The inner loop of `auth_check`: the entries tried in order for one function. */
  method EntriesCheck(env: Env, acl: seq<AclEntry>, fun: string, callArgs: seq<Arg>,
                      tgt: TgtExpr, tgtType: string, ms: Option<set<string>>) returns (ok: bool)
    ensures ok <==> AnyEntryGrants(env, acl, fun, callArgs, tgt, tgtType, ms)
  {
    for i := 0 to |acl|
      invariant forall j | 0 <= j < i :: !EntryGrants(env, acl[j], fun, callArgs, tgt, tgtType, ms)
    {
      var g := EntryCheck(env, acl[i], fun, callArgs, tgt, tgtType, ms);
      if g {
        assert acl[i] in acl;
        return true;
      }
      NoneUpTo(env, acl, i, fun, callArgs, tgt, tgtType, ms);
    }
    NoEntryGrants(env, acl, fun, callArgs, tgt, tgtType, ms);
    return false;
  }

  /** The entries before position i and the entry at i allow nothing, so the first i + 1 allow nothing. */
  lemma NoneUpTo(env: Env, acl: seq<AclEntry>, i: nat, fun: string, callArgs: seq<Arg>,
                 tgt: TgtExpr, tgtType: string, ms: Option<set<string>>)
    requires i < |acl|
    requires forall j | 0 <= j < i :: !EntryGrants(env, acl[j], fun, callArgs, tgt, tgtType, ms)
    requires !EntryGrants(env, acl[i], fun, callArgs, tgt, tgtType, ms)
    ensures forall j | 0 <= j < i + 1 :: !EntryGrants(env, acl[j], fun, callArgs, tgt, tgtType, ms)
  {
  }

  /** An entry list none of whose positions allows the call allows nothing. */
  lemma NoEntryGrants(env: Env, acl: seq<AclEntry>, fun: string, callArgs: seq<Arg>,
                      tgt: TgtExpr, tgtType: string, ms: Option<set<string>>)
    requires forall j | 0 <= j < |acl| :: !EntryGrants(env, acl[j], fun, callArgs, tgt, tgtType, ms)
    ensures !AnyEntryGrants(env, acl, fun, callArgs, tgt, tgtType, ms)
  {
    forall ind | ind in acl
      ensures !EntryGrants(env, ind, fun, callArgs, tgt, tgtType, ms)
    {
      var j :| 0 <= j < |acl| && acl[j] == ind;
    }
  }

  /**
   * Publish validation: resolves the target as requested and as exact
   * pillar matching; refuses when the first reaches beyond the second,
   * and otherwise fixes the requested ids for the scope checks.
   */
  method PublishValidate(env: Env, tgt: TgtExpr, tgtType: string, publishValidate: bool, minions: Option<set<string>>)
    returns (refused: bool, ms: Option<set<string>>)
    ensures refused <==> publishValidate && PublishMismatch(env, tgt, tgtType)
    ensures ms == ScopeMinions(env, tgt, tgtType, publishValidate, minions)
  {
    ms := minions;
    refused := false;
    if publishValidate {
      var v := CheckMinions(env, tgt, ExactType(tgtType), ':', true);
      var m := CheckMinions(env, tgt, tgtType, ':', true);
      refused := !(m.minions <= v.minions);
      ms := Some(m.minions);
    }
  }

  /** `auth_check` (without the opt-in expanded matching). */
  method AuthCheck(env: Env, acl: seq<AclEntry>, funs: seq<string>, args: seq<seq<Arg>>,
                   tgt: TgtExpr, tgtType: string, publishValidate: bool,
                   minions: Option<set<string>>, whitelist: seq<string>) returns (ok: bool)
    requires |args| >= |funs|
    ensures ok <==> AuthGranted(env, acl, funs, args, tgt, tgtType, publishValidate, minions, whitelist)
  {
    var refused, ms := PublishValidate(env, tgt, tgtType, publishValidate, minions);
    if refused {
      return false;
    }
    for num := 0 to |funs|
      invariant forall j | 0 <= j < num :: !FunGranted(env, acl, funs[j], args[j], tgt, tgtType, ms, whitelist)
    {
      var fun := funs[num];
      if |whitelist| > 0 && fun in whitelist {
        assert FunGranted(env, acl, funs[num], args[num], tgt, tgtType, ms, whitelist);
        return true;
      }
      var g := EntriesCheck(env, acl, fun, args[num], tgt, tgtType, ms);
      if g {
        assert FunGranted(env, acl, funs[num], args[num], tgt, tgtType, ms, whitelist);
        return true;
      }
    }
    return false;
  }

  /** Publish validation refuses a request whose pillar globbing reaches beyond the exact reading. */
  lemma PublishMismatchDenies(env: Env, acl: seq<AclEntry>, funs: seq<string>, args: seq<seq<Arg>>,
                              tgt: TgtExpr, tgtType: string, minions: Option<set<string>>, whitelist: seq<string>)
    requires |args| >= |funs| && PublishMismatch(env, tgt, tgtType)
    ensures !AuthGranted(env, acl, funs, args, tgt, tgtType, true, minions, whitelist)
  {
  }

  /**
   * A scoped entry that allows a call on some set of minions also allows
   * it on every subset: narrowing a request never loses a permission, and
   * widening it never gains one.
   */
  lemma ScopeNarrowing(env: Env, ind: AclEntry, fun: string, callArgs: seq<Arg>,
                       tgt: TgtExpr, tgtType: string, wide: set<string>, narrow: set<string>)
    requires narrow <= wide
    requires EntryGrants(env, ind, fun, callArgs, tgt, tgtType, Some(wide))
    ensures EntryGrants(env, ind, fun, callArgs, tgt, tgtType, Some(narrow))
  {
    if ind.AclDict? {
      var k :| k in ind.fields &&
        TargetMinions(env, tgt, tgtType, Some(wide)) <= ExpandMatching(env, k) &&
        FunOk(env.oracle, ind.fields[k], fun, Some(SplitCall(callArgs).0), SplitCall(callArgs).1);
      assert TargetMinions(env, tgt, tgtType, Some(narrow)) <= ExpandMatching(env, k);
    }
  }

  /** Adding ACL entries never revokes a permission. */
  lemma MoreEntriesNeverRevoke(env: Env, acl: seq<AclEntry>, more: seq<AclEntry>, funs: seq<string>, args: seq<seq<Arg>>,
                               tgt: TgtExpr, tgtType: string, publishValidate: bool,
                               minions: Option<set<string>>, whitelist: seq<string>)
    requires |args| >= |funs|
    requires AuthGranted(env, acl, funs, args, tgt, tgtType, publishValidate, minions, whitelist)
    ensures AuthGranted(env, acl + more, funs, args, tgt, tgtType, publishValidate, minions, whitelist)
  {
    var ms := ScopeMinions(env, tgt, tgtType, publishValidate, minions);
    var num :| 0 <= num < |funs| &&
      FunGranted(env, acl, funs[num], args[num], tgt, tgtType, ms, whitelist);
    if funs[num] !in whitelist {
      var ind :| ind in acl && EntryGrants(env, ind, funs[num], args[num], tgt, tgtType, ms);
      assert ind in acl + more;
    }
  }

  /** A trailing `__kwarg__` mapping is passed as keyword arguments and dropped from the positional ones. */
  lemma KwargSplit(pos: seq<Arg>, kw: map<string, string>, text: string)
    requires "__kwarg__" in kw
    ensures SplitCall(pos + [Dict(kw, text)]) == (Texts(pos), Some(kw))
  {
    assert (pos + [Dict(kw, text)])[..|pos|] == pos;
  }

  // ---------------------------------------------------------------------
  // spec_check (wheel, runner, cloud)
  // ---------------------------------------------------------------------

  datatype SpecResult =
    | SpecBool(b: bool)
    | SyntaxHint   // the error dictionary returned for a function name without exactly one dot
    | SpecRaised   // an empty entry or target name is indexed and raises

  /** The `arg` and `kwarg` entries of the call's argument mapping. */
  datatype SpecArgs = SpecArgs(arg: Option<seq<string>>, kwarg: Option<map<string, string>>)

  /** `@mod`, `@form` or `@forms` (as in `@wheels`) names the call. */
  predicate NamesCall(name: string, modName: string, form: string)
  {
    name != [] && name[0] == '@' && (name[1..] == modName || name[1..] == form || name == "@" + form + "s")
  }

  /** The verdict of one entry: Some(true) grants, None raises, Some(false) moves on. */
  function SpecEntry(o: Oracle, ind: AclEntry, fun: string, modName: string, funName: string,
                     args: SpecArgs, form: string): Option<bool>
  {
    match ind
    case Global(name) =>
      if name == [] then None else Some(NamesCall(name, modName, form))
    case AclDict(fields) =>
      if |fields| != 1 then Some(false)
      else if exists k | k in fields :: k == [] then None
      else Some(exists k | k in fields ::
                  k[0] == '@' &&
                  ((k[1..] == modName && FunOk(o, fields[k], funName, args.arg, args.kwarg)) ||
                   ((k[1..] == form || k == "@" + form + "s") && FunOk(o, fields[k], fun, args.arg, args.kwarg))))
    case OtherEntry => Some(false)
  }

  /** The entries visited in order: the first grant or raise decides. */
  function SpecScan(o: Oracle, acl: seq<AclEntry>, fun: string, modName: string, funName: string,
                    args: SpecArgs, form: string): SpecResult
  {
    if acl == [] then SpecBool(false)
    else match SpecEntry(o, acl[0], fun, modName, funName, args, form)
      case None => SpecRaised
      case Some(true) => SpecBool(true)
      case Some(false) => SpecScan(o, acl[1..], fun, modName, funName, args, form)
  }

  /**
   * `spec_check`: an empty ACL denies; outside `cloud` the function name
   * must be `module.function`, otherwise a syntax hint is returned.
   */
  function SpecCheckSpec(o: Oracle, acl: seq<AclEntry>, fun: string, args: SpecArgs, form: string): SpecResult
  {
    if acl == [] then SpecBool(false)
    else if form != "cloud" then
      var comps := SplitOn(fun, '.');
      if |comps| != 2 then SyntaxHint
      else SpecScan(o, acl, fun, comps[0], comps[1], args, form)
    else SpecScan(o, acl, fun, fun, fun, args, form)
  }

  method SpecCheck(o: Oracle, acl: seq<AclEntry>, fun: string, args: SpecArgs, form: string) returns (r: SpecResult)
    ensures r == SpecCheckSpec(o, acl, fun, args, form)
  {
    if acl == [] {
      return SpecBool(false);
    }
    var modName, funName := fun, fun;
    if form != "cloud" {
      var comps := SplitOn(fun, '.');
      if |comps| != 2 {
        return SyntaxHint;
      }
      modName, funName := comps[0], comps[1];
    }
    ghost var goal := SpecScan(o, acl, fun, modName, funName, args, form);
    var i := 0;
    while i < |acl|
      invariant 0 <= i <= |acl|
      invariant SpecScan(o, acl[i..], fun, modName, funName, args, form) == goal
    {
      assert acl[i..][1..] == acl[i + 1..];
      match acl[i] {
      case Global(name) =>
        if name == [] {
          return SpecRaised;
        }
        if name[0] == '@' && (name[1..] == modName || name[1..] == form || name == "@" + form + "s") {
          return SpecBool(true);
        }
      case AclDict(fields) =>
        if |fields| == 1 {
          var valid :| valid in fields;
          OnlyKey(fields, valid);
          if valid == [] {
            return SpecRaised;
          }
          if valid[0] == '@' {
            if valid[1..] == modName {
              var g := FunCheck(o, fields[valid], funName, args.arg, args.kwarg);
              if g {
                return SpecBool(true);
              }
            }
            if valid[1..] == form || valid == "@" + form + "s" {
              var g := FunCheck(o, fields[valid], fun, args.arg, args.kwarg);
              if g {
                return SpecBool(true);
              }
            }
          }
        }
      case OtherEntry =>
      }
      i := i + 1;
    }
    assert acl[i..] == [];
    r := SpecBool(false);
  }

  /** `wheel_check`: the special check for the `wheel` form. */
  method WheelCheck(o: Oracle, acl: seq<AclEntry>, fun: string, args: SpecArgs) returns (r: SpecResult)
    ensures r == SpecCheckSpec(o, acl, fun, args, "wheel")
  {
    r := SpecCheck(o, acl, fun, args, "wheel");
  }

  /** `runner_check`: the special check for the `runner` form. */
  method RunnerCheck(o: Oracle, acl: seq<AclEntry>, fun: string, args: SpecArgs) returns (r: SpecResult)
    ensures r == SpecCheckSpec(o, acl, fun, args, "runner")
  {
    r := SpecCheck(o, acl, fun, args, "runner");
  }

  /**
   * A grant always comes from an entry that names the module, the form,
   * or every function of the form (`@wheels`, `@runners`).
   */
  lemma {:induction false} SpecGrantNamesCall(o: Oracle, acl: seq<AclEntry>, fun: string, modName: string, funName: string,
                                              args: SpecArgs, form: string)
    requires SpecScan(o, acl, fun, modName, funName, args, form) == SpecBool(true)
    ensures exists i | 0 <= i < |acl| ::
              (acl[i].Global? && NamesCall(acl[i].regex, modName, form)) ||
              (acl[i].AclDict? && exists k | k in acl[i].fields :: NamesCall(k, modName, form))
    decreases |acl|
  {
    var e := SpecEntry(o, acl[0], fun, modName, funName, args, form);
    if e == Some(false) {
      SpecGrantNamesCall(o, acl[1..], fun, modName, funName, args, form);
      var i :| 0 <= i < |acl[1..]| &&
        ((acl[1..][i].Global? && NamesCall(acl[1..][i].regex, modName, form)) ||
         (acl[1..][i].AclDict? && exists k | k in acl[1..][i].fields :: NamesCall(k, modName, form)));
      assert acl[i + 1] == acl[1..][i];
    } else {
      assert e == Some(true);
      if acl[0].AclDict? {
        var k :| k in acl[0].fields && k[0] == '@' &&
          ((k[1..] == modName && FunOk(o, acl[0].fields[k], funName, args.arg, args.kwarg)) ||
           ((k[1..] == form || k == "@" + form + "s") && FunOk(o, acl[0].fields[k], fun, args.arg, args.kwarg)));
        assert NamesCall(k, modName, form);
      }
    }
  }

  /** A function name with no dot, or with more than one, draws the syntax hint (given a non-empty ACL). */
  lemma BadFunctionName(o: Oracle, acl: seq<AclEntry>, fun: string, args: SpecArgs, form: string)
    requires acl != [] && form != "cloud" && '.' !in fun
    ensures SpecCheckSpec(o, acl, fun, args, form) == SyntaxHint
  {
  }

  /** An `@wheels`-style entry first in the ACL grants every well-formed call of that form. */
  lemma FormWildcardGrants(o: Oracle, rest: seq<AclEntry>, modName: string, funName: string, args: SpecArgs, form: string)
    requires form != "cloud" && '.' !in modName && '.' !in funName
    ensures SpecCheckSpec(o, [Global("@" + form + "s")] + rest, modName + "." + funName, args, form) == SpecBool(true)
  {
    var fun := modName + "." + funName;
    assert Join(".", [modName, funName]) == fun by {
      assert Join(".", [funName]) == funName;
    }
    assert forall p | p in [modName, funName] :: '.' !in p;
    assert "." == ['.'];
    SplitOnJoin([modName, funName], '.');
    var acl := [Global("@" + form + "s")] + rest;
    assert acl[0] == Global("@" + form + "s");
    assert ("@" + form + "s")[0] == '@';
  }

  // ---------------------------------------------------------------------
  // fill_auth_list and fill_auth_list_from_groups
  // ---------------------------------------------------------------------

  /** The ACL configuration of one authentication provider: keys in order, each with its entries. */
  type Provider = seq<(string, seq<AclEntry>)>

  /** A key ending in `%` names a group. */
  predicate GroupKey(k: string)
  {
    EndsWith(k, "%")
  }

  /** The entries of the first key equal to `k`. */
  function Lookup(p: Provider, k: string): Option<seq<AclEntry>>
  {
    if p == [] then None else if p[0].0 == k then Some(p[0].1) else Lookup(p[1..], k)
  }

  /** Whether a key contributes its entries to the user's list, in the visiting loop. */
  predicate KeyApplies(o: Oracle, k: string, name: string, groups: set<string>, permissive: bool)
  {
    !(k == "*" && !permissive) &&
    (if GroupKey(k) then RStrip(k, '%') in groups else o.exprMatch(k, name))
  }

  /** The entries the visiting loop collects, in key order. */
  function Collected(o: Oracle, p: Provider, name: string, groups: set<string>, permissive: bool): seq<AclEntry>
  {
    if p == [] then []
    else
      var last := p[|p| - 1];
      Collected(o, p[..|p| - 1], name, groups, permissive) +
      (if KeyApplies(o, last.0, name, groups, permissive) then last.1 else [])
  }

  /** Whether some principal key (not a group, not a skipped `*`) matched the user name. */
  predicate NameMatched(o: Oracle, p: Provider, name: string, permissive: bool)
  {
    p != [] && (NameMatched(o, p[..|p| - 1], name, permissive) || MatchesName(o, p[|p| - 1].0, name, permissive))
  }

  /** A principal key (not a group, not a skipped `*`) that matches the user name. */
  predicate MatchesName(o: Oracle, k: string, name: string, permissive: bool)
  {
    !(k == "*" && !permissive) && !GroupKey(k) && o.exprMatch(k, name)
  }

  /**
   * The entries a user is eligible for: the collected ones, then the `*`
   * entries when the ACL is not permissive and no principal key matched.
   */
  function Eligible(o: Oracle, p: Provider, name: string, groups: set<string>, permissive: bool): seq<AclEntry>
  {
    var fallback := !permissive && !NameMatched(o, p, name, permissive) && Lookup(p, "*").Some?;
    Collected(o, p, name, groups, permissive) + (if fallback then Lookup(p, "*").value else [])
  }

  /** `@master` as a target stands for the master's own id. */
  function MasterRewrite(id: string, e: AclEntry): (r: AclEntry)
    ensures r.AclDict? && id != "@master" ==> "@master" !in r.fields
    ensures e.AclDict? && "@master" in e.fields && id != "@master" ==> r.AclDict? && id in r.fields && r.fields[id] == e.fields["@master"]
    ensures !(e.AclDict? && "@master" in e.fields) ==> r == e
  {
    if e.AclDict? && "@master" in e.fields then AclDict(e.fields[id := e.fields["@master"]] - {"@master"})
    else e
  }

  function RewriteAll(id: string, s: seq<AclEntry>): (r: seq<AclEntry>)
    ensures |r| == |s| && forall i | 0 <= i < |s| :: r[i] == MasterRewrite(id, s[i])
  {
    if s == [] then [] else [MasterRewrite(id, s[0])] + RewriteAll(id, s[1..])
  }

  /** The list the checks are handed, extended in place. */
  class AclList {
    var items: seq<AclEntry>

    constructor (initial: seq<AclEntry>)
      ensures items == initial
    {
      items := initial;
    }
  }

  /**
   * `fill_auth_list`: appends every entry the user is eligible for, then
   * rewrites `@master` targets to the master's id throughout the list.
   * A permissiveness of None defers to the master option.
   */
  method FillAuthList(env: Env, list: AclList, p: Provider, name: string, groups: set<string>, permissive: Option<bool>)
    modifies list
    ensures var perm := if permissive.Some? then permissive.value else env.cfg.permissiveAcl;
            list.items == RewriteAll(env.cfg.id, old(list.items) + Eligible(env.oracle, p, name, groups, perm))
  {
    var perm := if permissive.Some? then permissive.value else env.cfg.permissiveAcl;
    CollectEligible(env.oracle, list, p, name, groups, perm);
    RewriteMasters(list, env.cfg.id);
  }

  /** The key-visiting loop of `fill_auth_list` and its `*` fallback. */
  method CollectEligible(o: Oracle, list: AclList, p: Provider, name: string, groups: set<string>, perm: bool)
    modifies list
    ensures list.items == old(list.items) + Eligible(o, p, name, groups, perm)
  {
    var start := list.items;
    var nameMatched := false;
    for i := 0 to |p|
      invariant list.items == start + Collected(o, p[..i], name, groups, perm)
      invariant nameMatched <==> NameMatched(o, p[..i], name, perm)
    {
      nameMatched := CollectAt(o, list, p, i, name, groups, perm, start, nameMatched);
    }
    assert p[..|p|] == p;
    var star := Lookup(p, "*");
    if !perm && !nameMatched && star.Some? {
      list.items := list.items + star.value;
    }
  }

  /** The scan's step at position i: the key there is collected and the name-match flag updated. */
  method CollectAt(o: Oracle, list: AclList, p: Provider, i: nat, name: string, groups: set<string>, perm: bool,
                   ghost start: seq<AclEntry>, nameMatched: bool) returns (nm: bool)
    requires i < |p|
    requires list.items == start + Collected(o, p[..i], name, groups, perm)
    requires nameMatched <==> NameMatched(o, p[..i], name, perm)
    modifies list
    ensures list.items == start + Collected(o, p[..i + 1], name, groups, perm)
    ensures nm <==> NameMatched(o, p[..i + 1], name, perm)
  {
    CollectedStep(o, p, i, name, groups, perm);
    var matched := CollectKey(o, list, p[i].0, p[i].1, name, groups, perm);
    nm := nameMatched || matched;
    assert list.items == start + (Collected(o, p[..i], name, groups, perm) +
      (if KeyApplies(o, p[i].0, name, groups, perm) then p[i].1 else []));
  }

  /** One key of the provider: its entries are appended when it applies to the user. */
  method CollectKey(o: Oracle, list: AclList, k: string, entries: seq<AclEntry>, name: string, groups: set<string>, perm: bool)
    returns (matched: bool)
    modifies list
    ensures list.items == old(list.items) + (if KeyApplies(o, k, name, groups, perm) then entries else [])
    ensures matched == MatchesName(o, k, name, perm)
  {
    matched := false;
    if k == "*" && !perm {
      return;
    }
    if GroupKey(k) {
      if RStrip(k, '%') in groups {
        list.items := list.items + entries;
      }
    } else if o.exprMatch(k, name) {
      matched := true;
      list.items := list.items + entries;
    }
  }

  /** The `@master` rewrite over every entry of the list. */
  method RewriteMasters(list: AclList, id: string)
    modifies list
    ensures list.items == RewriteAll(id, old(list.items))
  {
    var j := 0;
    var done := list.items;
    while j < |list.items|
      invariant 0 <= j <= |done| && |list.items| == |done|
      invariant forall n | 0 <= n < j :: list.items[n] == MasterRewrite(id, done[n])
      invariant forall n | j <= n < |done| :: list.items[n] == done[n]
    {
      var acl := list.items[j];
      if acl.AclDict? && "@master" in acl.fields {
        list.items := list.items[j := AclDict(acl.fields[id := acl.fields["@master"]] - {"@master"})];
      }
      j := j + 1;
    }
  }

  /** One more key visited: the collected entries and the name-matched flag grow accordingly. */
  lemma CollectedStep(o: Oracle, p: Provider, i: nat, name: string, groups: set<string>, perm: bool)
    requires i < |p|
    ensures Collected(o, p[..i + 1], name, groups, perm) ==
              Collected(o, p[..i], name, groups, perm) + (if KeyApplies(o, p[i].0, name, groups, perm) then p[i].1 else [])
    ensures NameMatched(o, p[..i + 1], name, perm) <==> NameMatched(o, p[..i], name, perm) || MatchesName(o, p[i].0, name, perm)
  {
    assert p[..i + 1][..i] == p[..i];
  }

  /** The entries a group contributes when the user belongs to it. */
  function GroupEntries(p: Provider, userGroups: set<string>): seq<AclEntry>
  {
    if p == [] then []
    else
      var last := p[|p| - 1];
      GroupEntries(p[..|p| - 1], userGroups) +
      (if GroupKey(last.0) && RStrip(last.0, '%') in userGroups then last.1 else [])
  }

  /** `fill_auth_list_from_groups`: appends the entries of every group key whose group the user is in. */
  method FillAuthListFromGroups(list: AclList, p: Provider, userGroups: set<string>)
    modifies list
    ensures list.items == old(list.items) + GroupEntries(p, userGroups)
  {
    var start := list.items;
    for i := 0 to |p|
      invariant list.items == start + GroupEntries(p[..i], userGroups)
    {
      assert p[..i + 1][..i] == p[..i];
      var (k, entries) := p[i];
      if GroupKey(k) && RStrip(k, '%') in userGroups {
        list.items := list.items + entries;
      }
    }
    assert p[..|p|] == p;
  }

  /**
   * When no principal key matches the user and there is no `*` key, the
   * full fill collects exactly the group entries the group-only fill adds.
   */
  lemma GroupsOnlyAgree(o: Oracle, p: Provider, name: string, groups: set<string>, permissive: bool)
    requires forall i | 0 <= i < |p| :: !GroupKey(p[i].0) ==> p[i].0 != "*" && !o.exprMatch(p[i].0, name)
    ensures Eligible(o, p, name, groups, permissive) == GroupEntries(p, groups)
  {
    CollectedGroupsOnly(o, p, name, groups, permissive);
    assert forall i | 0 <= i < |p| :: p[i].0 != "*" by {
      forall i | 0 <= i < |p|
        ensures p[i].0 != "*"
      {
        if GroupKey(p[i].0) {
          assert p[i].0[|p[i].0| - 1] == '%';
        }
      }
    }
    LookupAbsent(p, "*");
  }

  lemma {:induction false} CollectedGroupsOnly(o: Oracle, p: Provider, name: string, groups: set<string>, permissive: bool)
    requires forall i | 0 <= i < |p| :: !GroupKey(p[i].0) ==> p[i].0 != "*" && !o.exprMatch(p[i].0, name)
    ensures Collected(o, p, name, groups, permissive) == GroupEntries(p, groups)
    ensures !NameMatched(o, p, name, permissive)
    decreases |p|
  {
    if p != [] {
      var q := p[..|p| - 1];
      assert forall i | 0 <= i < |q| :: q[i] == p[i];
      CollectedGroupsOnly(o, q, name, groups, permissive);
      var k := p[|p| - 1].0;
      if GroupKey(k) {
        assert k != "*" by {
          assert k[|k| - 1] == '%';
        }
      }
    }
  }

  lemma {:induction false} LookupAbsent(p: Provider, k: string)
    requires forall i | 0 <= i < |p| :: p[i].0 != k
    ensures Lookup(p, k).None?
    decreases |p|
  {
    if p != [] {
      assert forall i | 0 <= i < |p[1..]| :: p[1..][i] == p[i + 1];
      LookupAbsent(p[1..], k);
    }
  }

  /**
   * Without a permissive ACL, the `*` entries reach a user only as the
   * fallback for a user no principal key matched.
   */
  lemma StarOnlyAsFallback(o: Oracle, p: Provider, name: string, groups: set<string>)
    requires NameMatched(o, p, name, false)
    ensures Eligible(o, p, name, groups, false) == Collected(o, p, name, groups, false)
  {
  }

  /** After the fill no entry is scoped to `@master`: it is scoped to the master's id instead. */
  lemma NoMasterTargetLeft(id: string, s: seq<AclEntry>)
    requires id != "@master"
    ensures forall e | e in RewriteAll(id, s) :: e.AclDict? ==> "@master" !in e.fields
  {
  }
}
