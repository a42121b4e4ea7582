/**
 * `check_minions`, the entry point that resolves a target of a named type,
 * and the two helpers the authorization checks build on it:
 * `_expand_matching` (the ids an ACL target covers) and `validate_tgt`
 * (whether a requested target stays inside an ACL target).
 */
module Resolver {
  import opened Common
  import opened Targets
  import opened Nodegroups
  import opened Directory
  import opened Matchers
  import opened Compound

  /** The `expr` argument: a string, a list of names or words, None, or anything else. */
  datatype TgtExpr = Text(text: string) | Items(ws: seq<string>) | NoExpr | OtherExpr

  /** The compound matcher's view of an expression; None has already become the empty string. */
  function AsCompound(expr: TgtExpr): CompoundExpr
  {
    match expr
    case Text(s) => CText(s)
    case Items(ws) => CWords(ws)
    case NoExpr => CText("")
    case OtherExpr => COther
  }

  /** The cache matcher behind a target type that takes a delimiter. */
  function CacheKindOf(tgtType: string): Option<CacheKind>
  {
    if tgtType == "grain" then Some(Grain)
    else if tgtType == "grain_pcre" then Some(GrainPcre)
    else if tgtType == "pillar" then Some(Pillar)
    else if tgtType == "pillar_pcre" then Some(PillarPcre)
    else if tgtType == "pillar_exact" then Some(PillarExact)
    else None
  }

  /**
   * The matcher `_check_<tgt_type>_minions` called with its arguments.
   * Raised stands for every exception: a missing matcher (`None` is not
   * callable), a helper called with the wrong arguments (`cache`), the
   * unavailable range library, and the glob, regular-expression and
   * nodegroup matchers handed an expression that is not a string. The
   * cache and IP matchers read such an expression only when they get as
   * far as testing cached data.
   */
  function Dispatch(env: Env, expr: TgtExpr, tgtType: string, delim: char, greedy: bool): Outcome<MatchResult>
  {
    var e := if expr.NoExpr? then Text("") else expr;
    var kind := CacheKindOf(tgtType);
    if kind.Some? then
      (if e.Text? then CacheOutcome(env, QueryFor(kind.value, e.text, delim), greedy)
       else UntypedCacheOutcome(env, BankOf(kind.value), greedy))
    else if tgtType == "compound" then CompoundSpec(env, AsCompound(e), greedy, false)
    else if tgtType == "compound_pillar_exact" then CompoundSpec(env, AsCompound(e), greedy, true)
    else if tgtType == "glob" then (if e.Text? then Ok(GlobMinions(env, e.text)) else Raised)
    else if tgtType == "list" then
      (match e
       case Text(s) => Ok(ListMinions(env, ListItems(s)))
       case Items(ws) => Ok(ListMinions(env, ws))
       case _ => Raised)
    else if tgtType == "pcre" then (if e.Text? then PcreMinions(env, e.text) else Raised)
    else if tgtType == "ipcidr" then Ok(MatchResult(IpcidrAnswer(env, if e.Text? then Some(e.text) else None, greedy), []))
    else if tgtType == "nodegroup" then
      (if e.Text? then CompoundSpec(env, CWords(Comp(e.text, env.cfg.nodegroups, {}, true)), greedy, false) else Raised)
    else Raised
  }

  /** `check_minions`: any exception gives the empty result. */
  function CheckMinionsSpec(env: Env, expr: TgtExpr, tgtType: string, delim: char, greedy: bool): MatchResult
  {
    match Dispatch(env, expr, tgtType, delim, greedy)
    case Raised => Empty
    case Ok(m) => m
  }

  /** `check_minions`, calling the matchers that walk the cache or scan a compound target. */
  method CheckMinions(env: Env, expr: TgtExpr, tgtType: string, delim: char, greedy: bool) returns (r: MatchResult)
    ensures r == CheckMinionsSpec(env, expr, tgtType, delim, greedy)
  {
    var e := if expr.NoExpr? then Text("") else expr;
    var kind := CacheKindOf(tgtType);
    var res: Outcome<MatchResult>;
    if kind.Some? {
      if e.Text? {
        res := CheckCache(env, QueryFor(kind.value, e.text, delim), greedy);
      } else {
        res := CheckUntypedCache(env, BankOf(kind.value), greedy);
      }
    } else if tgtType == "compound" || tgtType == "compound_pillar_exact" {
      res := CompoundMinions(env, AsCompound(e), greedy, tgtType == "compound_pillar_exact");
    } else if tgtType == "ipcidr" {
      var m := IpcidrMinions(env, if e.Text? then Some(e.text) else None, greedy);
      res := Ok(m);
    } else if tgtType == "nodegroup" && e.Text? {
      var words := NodegroupComp(e.text, env.cfg.nodegroups, null, true);
      res := CompoundMinions(env, CWords(words), greedy, false);
    } else {
      res := Dispatch(env, expr, tgtType, delim, greedy);
    }
    r := if res.Raised? then Empty else res.value;
  }

  /** A type with no matcher of that name, or one that raises, matches nothing. */
  lemma UnknownTypeMatchesNothing(env: Env, expr: TgtExpr, tgtType: string, delim: char, greedy: bool)
    requires CacheKindOf(tgtType).None?
    requires tgtType !in {"compound", "compound_pillar_exact", "glob", "list", "pcre", "ipcidr", "nodegroup"}
    ensures CheckMinionsSpec(env, expr, tgtType, delim, greedy) == Empty
  {
  }

  /**
   * On the master without the data cache, a list of names handed to a
   * cache or IP matcher is never read: a greedy match answers every known
   * id and a strict one nothing. With the cache on, the IP matcher cannot
   * parse it and answers nothing.
   */
  lemma NonStringCacheTarget(env: Env, ws: seq<string>, tgtType: string, delim: char, greedy: bool)
    requires Factory(env.cfg) == Master
    requires CacheKindOf(tgtType).Some? || tgtType == "ipcidr"
    ensures !env.cfg.dataCache ==>
              CheckMinionsSpec(env, Items(ws), tgtType, delim, greedy) == MatchResult(if greedy then Pki(env) else {}, [])
    ensures env.cfg.dataCache && tgtType == "ipcidr" ==> CheckMinionsSpec(env, Items(ws), tgtType, delim, greedy) == Empty
  {
    if tgtType == "ipcidr" {
      assert CacheKindOf(tgtType).None?;
      InvalidIpMatchesNothing(env, None, greedy);
    }
  }

  /** A nodegroup target resolves as the compound target its expansion spells out. */
  lemma NodegroupIsExpandedCompound(env: Env, name: string, delim: char, greedy: bool)
    ensures CheckMinionsSpec(env, Text(name), "nodegroup", delim, greedy) ==
              CheckMinionsSpec(env, Items(Comp(name, env.cfg.nodegroups, {}, true)), "compound", delim, greedy)
  {
    assert CacheKindOf("nodegroup").None? && CacheKindOf("compound").None?;
  }

  /** A list target answers for every listed name: known ones match, the others are reported missing. */
  lemma ListTargetPartition(env: Env, s: string, delim: char, greedy: bool)
    ensures var m := CheckMinionsSpec(env, Text(s), "list", delim, greedy);
            forall x | x in ListItems(s) :: (x in m.minions <==> x in Pki(env)) && (x in m.missing <==> x !in Pki(env))
  {
    assert CacheKindOf("list").None?;
  }

  // ---------------------------------------------------------------------
  // ACL targets
  // ---------------------------------------------------------------------

  /** The target type `_expand_matching` resolves an ACL target's engine with; None for `R`. */
  function ExpandType(e: Option<Engine>): Option<string>
  {
    match e
    case None => Some("compound")
    case Some(G) => Some("grain")
    case Some(P) => Some("grain_pcre")
    case Some(I) => Some("pillar")
    case Some(J) => Some("pillar_pcre")
    case Some(L) => Some("list")
    case Some(S) => Some("ipcidr")
    case Some(E) => Some("pcre")
    case Some(N) => Some("node")
    case Some(R) => None
  }

  /**
   * `_expand_matching`: the ids an ACL target covers, resolved greedily
   * with the default delimiter.
   */
  function ExpandMatching(env: Env, entry: string): set<string>
  {
    var t := ParseTarget(entry);
    match ExpandType(t.engine)
    case None => {}
    case Some(ty) => CheckMinionsSpec(env, Text(t.pattern), ty, ':', true).minions
  }

  /** `R` has no matcher name and `N` maps to the type `node`, which has no matcher: both cover nothing. */
  lemma UnresolvableEnginesCoverNothing(env: Env, entry: string)
    requires ParseTarget(entry).engine == Some(R) || ParseTarget(entry).engine == Some(N)
    ensures ExpandMatching(env, entry) == {}
  {
    var t := ParseTarget(entry);
    if t.engine == Some(N) {
      assert ExpandType(t.engine) == Some("node");
      assert CacheKindOf("node").None?;
      UnknownTypeMatchesNothing(env, Text(t.pattern), "node", ':', true);
      assert ExpandMatching(env, entry) == CheckMinionsSpec(env, Text(t.pattern), "node", ':', true).minions;
    } else {
      assert ExpandType(t.engine).None?;
    }
  }

  method ExpandMatchingRun(env: Env, entry: string) returns (r: set<string>)
    ensures r == ExpandMatching(env, entry)
  {
    var t := ParseTarget(entry);
    var ty := ExpandType(t.engine);
    if ty.None? {
      return {};
    }
    var m := CheckMinions(env, Text(t.pattern), ty.value, ':', true);
    r := m.minions;
  }

  /**
   * `validate_tgt`: the requested ids (given, or resolved from the
   * target with the default delimiter, greedily) must all lie inside what
   * the ACL target covers. The source's extra branch for equal sizes
   * returns the same answer.
   */
  method ValidateTgt(env: Env, valid: string, expr: TgtExpr, tgtType: string, minions: Option<set<string>>)
    returns (ok: bool)
    ensures ok <==> TargetMinions(env, expr, tgtType, minions) <= ExpandMatching(env, valid)
  {
    var vMinions := ExpandMatchingRun(env, valid);
    var ms: set<string>;
    if minions.None? {
      var res := CheckMinions(env, expr, tgtType, ':', true);
      ms := res.minions;
    } else {
      ms := minions.value;
    }
    var dBool := ms - vMinions == {};
    if |vMinions| == |ms| && dBool {
      return true;
    }
    ok := dBool;
  }

  /** The ids a request targets: the ones given, or the ones its target resolves to. */
  function TargetMinions(env: Env, expr: TgtExpr, tgtType: string, minions: Option<set<string>>): set<string>
  {
    if minions.Some? then minions.value else CheckMinionsSpec(env, expr, tgtType, ':', true).minions
  }

  /**
   * An ACL entry scoped to a nodegroup (`N@name`) or a range (`R@…`)
   * admits only requests that target no minion at all.
   */
  lemma UnresolvableScopeAdmitsOnlyEmpty(env: Env, valid: string, expr: TgtExpr, tgtType: string, minions: Option<set<string>>)
    requires ParseTarget(valid).engine == Some(N) || ParseTarget(valid).engine == Some(R)
    ensures TargetMinions(env, expr, tgtType, minions) <= ExpandMatching(env, valid) <==>
              TargetMinions(env, expr, tgtType, minions) == {}
  {
    UnresolvableEnginesCoverNothing(env, valid);
  }
}
