/**
 * The leaf matchers of `CkMinions`: glob, list and regular-expression
 * matching over the known minion ids, the data-cache matchers (grains,
 * pillar and their regex and exact variants), the IP/CIDR matcher, and the
 * self-scoped cache matcher a minion uses to test itself.
 *
 * The two cache policies differ on ids without cached data: a greedy match
 * keeps every known id the cache cannot rule out, a strict match keeps
 * only ids whose cached data passes the test.
 */
module Matchers {
  import opened Common
  import opened Targets
  import opened Directory
  import opened PgJsonb

  // ---------------------------------------------------------------------
  // Glob, list, regular expression, all
  // ---------------------------------------------------------------------

  /** `_check_glob_minions`: the known ids the shell-style pattern matches. */
  function GlobMinions(env: Env, pattern: string): (r: MatchResult)
    ensures r.missing == [] && r.minions <= Pki(env)
    ensures forall id | id in Pki(env) :: id in r.minions <==> env.oracle.fnmatch(id, pattern)
  {
    MatchResult((set id | id in Pki(env) && env.oracle.fnmatch(id, pattern)), [])
  }

  /** The parts that are not empty, in order. */
  function NonEmpty(parts: seq<string>): (r: seq<string>)
    ensures |r| <= |parts|
    ensures forall x | x in r :: x in parts && x != []
    ensures forall x | x in parts && x != [] :: x in r
  {
    if parts == [] then []
    else (if parts[0] == [] then [] else [parts[0]]) + NonEmpty(parts[1..])
  }

  /** `[m for m in expr.split(',') if m]`: the names of a comma-separated list target. */
  function ListItems(expr: string): (items: seq<string>)
    ensures forall x | x in items :: x != [] && ',' !in x
  {
    NonEmpty(SplitOn(expr, ','))
  }

  /** The items that are not known, in the order given and with repeats kept. */
  function Unknown(items: seq<string>, known: set<string>): (r: seq<string>)
    ensures |r| <= |items|
    ensures forall x :: x in r <==> x in items && x !in known
  {
    if items == [] then []
    else (if items[0] in known then [] else [items[0]]) + Unknown(items[1..], known)
  }

  /** `_check_list_minions` on a list of names. */
  function ListMinions(env: Env, items: seq<string>): (r: MatchResult)
    ensures r.minions <= Pki(env)
    ensures forall x | x in items :: x in r.minions <==> x !in r.missing
    ensures forall x :: x in r.minions || x in r.missing ==> x in items
  {
    MatchResult((set x | x in items && x in Pki(env)), Unknown(items, Pki(env)))
  }

  /**
   * `_check_pcre_minions`: `re.compile` raises on an invalid pattern;
   * otherwise the known ids the pattern matches at their start.
   */
  function PcreMinions(env: Env, pattern: string): (r: Outcome<MatchResult>)
    ensures r.Raised? <==> !env.oracle.reValid(pattern)
    ensures r.Ok? ==> r.value.missing == []
    ensures r.Ok? ==> forall id :: id in r.value.minions <==> id in Pki(env) && env.oracle.reMatch(pattern, id)
  {
    if !env.oracle.reValid(pattern) then Raised
    else Ok(MatchResult((set id | id in Pki(env) && env.oracle.reMatch(pattern, id)), []))
  }

  /** `_all_minions`: every known id. */
  function AllMinions(env: Env): (r: MatchResult)
    ensures env.cfg.id in r.minions && r.missing == []
    ensures forall x :: x in r.minions <==> x in Pki(env)
  {
    MatchResult(Pki(env), [])
  }

  lemma {:induction false} NonEmptyKeeps(parts: seq<string>)
    requires forall p | p in parts :: p != []
    ensures NonEmpty(parts) == parts
    decreases |parts|
  {
    if parts != [] {
      assert forall p | p in parts[1..] :: p in parts;
      NonEmptyKeeps(parts[1..]);
      assert parts[0] in parts;
      assert parts == [parts[0]] + parts[1..];
    }
  }

  lemma {:induction false} JoinAvoids(sep: string, ws: seq<string>, c: char)
    requires c !in sep && forall w | w in ws :: c !in w
    ensures c !in Join(sep, ws)
    decreases |ws|
  {
    if |ws| > 1 {
      assert forall w | w in ws[1..] :: w in ws;
      JoinAvoids(sep, ws[1..], c);
      assert ws[0] in ws;
    }
  }

  /**
   * A legacy nodegroup of plain names is rewritten to `L@a,b,c`; parsing
   * that target gives the list engine, and the list matcher reads back
   * exactly the group's names.
   */
  lemma LegacyListRoundTrip(ws: seq<string>)
    requires ws != [] && forall w | w in ws :: w != [] && ',' !in w && '\n' !in w
    ensures var t := ParseTarget("L@" + Join(",", ws));
            t == Target(Some(L), None, Join(",", ws)) && ListItems(t.pattern) == ws
  {
    var j := Join(",", ws);
    JoinAvoids(",", ws, '\n');
    assert j != [] by {
      assert ws[0] in ws;
      if |ws| > 1 {
        assert j == ws[0] + "," + Join(",", ws[1..]);
      }
    }
    ListTargetParse(j);
    ListItemsJoin(ws);
  }

  lemma ListTargetParse(j: string)
    requires j != [] && '\n' !in j
    ensures ParseTarget("L@" + j) == Target(Some(L), None, j)
  {
    var s := "L@" + j;
    assert s[0] == 'L' && s[1] == '@' && s[2..] == j;
  }

  lemma ListItemsJoin(ws: seq<string>)
    requires ws != [] && forall w | w in ws :: w != [] && ',' !in w
    ensures ListItems(Join(",", ws)) == ws
  {
    assert "," == [','];
    SplitOnJoin(ws, ',');
    NonEmptyKeeps(ws);
  }

  // ---------------------------------------------------------------------
  // Data-cache matching
  // ---------------------------------------------------------------------

  /** What a cache entry is tested against. */
  datatype Test =
    | Subdict(q: CacheQuery)                  // subdict_match on the entry
    | InNetwork(expr: string, proto: string)  // the entry's `ipv4`/`ipv6` grain against an address or network

  predicate Passes(o: Oracle, t: Test, data: Json)
  {
    match t
    case Subdict(q) => Accepts(o, q, data)
    case InNetwork(expr, proto) => data.JObj? && proto in data.fields && o.ipHit(expr, data.fields[proto])
  }

  /** `mdata is None`: the bank has no entry for the id, or the entry holds null. */
  predicate Absent(d: Option<Json>)
  {
    d.None? || d.value == JNull
  }

  /**
   * Whether a cached id survives its visit: an id without data is kept by
   * a greedy match and dropped by a strict one; an id with data is kept
   * exactly when the data passes the test.
   */
  predicate Keeps(env: Env, bank: string, greedy: bool, t: Test, id: string)
  {
    var d := Fetch(env.cache, bank, id);
    if Absent(d) then greedy else Passes(env.oracle, t, d.value)
  }

  function Dropped(env: Env, ids: set<string>, bank: string, greedy: bool, t: Test): set<string>
  {
    set id | id in ids && !Keeps(env, bank, greedy, t, id)
  }

  /**
   * The answer of a data-cache match. Without the minion data cache a
   * greedy match is every known id and a strict match is nothing; with it,
   * the starting set (the known ids, or for a strict match the ids listed
   * in the `grains` bank) loses the listed ids that are not kept.
   */
  function CacheAnswer(env: Env, bank: string, greedy: bool, t: Test): set<string>
  {
    var listed := Listed(env.cache, "grains");
    if !env.cfg.dataCache then (if greedy then Pki(env) else {})
    else (if greedy then Pki(env) else listed) - Dropped(env, listed, bank, greedy, t)
  }

  /**
   * The visiting loop shared by `_check_cache_minions` and
   * `_check_ipcidr_minions`: every listed id is visited once and removed
   * from the working set when it is not kept.
   */
  method Prune(env: Env, base: set<string>, listed: set<string>, bank: string, greedy: bool, t: Test)
    returns (ms: set<string>)
    ensures ms == base - Dropped(env, listed, bank, greedy, t)
  {
    ms := base;
    var todo := listed;
    while todo != {}
      invariant todo <= listed
      invariant ms == base - Dropped(env, listed - todo, bank, greedy, t)
      decreases |todo|
    {
      var id :| id in todo;
      ghost var ms0, todo0 := ms, todo;
      todo := todo - {id};
      ms := PruneId(env, ms, id, bank, greedy, t);
      PruneStep(env, base, listed, todo0, id, bank, greedy, t, ms0, ms);
    }
  }

  /** One listed id: dropped unless the walk keeps it. */
  method PruneId(env: Env, ms: set<string>, id: string, bank: string, greedy: bool, t: Test) returns (r: set<string>)
    ensures r == if Keeps(env, bank, greedy, t, id) then ms else ms - {id}
  {
    r := ms;
    var d := Fetch(env.cache, bank, id);
    if greedy && id !in ms {
    } else if Absent(d) {
      if !greedy {
        r := ms - {id};
      }
    } else if !Passes(env.oracle, t, d.value) {
      r := ms - {id};
    }
  }

  /** One visit of the loop keeps the working set equal to the starting set minus the dropped ids. */
  lemma PruneStep(env: Env, base: set<string>, listed: set<string>, todo: set<string>, id: string,
                  bank: string, greedy: bool, t: Test, ms0: set<string>, ms: set<string>)
    requires id in todo && todo <= listed
    requires ms0 == base - Dropped(env, listed - todo, bank, greedy, t)
    requires ms == if Keeps(env, bank, greedy, t, id) then ms0 else ms0 - {id}
    ensures ms == base - Dropped(env, listed - (todo - {id}), bank, greedy, t)
  {
    DroppedStep(env, listed, todo, id, bank, greedy, t);
  }

  /** Visiting one more id adds it to the dropped ids exactly when it is not kept. */
  lemma DroppedStep(env: Env, listed: set<string>, todo: set<string>, id: string, bank: string, greedy: bool, t: Test)
    requires id in todo && todo <= listed
    ensures Dropped(env, listed - (todo - {id}), bank, greedy, t) ==
              Dropped(env, listed - todo, bank, greedy, t) + (if Keeps(env, bank, greedy, t, id) then {} else {id})
  {
    assert listed - (todo - {id}) == (listed - todo) + {id};
  }

  /** `_check_cache_minions` of the master's checker. */
  method CacheMinions(env: Env, q: CacheQuery, greedy: bool) returns (r: MatchResult)
    ensures r == MatchResult(CacheAnswer(env, q.bank, greedy, Subdict(q)), [])
  {
    var minions: set<string>;
    if greedy {
      minions := Pki(env);
    } else if env.cfg.dataCache {
      minions := Listed(env.cache, "grains");
    } else {
      return Empty;
    }
    if env.cfg.dataCache {
      var cminions := Listed(env.cache, "grains");
      if cminions == {} {
        assert Dropped(env, cminions, q.bank, greedy, Subdict(q)) == {};
        return MatchResult(minions, []);
      }
      minions := Prune(env, minions, cminions, q.bank, greedy, Subdict(q));
    }
    r := MatchResult(minions, []);
  }

  /**
   * A greedy match keeps exactly the known ids that are not listed in the
   * cache, have no data (no entry, or null) in the searched bank, or pass
   * the test.
   */
  lemma GreedyCacheMembers(env: Env, bank: string, t: Test, id: string)
    ensures id in CacheAnswer(env, bank, true, t) <==>
              id in Pki(env) &&
              (!env.cfg.dataCache || id !in Listed(env.cache, "grains") ||
               Absent(Fetch(env.cache, bank, id)) || Passes(env.oracle, t, Fetch(env.cache, bank, id).value))
  {
  }

  /**
   * A strict match keeps exactly the ids listed in the cache whose entry
   * in the searched bank holds data (not null) that passes the test; such
   * an id need not be a known (accepted) minion.
   */
  lemma StrictCacheMembers(env: Env, bank: string, t: Test, id: string)
    ensures id in CacheAnswer(env, bank, false, t) <==>
              env.cfg.dataCache && id in Listed(env.cache, "grains") &&
              !Absent(Fetch(env.cache, bank, id)) && Passes(env.oracle, t, Fetch(env.cache, bank, id).value)
  {
  }

  /** On the known ids, a strict match is never wider than a greedy one. */
  lemma StrictWithinGreedy(env: Env, bank: string, t: Test)
    ensures CacheAnswer(env, bank, false, t) * Pki(env) <= CacheAnswer(env, bank, true, t)
  {
    forall id | id in CacheAnswer(env, bank, false, t) * Pki(env)
      ensures id in CacheAnswer(env, bank, true, t)
    {
      StrictCacheMembers(env, bank, t, id);
      GreedyCacheMembers(env, bank, t, id);
    }
  }

  /**
   * Whether the walk hands the id's data to `subdict_match`: the id is not
   * skipped (a greedy walk skips ids that are not known) and has data.
   */
  predicate Tested(env: Env, bank: string, greedy: bool, id: string)
  {
    (!greedy || id in Pki(env)) && !Absent(Fetch(env.cache, bank, id))
  }

  /** Whether the master's cache walk calls `subdict_match` at all. */
  predicate WalkTests(env: Env, bank: string, greedy: bool)
  {
    env.cfg.dataCache && exists id | id in Listed(env.cache, "grains") :: Tested(env, bank, greedy, id)
  }

  /**
   * The master's cache walk handed an expression that is not a string.
   * `subdict_match` splits the expression, so the first entry tested
   * raises; a walk that tests nothing answers every known id when greedy
   * and nothing when strict.
   */
  function UntypedWalk(env: Env, bank: string, greedy: bool): (r: Outcome<MatchResult>)
    ensures r.Raised? <==> WalkTests(env, bank, greedy)
  {
    if WalkTests(env, bank, greedy) then Raised
    else Ok(MatchResult(if greedy then Pki(env) else {}, []))
  }

  /** `_check_cache_minions` of the master's checker, for an expression that is not a string. */
  method UntypedCacheMinions(env: Env, bank: string, greedy: bool) returns (r: Outcome<MatchResult>)
    ensures r == UntypedWalk(env, bank, greedy)
  {
    var minions: set<string>;
    if greedy {
      minions := Pki(env);
    } else if env.cfg.dataCache {
      minions := Listed(env.cache, "grains");
    } else {
      return Ok(Empty);
    }
    if env.cfg.dataCache {
      var cminions := Listed(env.cache, "grains");
      if cminions == {} {
        return Ok(MatchResult(minions, []));
      }
      var todo := cminions;
      while todo != {}
        invariant todo <= cminions
        invariant forall id | id in cminions - todo :: !Tested(env, bank, greedy, id)
        invariant minions == if greedy then Pki(env) else todo
        decreases |todo|
      {
        var id :| id in todo;
        todo := todo - {id};
        if !greedy || id in minions {
          if !Absent(Fetch(env.cache, bank, id)) {
            assert Tested(env, bank, greedy, id);
            return Raised;
          }
          if !greedy {
            minions := minions - {id};
          }
        }
      }
    }
    r := Ok(MatchResult(minions, []));
  }

  /**
   * A walk that tests no entry ignores the expression: the answer for any
   * string expression is the one the walk gives a non-string one.
   */
  lemma UntestedWalkAgrees(env: Env, bank: string, greedy: bool, t: Test)
    requires !WalkTests(env, bank, greedy)
    ensures UntypedWalk(env, bank, greedy) == Ok(MatchResult(CacheAnswer(env, bank, greedy, t), []))
  {
    if env.cfg.dataCache {
      var listed := Listed(env.cache, "grains");
      var dropped := Dropped(env, listed, bank, greedy, t);
      if greedy {
        forall id | id in dropped
          ensures id !in Pki(env)
        {
          assert !Tested(env, bank, greedy, id);
        }
        assert Pki(env) - dropped == Pki(env);
      } else {
        forall id | id in listed
          ensures id in dropped
        {
          assert !Tested(env, bank, greedy, id);
        }
        assert listed - dropped == {};
      }
    }
  }

  /** The five cache matchers differ only in the bank searched and the matching flags. */
  datatype CacheKind = Grain | GrainPcre | Pillar | PillarPcre | PillarExact

  /** The bank a cache matcher searches. */
  function BankOf(kind: CacheKind): string
  {
    if kind == Grain || kind == GrainPcre then "grains" else "pillar"
  }

  /** `_check_grain_minions` … `_check_pillar_exact_minions`: the query each one makes. */
  function QueryFor(kind: CacheKind, expr: string, delim: char): (q: CacheQuery)
    ensures q.expr == expr && q.delim == delim
    ensures q.bank == BankOf(kind)
    ensures q.regex <==> kind == GrainPcre || kind == PillarPcre
    ensures q.exact <==> kind == PillarExact
  {
    match kind
    case Grain => CacheQuery(expr, delim, "grains", false, false)
    case GrainPcre => CacheQuery(expr, delim, "grains", true, false)
    case Pillar => CacheQuery(expr, delim, "pillar", false, false)
    case PillarPcre => CacheQuery(expr, delim, "pillar", true, false)
    case PillarExact => CacheQuery(expr, delim, "pillar", false, true)
  }

  // ---------------------------------------------------------------------
  // IP/CIDR
  // ---------------------------------------------------------------------

  /**
   * The address family of an IP/CIDR target, None when `ipaddress` parses
   * it neither as an address nor as a network. An expression that is not a
   * string (None here) is rejected by both.
   */
  function IpFamily(env: Env, expr: Option<string>): Option<string>
  {
    if expr.Some? then env.oracle.ipFamily(expr.value) else None
  }

  /**
   * The answer of `_check_ipcidr_minions`: with the data cache on, a target
   * that is neither an address nor a network matches nothing, greedy or
   * not; otherwise the `ipv4`/`ipv6` grain named by the target's family is
   * tested. Without the cache the target is never read.
   */
  function IpcidrAnswer(env: Env, expr: Option<string>, greedy: bool): set<string>
  {
    if !env.cfg.dataCache then (if greedy then Pki(env) else {})
    else match IpFamily(env, expr)
      case None => {}
      case Some(proto) => CacheAnswer(env, "grains", greedy, InNetwork(expr.value, proto))
  }

  /** `_check_ipcidr_minions`, with `expr` None for an expression that is not a string. */
  method IpcidrMinions(env: Env, expr: Option<string>, greedy: bool) returns (r: MatchResult)
    ensures r == MatchResult(IpcidrAnswer(env, expr, greedy), [])
  {
    var minions: set<string>;
    if greedy {
      minions := Pki(env);
    } else if env.cfg.dataCache {
      minions := Listed(env.cache, "grains");
    } else {
      return Empty;
    }
    if env.cfg.dataCache {
      var cminions := Listed(env.cache, "grains");
      var family := IpFamily(env, expr);
      if family.None? {
        return Empty;
      }
      minions := Prune(env, minions, cminions, "grains", greedy, InNetwork(expr.value, family.value));
    }
    r := MatchResult(minions, []);
  }

  /**
   * With the data cache on, a malformed IP target, or one that is not a
   * string, matches nothing even greedily; without the cache the target is
   * never read, and a greedy match is every known id.
   */
  lemma InvalidIpMatchesNothing(env: Env, expr: Option<string>, greedy: bool)
    requires expr.None? || env.oracle.ipFamily(expr.value).None?
    ensures env.cfg.dataCache ==> IpcidrAnswer(env, expr, greedy) == {}
    ensures !env.cfg.dataCache ==> IpcidrAnswer(env, expr, greedy) == (if greedy then Pki(env) else {})
  {
  }

  /**
   * A greedy IP match keeps a known id whose grains carry no entry for the
   * target's address family, and a strict one drops it.
   */
  lemma MissingFamilyGrain(env: Env, expr: string, id: string, proto: string)
    requires env.cfg.dataCache && env.oracle.ipFamily(expr) == Some(proto)
    requires id in Pki(env) && id in Listed(env.cache, "grains")
    requires var d := Fetch(env.cache, "grains", id); d.value.JObj? && proto !in d.value.fields
    ensures id !in IpcidrAnswer(env, Some(expr), true)
    ensures id !in IpcidrAnswer(env, Some(expr), false)
  {
    GreedyCacheMembers(env, "grains", InNetwork(expr, proto), id);
    StrictCacheMembers(env, "grains", InNetwork(expr, proto), id);
  }

  // ---------------------------------------------------------------------
  // The self-scoped cache matcher of a minion
  // ---------------------------------------------------------------------

  /**
   * `RemoteCkMinions._check_cache_minions`: a minion tests the entry named
   * by the bank inside its own grains. Grains set to None match nothing;
   * grains that are not a mapping have no `get` and raise; a failed test
   * leaves the result variable unbound and raises too.
   */
  function RemoteCacheMinions(env: Env, q: CacheQuery): (r: Outcome<MatchResult>)
    ensures r.Ok? ==> r.value.missing == [] && r.value.minions <= {env.cfg.id}
    ensures r == Ok(MatchResult({env.cfg.id}, [])) <==>
              env.cfg.grains.Some? && env.cfg.grains.value.JObj? &&
              Accepts(env.oracle, q, Get(env.cfg.grains.value, q.bank))
    ensures r.Raised? <==>
              env.cfg.grains.Some? &&
              (!env.cfg.grains.value.JObj? || !Accepts(env.oracle, q, Get(env.cfg.grains.value, q.bank)))
  {
    match env.cfg.grains
    case None => Ok(Empty)
    case Some(md) =>
      if !md.JObj? then Raised
      else if Accepts(env.oracle, q, Get(md, q.bank)) then Ok(MatchResult({env.cfg.id}, []))
      else Raised
  }

  /**
   * `_check_cache_minions` as the factory dispatches it: the master walks
   * its cache, a minion tests itself, and the bulk-query checker asks the
   * database (with its second pass corrected as `BulkMinions` states).
   */
  function CacheOutcome(env: Env, q: CacheQuery, greedy: bool): (r: Outcome<MatchResult>)
    ensures Factory(env.cfg) == Master ==> r == Ok(MatchResult(CacheAnswer(env, q.bank, greedy, Subdict(q)), []))
    ensures Factory(env.cfg) == SelfScoped ==> r == RemoteCacheMinions(env, q)
    ensures Factory(env.cfg) == BulkQuery ==>
              r == match BulkMinions(env, q, greedy)
                   case Raised => Raised
                   case Ok(ids) => Ok(MatchResult(ids, []))
  {
    match Factory(env.cfg)
    case Master => Ok(MatchResult(CacheAnswer(env, q.bank, greedy, Subdict(q)), []))
    case SelfScoped => RemoteCacheMinions(env, q)
    case BulkQuery =>
      var b := BulkMinions(env, q, greedy);
      if b.Raised? then Raised else Ok(MatchResult(b.value, []))
  }

  method CheckCache(env: Env, q: CacheQuery, greedy: bool) returns (r: Outcome<MatchResult>)
    ensures r == CacheOutcome(env, q, greedy)
  {
    match Factory(env.cfg)
    case Master =>
      var m := CacheMinions(env, q, greedy);
      r := Ok(m);
    case SelfScoped =>
      r := RemoteCacheMinions(env, q);
    case BulkQuery =>
      var b := BulkCacheMinions(env, q, greedy);
      r := if b.Raised? then Raised else Ok(MatchResult(b.value, []));
  }

  /**
   * `_check_cache_minions` as the factory dispatches it, handed an
   * expression that is not a string: the master walk raises only if it
   * tests an entry, a minion whose grains are None answers nothing before
   * reading the expression (and otherwise raises in `get` or
   * `subdict_match`), and the bulk-query checker raises at `expr.split`.
   */
  function UntypedCacheOutcome(env: Env, bank: string, greedy: bool): (r: Outcome<MatchResult>)
    ensures Factory(env.cfg) == Master ==> r == UntypedWalk(env, bank, greedy)
    ensures Factory(env.cfg) == SelfScoped ==> (r.Raised? <==> env.cfg.grains.Some?)
    ensures Factory(env.cfg) == BulkQuery ==> r.Raised?
    ensures r.Ok? ==> r.value.missing == [] && r.value.minions <= Pki(env)
  {
    match Factory(env.cfg)
    case Master => UntypedWalk(env, bank, greedy)
    case SelfScoped => if env.cfg.grains.None? then Ok(Empty) else Raised
    case BulkQuery => Raised
  }

  method CheckUntypedCache(env: Env, bank: string, greedy: bool) returns (r: Outcome<MatchResult>)
    ensures r == UntypedCacheOutcome(env, bank, greedy)
  {
    match Factory(env.cfg)
    case Master =>
      r := UntypedCacheMinions(env, bank, greedy);
    case SelfScoped =>
      r := if env.cfg.grains.None? then Ok(Empty) else Raised;
    case BulkQuery =>
      r := Raised;
  }
}
