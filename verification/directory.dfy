/**
 * What a minion checker consults: the master options it reads, the minion
 * data cache, and the library predicates whose semantics live outside this
 * module (glob and regular-expression matching, `subdict_match`,
 * `expr_match`, IP address parsing, and the PostgreSQL containment query).
 *
 * Those library predicates are carried as total function values in an
 * `Oracle`, so every statement proved here holds whatever they compute.
 */
module Directory {
  import opened Common
  import opened Nodegroups

  /** The master options the target resolver reads. */
  datatype Config = Config(
    role: string,            // opts['__role']
    cacheBackend: string,    // opts['cache']
    id: string,              // opts['id']
    keys: set<string>,       // names of the accepted-key files in the PKI directory
    dataCache: bool,         // opts['minion_data_cache']
    nodegroups: Groups,      // opts['nodegroups']
    grains: Option<Json>,    // opts['grains'] as a minion sees it; None when it is None
    permissiveAcl: bool      // opts['permissive_acl']
  )

  /** The minion data cache: one bank per kind of data, each mapping minion ids to data. */
  datatype Cache = Cache(banks: map<string, map<string, Json>>)

  /** `cache.list(bank)`: the ids with an entry in the bank. */
  function Listed(c: Cache, bank: string): set<string>
  {
    if bank in c.banks then c.banks[bank].Keys else {}
  }

  /** `cache.fetch(bank, id)`: the stored data, or None. */
  function Fetch(c: Cache, bank: string, id: string): (d: Option<Json>)
    ensures d.Some? <==> id in Listed(c, bank)
  {
    if bank in c.banks && id in c.banks[bank] then Some(c.banks[bank][id]) else None
  }

  /** Library predicates whose semantics are outside the model. */
  datatype Oracle = Oracle(
    fnmatch: (string, string) -> bool,                     // fnmatch.fnmatch(name, pattern)
    reValid: string -> bool,                               // re.compile(pattern) succeeds
    reMatch: (string, string) -> bool,                     // re.match(pattern, s) is not None
    reEscapeChanges: string -> bool,                       // re.escape(s) != s
    subdictMatch: (Json, string, char, bool, bool) -> bool, // subdict_match(data, expr, delimiter, regex_match, exact_match)
    exprMatch: (string, string) -> bool,                   // salt.utils.stringutils.expr_match(line, expr)
    ipFamily: string -> Option<string>,                    // 'ipv4'/'ipv6' for an address or network, None if neither
    ipHit: (string, Json) -> bool,                         // the address is listed, or the network holds a listed address
    pgQuery: seq<Json> -> seq<(string, Json)>              // rows whose data contains one of the fragments
  )

  /** Everything one checker object works from. */
  datatype Env = Env(cfg: Config, cache: Cache, oracle: Oracle)

  /** The three checker classes the factory chooses between. */
  datatype Strategy =
    | Master       // CkMinions
    | SelfScoped   // RemoteCkMinions: a minion checking whether it matches itself
    | BulkQuery    // PgJsonbCkMinions: cache matching pushed into PostgreSQL

  /** `CkMinions.factory`: the minion role wins over the cache backend. */
  function Factory(cfg: Config): (s: Strategy)
    ensures s == SelfScoped <==> cfg.role == "minion"
    ensures s == BulkQuery <==> cfg.role != "minion" && cfg.cacheBackend == "pgjsonb"
  {
    if cfg.role == "minion" then SelfScoped
    else if cfg.cacheBackend == "pgjsonb" then BulkQuery
    else Master
  }

  /**
   * `_pki_minions`: the known minion ids. The master's own id is always
   * included; on a minion only its own id is known.
   */
  function Pki(env: Env): (r: set<string>)
    ensures env.cfg.id in r
    ensures r <= {env.cfg.id} + env.cfg.keys
    ensures Factory(env.cfg) == SelfScoped ==> r == {env.cfg.id}
  {
    if Factory(env.cfg) == SelfScoped then {env.cfg.id} else {env.cfg.id} + env.cfg.keys
  }

  /**
   * One call of the cache matcher: the target expression, its delimiter,
   * the cache bank searched (`grains` or `pillar`) and the two matching
   * flags `subdict_match` takes.
   */
  datatype CacheQuery = CacheQuery(expr: string, delim: char, bank: string, regex: bool, exact: bool)

  /** `subdict_match(data, expr, delimiter=..., regex_match=..., exact_match=...)`. */
  predicate Accepts(o: Oracle, q: CacheQuery, data: Json)
  {
    o.subdictMatch(data, q.expr, q.delim, q.regex, q.exact)
  }

  /** The answer of a minion lookup: the matched ids and, for list targets, the ids not known. */
  datatype MatchResult = MatchResult(minions: set<string>, missing: seq<string>)

  const Empty := MatchResult({}, [])
}
