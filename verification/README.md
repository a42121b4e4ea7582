# Minion targeting and publish authorization

This project models the part of Salt that turns a target into the set of
minion ids a command reaches, and that decides whether a user may publish
a command. Both live in `salt/utils/minions.py`:

- **Parsing a target expression.** `parse_target` splits `[ENGINE[DELIM]@]pattern`.
- **Nodegroup expansion.** `nodegroup_comp` expands a nodegroup, guarding against cycles.
- **Leaf matchers.** These are the glob, list, regex, grain, pillar and IP-network matchers. Their results depend on:
  - the accepted minion keys;
  - the minion data cache;
  - the *greedy* and *strict* cache policies.
- **Compound evaluation.** The compound matcher builds a Python set expression from the words of a compound target and evaluates it.
- **`check_minions`.** This entry point turns every exception into an empty result.
- **Three checker variants.**
  - The master's checker walks its cache.
  - A minion's checker tests only itself.
  - The PostgreSQL JSONB checker queries the database.
- **Authorization.**
  - `validate_tgt`, `match_check`, `auth_check` and the function and argument conditions.
  - `spec_check`, the check for wheel, runner and cloud calls.
  - The assembly of a user's ACL from principal, group and `*` keys.

Three choices shape the model:

- **Opaque library predicates.** These are shell globbing, regex compilation and matching, `subdict_match`, `expr_match`, IP parsing and the SQL query. They are fields of an `Oracle` value, so every statement holds for any behaviour of those predicates.
- **The directory state.** The configuration, the accepted keys and the cache contents form a `Directory.Env` value.
- **Exceptions.** An exception that propagates is `Outcome.Raised`.

Loops that change state are methods proved against specification functions, for example:

- the stack scan of the compound matcher;
- the cache pruning loops;
- the token-prefix loop and the second pass of the JSONB checker;
- the ACL walks of `auth_check`, `__fun_check` and `__args_check`;
- the filling of the ACL list.

Nodegroup expansion uses a shared `skip` set. It is a method over a `NameSet` object, proved equal to a recursive function.

Two places where the code and its documentation disagree follow the code:

- **`and` and `or` have different precedence.** The compound matcher emits Python's `|` and `&`, so `and` binds tighter than `or`.
- **`R@` raises inside a compound target.** Its handler `_all_minions` accepts one argument but is called with two. The resulting `TypeError` makes the whole compound target match nothing. It does not match every minion.

## Model

| member | source | states |
|---|---|---|
| Targets.ParseTarget | salt/utils/minions.py:42-68 | When the optional prefix does not match, engine and delimiter are None and the pattern is the whole input (less one trailing newline). An engine is one of the nine letters, and a delimiter appears only after G, P, I or J |
| Targets.NoMatchFallback | salt/utils/minions.py:57-64 | An input the expression cannot match at all (such as the empty string) parses to engine None, delimiter None and the input as pattern |
| Targets.RenderParse | salt/utils/minions.py:42-68 | Writing a parsed target back in prefix form gives the original text, for text without newlines |
| Targets.ParseRender | salt/utils/minions.py:42-68 | A target with an engine, a legal delimiter and a non-empty pattern parses back to itself after being written out |
| Targets.ParseUnprefixedExamples | salt/utils/minions.py:42-68 | Example: `foo*` has no engine and is its own pattern. `L@` is too short for an engine prefix and stays a bare pattern |
| Targets.ParseGrainExample | salt/utils/minions.py:42-68 | Example: `G@os:Debian` has engine G, no delimiter and pattern `os:Debian` |
| Targets.ParseDelimitedExample | salt/utils/minions.py:42-68 | Example: `G\|@os\|Debian` has engine G, delimiter `\|` and pattern `os\|Debian` |
| Nodegroups.Comp | salt/utils/minions.py:94-182 | An expansion never contains a nested `N@` reference. A name already being expanded, an unknown name, or a definition that is neither string nor list gives nothing. A nested result is empty or wrapped in `(` … `)` |
| Nodegroups.NodegroupComp | salt/utils/minions.py:94-182 | The imperative expansion over the shared `skip` set returns what `Comp` defines and leaves `skip` as it found it |
| Nodegroups.ExpandWords | salt/utils/minions.py:125-135 | The loop over a group's words builds what `CompWords` defines, reports whether any word was a reference, and leaves the shared `skip` set as it found it |
| Nodegroups.CycleCut | salt/utils/minions.py:102-141 | A group whose words all refer back to groups being expanded expands to nothing |
| Nodegroups.VisitedRefsVanish | salt/utils/minions.py:102-135 | References to groups already on the expansion path contribute no words |
| Nodegroups.MutualCycle | salt/utils/minions.py:102-141 | Example: two groups that refer to each other expand to nothing, and the expansion terminates |
| Nodegroups.PlainWordsWrapped | salt/utils/minions.py:126-135 | Words that are not references pass through expansion unchanged |
| Nodegroups.ExpansionShape | salt/utils/minions.py:123-182 | A group without references expands to its words in parentheses on a nested call. On the first call it becomes the legacy single `L@`/`E@` word, or stays as its words |
| Matchers.GlobMinions | salt/utils/minions.py:245-250 | A known id is matched exactly when the shell pattern matches it, and nothing is reported missing |
| Matchers.ListItems | salt/utils/minions.py:256-257 | The names of a comma-separated list are non-empty and contain no comma |
| Matchers.ListMinions | salt/utils/minions.py:252-260 | Every listed name is either matched (it is known) or reported missing, never both, and nothing unlisted appears |
| Matchers.Unknown | salt/utils/minions.py:259-260 | The missing names are exactly the listed names that are not known, in order |
| Matchers.NonEmptyKeeps | salt/utils/minions.py:257 | Dropping empty parts keeps a list without empty parts unchanged |
| Matchers.LegacyListRoundTrip | salt/utils/minions.py:177-182 | The legacy `L@a,b,…` word parses as a list target whose items are exactly the original words |
| Matchers.ListTargetParse | salt/utils/minions.py:42-68 | `L@` followed by a newline-free non-empty text parses with engine L, no delimiter and that text as pattern |
| Matchers.ListItemsJoin | salt/utils/minions.py:256-257 | Splitting a comma-joined list of comma-free, non-empty names gives those names back |
| Matchers.PcreMinions | salt/utils/minions.py:262-268 | An invalid pattern raises. Otherwise the matches are exactly the known ids the pattern matches at their start |
| Matchers.AllMinions | salt/utils/minions.py:270-274 | Every known id, including the master's own, and nothing missing |
| Matchers.Prune | salt/utils/minions.py:344-360 | Removing the ids the cache walk rejects leaves the starting set minus exactly the rejected listed ids |
| Matchers.PruneId | salt/utils/minions.py:346-358 | One listed id is removed exactly when the walk does not keep it. An id without data (no entry, or a stored null) is removed only by a strict walk. An id with data is removed when the data fails the test |
| Matchers.CacheMinions | salt/utils/minions.py:309-362 | The greedy or strict cache answer for the query's bank and subdict test, with nothing missing. A stored null counts as no data |
| Matchers.UntypedCacheMinions | salt/utils/minions.py:309-362 | For an expression that is not a string, the walk raises exactly when it reaches an id it does not skip and that has data. Otherwise it answers every known id when greedy and nothing when strict, with or without the cache |
| Matchers.UntestedWalkAgrees | salt/utils/minions.py:321-362 | A walk that tests no entry gives the same answer for a non-string expression as for any string one |
| Matchers.UntypedCacheOutcome | salt/utils/minions.py:1187-1211 | With a non-string expression, a minion whose grains are None answers nothing and otherwise raises. The bulk-query checker always raises. The master walks its cache as `UntypedWalk` states |
| Matchers.CheckUntypedCache | salt/utils/minions.py:227-235 | The factory's cache matcher handed a non-string expression returns what `UntypedCacheOutcome` defines |
| Matchers.GreedyCacheMembers | salt/utils/minions.py:321-362 | A greedy match keeps a known id unless the cache is on, lists it, and holds non-null data that fails the test. No entry, or a stored null, never excludes it |
| Matchers.StrictCacheMembers | salt/utils/minions.py:321-362 | A strict match keeps exactly the cached ids whose entry exists, is not null and passes the test. With the cache off it is empty |
| Matchers.StrictWithinGreedy | salt/utils/minions.py:321-362 | On known ids, the strict answer is contained in the greedy one |
| Matchers.QueryFor | salt/utils/minions.py:364-404 | Grain matchers search the `grains` bank and pillar matchers the `pillar` bank. Only the `_pcre` variants match by regex, and only `pillar_exact` matches exactly |
| Matchers.IpcidrMinions | salt/utils/minions.py:406-461 | The IP-network matcher returns the greedy or strict answer of testing cached grains for the network, with nothing missing. Grains that are null count as no data |
| Matchers.InvalidIpMatchesNothing | salt/utils/minions.py:410-440 | With the cache on, an expression that is neither an address nor a network, or is not a string, matches no minion. Without the cache it is never read: greedy gives every known id, strict nothing |
| Matchers.MissingFamilyGrain | salt/utils/minions.py:443-458 | A cached minion whose grains lack the address family's key is dropped from both greedy and strict answers |
| Matchers.RemoteCacheMinions | salt/utils/minions.py:1187-1210 | On a minion, the answer contains at most the minion itself. It is exactly itself when its grains pass the test. It raises when they fail or are not a mapping, and it is empty when there are no grains |
| Matchers.CheckCache | salt/utils/minions.py:227-235 | The cache matcher the factory selects: master cache walk, self-test on a minion, or the JSONB bulk query with its second pass corrected (see Findings) |
| Directory.Factory | salt/utils/minions.py:227-235 | A minion gets the self-testing checker. A master with the `pgjsonb` cache gets the bulk-query checker, and every other master the cache-walking one |
| Directory.Pki | salt/utils/minions.py:276-307 | The known ids always include the own id and are drawn from the accepted keys. On a minion they are the minion alone |
| Directory.Fetch | salt/utils/minions.py:349-353 | Cache data for an id exists exactly when the bank lists the id |
| PgJsonb.FragmentCount | salt/utils/minions.py:1274-1302 | The containment fragments for n tokens number 2 for one token and 6·2^(n-2) from two on |
| PgJsonb.FragmentsRootedAtFirst | salt/utils/minions.py:1274-1302 | From two tokens on, every fragment is an object keyed by the first token alone |
| PgJsonb.FirstInexact | salt/utils/minions.py:1307-1319 | The tokens before the returned position can be matched by the database, and the token at it (if any) needs Python matching |
| PgJsonb.ExactTokens | salt/utils/minions.py:1307-1321 | Popping tokens while they can be matched exactly yields the exact prefix and the remaining tokens |
| PgJsonb.SecondPass | salt/utils/minions.py:1332-1340 | The second pass removes from the hits every id of a returned row whose data fails the test. An id removed twice raises, as `set.remove` does |
| PgJsonb.BulkCacheMinions | salt/utils/minions.py:1220-1348 | The bulk-query matcher returns the corrected combination of query hits, known ids and cached ids (see Findings) |
| PgJsonb.BulkMinions | salt/utils/minions.py:1320-1348 | The bulk answer is defined from the exact token prefix and is refiltered exactly when some token needs Python matching |
| PgJsonb.RejectedHasRow | salt/utils/minions.py:1332-1340 | Every returned row whose data fails the test has its id among the rejected ids |
| PgJsonb.StrictHitsPassSubdict | salt/utils/minions.py:1320-1348 | With a token that needs Python matching, every strict hit is a known id returned by the query, and every row for it passes the test |
| PgJsonb.ExactQueryStrict | salt/utils/minions.py:1320-1348 | When every token can be matched exactly, the strict answer is the known ids among the query hits |
| PgJsonb.GreedyKeepsUncached | salt/utils/minions.py:1341-1348 | The greedy answer keeps every known id the cache does not list, and never adds a cached id that is not known |
| PgJsonb.GlobLastTokenUnfiltered | salt/utils/minions.py:1307-1348 | For `role:web*` with a test that rejects the only row, the code as written answers `web1`, while the corrected matcher answers nothing |
| PgJsonb.WrittenBulkMinions | salt/utils/minions.py:1320-1348 | The code as written refilters only when tokens remain after the exact prefix (see Findings); its behaviour is stated by `GlobLastTokenUnfiltered` |
| SetExprs.EvalWithinLiterals | salt/utils/minions.py:640-648 | The value of a set expression lies within the union of the sets written in it |
| SetExprs.EvalRender | salt/utils/minions.py:640-648 | Any expression written out fully parenthesised evaluates to its meaning |
| SetExprs.AndBeforeOr | salt/utils/minions.py:640-648 | `a \| b & c` evaluates to a ∪ (b ∩ c): `and` binds tighter than `or` |
| SetExprs.MinusBeforeAnd | salt/utils/minions.py:640-648 | `a & b - c` evaluates to a ∩ (b − c): difference binds tighter than intersection |
| SetExprs.MinusLeftAssoc | salt/utils/minions.py:640-648 | `a - b - c` evaluates to (a − b) − c |
| Compound.EngineMatch | salt/utils/minions.py:517-531 | `R@` raises (its handler takes one argument and is called with two). `L@` is the list matcher on the comma-separated names |
| Compound.CompoundMinions | salt/utils/minions.py:501-651 | The imperative compound matcher returns what `CompoundSpec` defines. An expression that is neither text nor a word list matches nothing. Without the data cache on a master it returns every known id. A refused word sequence matches nothing, a raising leaf makes the target raise, and otherwise the result is the evaluation of the built expression with the missing list names |
| Compound.RunScan | salt/utils/minions.py:532-636 | The word loop ends with exactly the outcome `Scan` defines: refused, raised, or the tokens, open groups and missing names it has built |
| Compound.RunLeaf | salt/utils/minions.py:606-627 | One engine word is matched through the engine's handler with its pattern, delimiter and greediness |
| Compound.OperStep | salt/utils/minions.py:547-596 | Operator words never change the missing names |
| Compound.RefCountAppend | salt/utils/minions.py:599-604 | Splicing in a nodegroup's expansion, which has no references, leaves only the references still to be read |
| Compound.NodegroupWordIsRef | salt/utils/minions.py:599-604 | A word with the `N` engine is a nodegroup reference |
| Compound.ScanBalanced | salt/utils/minions.py:542-638 | A completed scan leaves one pending closer for every unclosed `(` or `not`, and the appended closers balance the expression |
| Compound.NotIsComplement | salt/utils/minions.py:583-587 | `not w` matches the known ids the glob `w` does not match |
| Compound.OrOfAnd | salt/utils/minions.py:559-562 | `a or b and c` matches a ∪ (b ∩ c) of the three globs |
| Compound.MisplacedOperatorRefused | salt/utils/minions.py:547-596 | A leading `and`/`or`, a leading `)`, or `and`/`or` right after `(` gives the empty result |
| Compound.UnexpectedCloseRefused | salt/utils/minions.py:566-571 | A `)` that does not close a `(` gives the empty result |
| Compound.OpenParenClosed | salt/utils/minions.py:638 | An unclosed `(` is closed before evaluation: `( w` matches what `w` matches |
| Compound.RangeTargetRaises | salt/utils/minions.py:517-622 | A compound target starting with an `R@` word raises |
| Compound.InactiveMatchesAll | salt/utils/minions.py:512-651 | Without the data cache on a master, any text or word list matches every known id |
| Resolver.CheckMinions | salt/utils/minions.py:693-731 | The entry point dispatches on the target type. A non-string expression reaches the cache and IP matchers, which read it only when testing cached data. An unknown type or any raised exception gives the empty result |
| Resolver.NonStringCacheTarget | salt/utils/minions.py:321-440 | On the master without the data cache, a list handed to a cache or IP matcher gives every known id when greedy and nothing when strict. With the cache on, the IP matcher answers nothing for it |
| Resolver.UnknownTypeMatchesNothing | salt/utils/minions.py:705-731 | A target type without a matcher matches nothing |
| Resolver.NodegroupIsExpandedCompound | salt/utils/minions.py:237-243 | A nodegroup target resolves as the compound target of its expansion |
| Resolver.ListTargetPartition | salt/utils/minions.py:252-260 | Each name of a list target is matched exactly when it is known and reported missing exactly when it is not |
| Resolver.UnresolvableEnginesCoverNothing | salt/utils/minions.py:733-753 | An ACL target with a nodegroup or range engine covers no minion |
| Resolver.ExpandMatchingRun | salt/utils/minions.py:733-753 | The ids an ACL target covers, resolved greedily with its engine's matcher |
| Resolver.ValidateTgt | salt/utils/minions.py:755-781 | True exactly when the requested ids (given, or resolved from the target) are a subset of the ids the ACL target covers |
| Resolver.UnresolvableScopeAdmitsOnlyEmpty | salt/utils/minions.py:733-781 | An ACL target scoped by nodegroup or range admits only requests that reach no minion |
| Auth.MatchCheck | salt/utils/minions.py:783-800 | True exactly when there is at least one name and the pattern is valid and matches every name. An empty list or an invalid pattern is false |
| Auth.PositionalCheck | salt/utils/minions.py:1147-1159 | Every positional condition has an argument at its index, and a None condition accepts anything. Extra arguments are allowed |
| Auth.KeywordCheck | salt/utils/minions.py:1160-1170 | Every keyword condition names a present keyword argument, and a None condition accepts anything |
| Auth.ArgsCheck | salt/utils/minions.py:1136-1173 | True exactly when some mapping condition accepts both the positional and the keyword arguments. Non-mapping conditions are skipped |
| Auth.FunCheck | salt/utils/minions.py:1114-1134 | True exactly when some string condition matches the function, or some one-key mapping's key matches it and its argument conditions accept the call |
| Auth.SplitCall | salt/utils/minions.py:1001-1007 | A trailing mapping holding `__kwarg__` becomes the keyword arguments and leaves the positional ones. Otherwise all arguments are positional |
| Auth.KwargSplit | salt/utils/minions.py:1001-1007 | A call ending in a `__kwarg__` mapping is split into the preceding arguments and that mapping |
| Auth.Lower | salt/utils/minions.py:960-962 | Lower-casing keeps the length and maps only `A`–`Z` |
| Auth.EntryCheck | salt/utils/minions.py:984-1010 | A string entry allows the call when it matches the function on every minion. A one-key mapping allows it when the request stays within its target and a function condition accepts the call. Other entries never allow |
| Auth.DictEntryCheck | salt/utils/minions.py:989-1008 | A mapping entry allows the call exactly when it has one key, the requested minions lie inside that key's target, and one of its function conditions accepts the call |
| Auth.EntriesCheck | salt/utils/minions.py:984-1010 | True exactly when some entry of the ACL allows the call |
| Auth.PublishValidate | salt/utils/minions.py:958-977 | Refuses exactly when publish validation is on and the requested target reaches minions its exact-pillar reading does not; otherwise it gives the minion set the checks run on |
| Auth.AuthCheck | salt/utils/minions.py:941-1013 | Under publish validation, the request is refused when its target reaches minions the exact-pillar reading does not. Otherwise it is granted exactly when some requested function is whitelisted or allowed by some entry on the requested minions |
| Auth.PublishMismatchDenies | salt/utils/minions.py:958-975 | Pillar globbing that reaches beyond the exact match refuses the publish |
| Auth.ScopeNarrowing | salt/utils/minions.py:995-999 | An entry that allows a call on some minions allows it on every subset of them |
| Auth.MoreEntriesNeverRevoke | salt/utils/minions.py:981-1013 | Adding ACL entries never turns a grant into a refusal |
| Auth.SpecCheck | salt/utils/minions.py:1078-1112 | An empty ACL denies. Outside `cloud`, a name without exactly one dot draws the syntax hint. An empty entry or target name raises. Otherwise the first entry naming the module, the form or every function of the form (with passing function conditions) grants |
| Auth.WheelCheck | salt/utils/minions.py:1066-1070 | The special check for the `wheel` form |
| Auth.RunnerCheck | salt/utils/minions.py:1072-1076 | The special check for the `runner` form |
| Auth.SpecGrantNamesCall | salt/utils/minions.py:1096-1112 | A grant always comes from an entry named `@module`, `@form` or `@forms` |
| Auth.BadFunctionName | salt/utils/minions.py:1084-1091 | With a non-empty ACL outside `cloud`, a function name without a dot draws the syntax hint |
| Auth.FormWildcardGrants | salt/utils/minions.py:1096-1100 | An `@wheels`-style first entry grants every `module.function` call of that form |
| Auth.MasterRewrite | salt/utils/minions.py:1059-1062 | An entry scoped to `@master` is rescoped to the master's id with the same conditions, and no `@master` scope remains. Other entries are unchanged |
| Auth.FillAuthList | salt/utils/minions.py:1029-1064 | The list grows by the eligible entries in key order, then every `@master` scope in it is rewritten. A permissiveness of None defers to the master option |
| Auth.CollectEligible | salt/utils/minions.py:1042-1055 | The scan over the provider's keys appends to the given list exactly the eligible entries: the group and name matches in key order, then the `*` entries when the ACL is not permissive and no name matched |
| Auth.RewriteMasters | salt/utils/minions.py:1059-1062 | Every dictionary entry scoped to `@master` is rescoped to the master's own id; every other entry is kept |
| Auth.FillAuthListFromGroups | salt/utils/minions.py:1015-1027 | The list grows by the entries of every `group%` key whose group the user is in, in key order |
| Auth.GroupsOnlyAgree | salt/utils/minions.py:1015-1055 | When no principal key matches the user and there is no `*` key, the full fill collects exactly the group entries |
| Auth.CollectedGroupsOnly | salt/utils/minions.py:1043-1055 | When no key matches the user by name and no key is `*`, the scan collects exactly the group entries and records no match |
| Auth.StarOnlyAsFallback | salt/utils/minions.py:1042-1055 | In a non-permissive ACL, a user some principal key matched gets no `*` entries |
| Auth.NoMasterTargetLeft | salt/utils/minions.py:1056-1062 | After the rewrite no entry is scoped to `@master` |

## Left out

- `auth_check_expanded` (the opt-in `auth.enable_expanded_auth_matching` path) is not modelled. `auth_check` is modelled with that option off.
- Auth.AuthCheck: catching `TypeError` and answering False is not modelled. The model's types rule out the malformed arguments that raise it. Its precondition asks for one argument list per function, where a shorter list would raise `IndexError`. A single function name is passed as a one-element list, as the code wraps it.
- Directory.Pki: `_pki_minions` reads key directories and the key cache from disk. The model replaces these reads with an abstract set of accepted keys plus the master's own id. With `key_cache` set and the cache file present, the code returns the stored list without adding the own id (lines 289-296); the model always adds it.
- The ssh roster branch of `check_minions` is not modelled, and neither is `_check_range_minions`. The range library is a foreign dependency, so a range target raises and resolves to nothing.
- `connected_ids`, `get_minion_data`, `mine_get` and the deprecated `any_auth` are outside this model: they are cache, socket or event-bus I/O, or a deprecated wrapper.
- The database query of the JSONB checker (`_gen_query`, the SQL text and the cursor) is an oracle from containment fragments to returned rows.
- Shell globbing, regex validity and matching, `re.escape`, `subdict_match`, `expr_match` and IP parsing and network membership are opaque predicates, not reimplementations.
- The compound matcher's text round trip (a set printed with `str` and read back by `eval`) is treated as exact, so the evaluation is modelled on set values.
- An expression that `eval` rejects and one that evaluates to the empty set both give the empty result, so both are Ok(Empty) in the model.
- Tuple expressions for the compound matcher are treated as word lists. Non-string items inside a nodegroup list are not modelled.
- Delimiters are single characters. A longer delimiter passed to the cache matchers is not modelled.
- Result lists are modelled as sets, so the order of returned minion ids is not modelled.
- Logging and deprecation warnings are left out.
- The glob, regex and nodegroup matchers raise when handed a non-string expression, which `check_minions` turns into an empty result. The cache and IP matchers are modelled on such expressions too. An integer or address object handed to the IP matcher, which `ipaddress` would accept, is treated like any other non-string expression.
- Matchers.CacheOutcome: for the JSONB checker, the cache-matcher entry points (`CacheOutcome`, `CheckCache`, and through them `check_minions` and the compound matcher) use the corrected second pass `PgJsonb.BulkMinions`, not the code as written. The code as written is `PgJsonb.WrittenBulkMinions`; see Findings.
- `RemoteCacheMinions` looks the bank name up inside the minion's grains, as the code does. `opts['grains']` missing altogether and explicitly None are treated alike.
- Grains data that is not a mapping is treated as not matching any network in the IP-network matcher.
- `str.lower` is modelled on ASCII letters only.
- Auth.FillAuthList: the provider is deep-copied before use, but the `@master` rewrite also mutates dictionaries that were already in a list the caller passed in. The model rewrites values, so the caller's aliases of those dictionaries are not modelled.

## Findings

| source | as written | input that shows it | evidently intended | confidence | as-written member | corrected member |
|---|---|---|---|---|---|---|
| salt/utils/minions.py:1307-1340 | The second `subdict_match` pass runs only `if raw_tokens:`. The loop moves the first glob or regex token out of `raw_tokens` before stopping, so when that token is the last one, `raw_tokens` is empty and the pass is skipped | grain target `role:web*` (a glob, delimiter `:`): only `role` reaches the database, and a row whose data fails the match for `web*` is still returned as a strict hit | Fetch the data and re-check the returned rows whenever a token was not sent to the database (the exact prefix is shorter than the token list); `fetch_value` at line 1321 is decided by the same emptied list | not executed | PgJsonb.WrittenBulkMinions, PgJsonb.GlobLastTokenUnfiltered | PgJsonb.BulkMinions, PgJsonb.StrictHitsPassSubdict |
