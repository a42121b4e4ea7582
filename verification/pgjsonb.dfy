/**
 * The PostgreSQL-backed cache matcher (`PgJsonbCkMinions._check_cache_minions`).
 *
 * The target `key:sub:value` is split on its delimiter; the leading tokens
 * that need no glob or regex are turned into JSON containment fragments and
 * sent as one query; when a glob or regex token remains, the rows found are
 * filtered again with `subdict_match`. Greedy and strict answers are then
 * formed with set algebra over the known ids and the cached ids.
 */
module PgJsonb {
  import opened Common
  import opened Directory

  // ---------------------------------------------------------------------
  // Containment fragments (`_recurse_contains`)
  // ---------------------------------------------------------------------

  function Leaf(key: string, v: Json): Json
  {
    JObj(map[key := v])
  }

  const EmptyObj := JObj(map[])

  /** `{lhs: f}` and `{lhs: [f]}` for every fragment `f`, in order. */
  function Nest(lhs: string, fs: seq<Json>): (r: seq<Json>)
    ensures |r| == 2 * |fs|
    ensures forall g | g in r :: g.JObj? && g.fields.Keys == {lhs}
  {
    if fs == [] then []
    else [Leaf(lhs, fs[0]), Leaf(lhs, JArr([fs[0]]))] + Nest(lhs, fs[1..])
  }

  /**
   * `_recurse_contains(lhs, tokens)`: the fragments a row may contain for
   * the path `tokens` to lead to a value, looking through arrays the way
   * `subdict_match` does. `lhs` is `None` on the first call.
   */
  function RecurseContains(lhs: Option<string>, tokens: seq<string>): seq<Json>
    decreases |tokens|
  {
    if tokens == [] then []
    else if (lhs.None? || lhs.value == "") && |tokens| == 1 then
      var rhs := tokens[0];
      [Leaf(rhs, JBool(true)), Leaf(rhs, EmptyObj)]
    else if |tokens| == 2 then
      var l := tokens[0];
      var rhs := tokens[1];
      [Leaf(l, JStr(rhs)), Leaf(l, Leaf(rhs, JBool(true))), Leaf(l, Leaf(rhs, EmptyObj)),
       Leaf(l, JArr([JStr(rhs)])), Leaf(l, JArr([Leaf(rhs, JBool(true))])), Leaf(l, JArr([Leaf(rhs, EmptyObj)]))]
    else
      var l := tokens[0];
      Nest(l, RecurseContains(Some(l), tokens[1..]))
  }

  function Pow2(n: nat): nat
  {
    if n == 0 then 1 else 2 * Pow2(n - 1)
  }

  /**
   * One token gives two fragments, two tokens give six, and each further
   * token doubles the count (one plain and one array-wrapped copy).
   */
  lemma {:induction false} FragmentCount(lhs: Option<string>, tokens: seq<string>)
    requires |tokens| >= 2 || (|tokens| == 1 && (lhs.None? || lhs.value == ""))
    ensures |RecurseContains(lhs, tokens)| == if |tokens| == 1 then 2 else 6 * Pow2(|tokens| - 2)
    decreases |tokens|
  {
    if |tokens| > 2 {
      FragmentCount(Some(tokens[0]), tokens[1..]);
    }
  }

  /** From two tokens on, every fragment is an object keyed by the first token only. */
  lemma FragmentsRootedAtFirst(lhs: Option<string>, tokens: seq<string>)
    requires |tokens| >= 2
    ensures forall f | f in RecurseContains(lhs, tokens) :: f.JObj? && f.fields.Keys == {tokens[0]}
  {
  }

  // ---------------------------------------------------------------------
  // Exact-prefix extraction
  // ---------------------------------------------------------------------

  /** A token the database cannot match exactly: a regex token that `re.escape` alters, or a glob. */
  predicate NeedsPython(o: Oracle, q: CacheQuery, token: string)
  {
    (q.regex && o.reEscapeChanges(token)) || (!q.exact && '*' in token)
  }

  /** The position of the first token that needs Python matching, or the length if none does. */
  function FirstInexact(o: Oracle, q: CacheQuery, tokens: seq<string>): (k: nat)
    ensures k <= |tokens|
    ensures forall i | 0 <= i < k :: !NeedsPython(o, q, tokens[i])
    ensures k < |tokens| ==> NeedsPython(o, q, tokens[k])
  {
    if tokens == [] then 0
    else if NeedsPython(o, q, tokens[0]) then 0
    else 1 + FirstInexact(o, q, tokens[1..])
  }

  /**
   * The token loop: pops tokens until one needs Python matching. That
   * token is popped too, so it is in neither output.
   */
  method ExactTokens(o: Oracle, q: CacheQuery) returns (exact: seq<string>, raw: seq<string>)
    ensures var tokens := SplitOn(q.expr, q.delim);
            var k := FirstInexact(o, q, tokens);
            exact == tokens[..k] && raw == (if k < |tokens| then tokens[k + 1..] else [])
  {
    var tokens := SplitOn(q.expr, q.delim);
    var k := FirstInexact(o, q, tokens);
    raw := tokens;
    exact := [];
    while |raw| > 0
      invariant |exact| <= k && exact == tokens[..|exact|] && raw == tokens[|exact|..]
    {
      var token := raw[0];
      assert token == tokens[|exact|];
      raw := raw[1..];
      if q.regex && o.reEscapeChanges(token) {
        assert |exact| == k;
        break;
      }
      if !q.exact && '*' in token {
        assert |exact| == k;
        break;
      }
      assert |exact| < k;
      exact := exact + [token];
    }
  }

  // ---------------------------------------------------------------------
  // Second pass and set formulas
  // ---------------------------------------------------------------------

  /** Ids of the returned rows whose data `subdict_match` rejects, in row order. */
  function Rejected(o: Oracle, q: CacheQuery, rows: seq<(string, Json)>): seq<string>
  {
    if rows == [] then []
    else (if Accepts(o, q, rows[0].1) then [] else [rows[0].0]) + Rejected(o, q, rows[1..])
  }

  predicate Distinct(ids: seq<string>)
  {
    forall i, j | 0 <= i < j < |ids| :: ids[i] != ids[j]
  }

  function Members(ids: seq<string>): set<string>
  {
    set x | x in ids
  }

  lemma MembersAppend(ids: seq<string>, x: string)
    ensures Members(ids + [x]) == Members(ids) + {x}
  {
    assert forall y | y in ids + [x] :: y in ids || y == x;
    assert forall y | y in ids :: y in ids + [x];
  }

  function RowIds(rows: seq<(string, Json)>): set<string>
  {
    set i | 0 <= i < |rows| :: rows[i].0
  }

  /**
   * The second pass removes each rejected row's id from the hits; removing
   * an id twice raises `KeyError`, so a rejected id that occurs twice makes
   * the whole call raise.
   */
  function Refilter(o: Oracle, q: CacheQuery, rows: seq<(string, Json)>, hits: set<string>): Outcome<set<string>>
  {
    var rej := Rejected(o, q, rows);
    if Distinct(rej) then Ok(hits - Members(rej)) else Raised
  }

  lemma RejectedSplit(o: Oracle, q: CacheQuery, rows: seq<(string, Json)>, i: nat)
    requires i < |rows|
    ensures Rejected(o, q, rows[..i + 1]) ==
            Rejected(o, q, rows[..i]) + (if Accepts(o, q, rows[i].1) then [] else [rows[i].0])
    decreases i
  {
    if i > 0 {
      RejectedSplit(o, q, rows[1..], i - 1);
      assert rows[1..][..i] == rows[..i + 1][1..];
      assert rows[1..][..i - 1] == rows[..i][1..];
    } else {
      assert rows[..1][1..] == [];
    }
  }

  /** `cache_hits.remove(id_)` for every row whose data fails `subdict_match`. */
  method SecondPass(o: Oracle, q: CacheQuery, rows: seq<(string, Json)>, hits: set<string>) returns (r: Outcome<set<string>>)
    requires RowIds(rows) <= hits
    ensures r == Refilter(o, q, rows, hits)
  {
    var left := hits;
    for i := 0 to |rows|
      invariant var rej := Rejected(o, q, rows[..i]);
                Distinct(rej) && left == hits - Members(rej)
    {
      RejectedSplit(o, q, rows, i);
      var id := rows[i].0;
      var data := rows[i].1;
      var rej := Rejected(o, q, rows[..i]);
      if !Accepts(o, q, data) {
        if id !in left {
          assert id in hits by { assert rows[i].0 in RowIds(rows); }
          assert id in Members(rej);
          var j :| 0 <= j < |rej| && rej[j] == id;
          assert Rejected(o, q, rows[..i + 1]) == rej + [id];
          assert !Distinct(Rejected(o, q, rows[..i + 1])) by {
            assert (rej + [id])[j] == (rej + [id])[|rej|];
          }
          RejectedPrefix(o, q, rows, i + 1);
          DistinctPrefix(Rejected(o, q, rows[..i + 1]), Rejected(o, q, rows));
          return Raised;
        }
        left := left - {id};
        var rej' := rej + [id];
        MembersAppend(rej, id);
        assert Distinct(rej') by {
          assert forall j | 0 <= j < |rej| :: rej[j] != id by {
            assert forall j | 0 <= j < |rej| :: rej[j] in Members(rej);
          }
        }
        assert Rejected(o, q, rows[..i + 1]) == rej';
      } else {
        assert Rejected(o, q, rows[..i + 1]) == rej + [];
      }
    }
    assert rows[..|rows|] == rows;
    r := Ok(left);
  }

  lemma RejectedPrefix(o: Oracle, q: CacheQuery, rows: seq<(string, Json)>, i: nat)
    requires i <= |rows|
    ensures exists tail :: Rejected(o, q, rows) == Rejected(o, q, rows[..i]) + tail
    decreases |rows| - i
  {
    if i == |rows| {
      assert rows[..i] == rows;
      assert Rejected(o, q, rows) == Rejected(o, q, rows[..i]) + [];
    } else {
      RejectedPrefix(o, q, rows, i + 1);
      RejectedSplit(o, q, rows, i);
      var tail :| Rejected(o, q, rows) == Rejected(o, q, rows[..i + 1]) + tail;
      var step := if Accepts(o, q, rows[i].1) then [] else [rows[i].0];
      assert Rejected(o, q, rows) == Rejected(o, q, rows[..i]) + (step + tail);
    }
  }

  /** A sequence with a repeated element cannot be extended into one without. */
  lemma DistinctPrefix(p: seq<string>, s: seq<string>)
    requires exists tail :: s == p + tail
    requires !Distinct(p)
    ensures !Distinct(s)
  {
    var tail :| s == p + tail;
    var i, j :| 0 <= i < j < |p| && p[i] == p[j];
    assert s[i] == s[j];
  }

  /**
   * The answer for one query, with the decision whether to run the second
   * pass left open: `refilter` tells whether the Python second pass runs.
   */
  function Combine(env: Env, q: CacheQuery, greedy: bool, exact: seq<string>, refilter: bool): (r: Outcome<set<string>>)
    requires exact != []
  {
    var rows := env.oracle.pgQuery(RecurseContains(None, exact));
    var pki := Pki(env);
    var cached := Listed(env.cache, q.bank);
    var notInCache := pki - cached;
    var unknown := cached - pki;
    var hits := RowIds(rows);
    var filtered := if refilter then Refilter(env.oracle, q, rows, hits) else Ok(hits);
    match filtered
    case Raised => Raised
    case Ok(h) => Ok(if greedy then (notInCache + h) - unknown else pki * h)
  }

  /**
   * The code as written: the second pass runs only when tokens are left
   * over after the one that stopped the loop, so a glob or regex in the
   * last token is never checked.
   */
  function WrittenBulkMinions(env: Env, q: CacheQuery, greedy: bool): Outcome<set<string>>
  {
    var tokens := SplitOn(q.expr, q.delim);
    var k := FirstInexact(env.oracle, q, tokens);
    var raw := if k < |tokens| then tokens[k + 1..] else [];
    if k == 0 then Raised
    else Combine(env, q, greedy, tokens[..k], raw != [])
  }

  /**
   * The intended behaviour: the second pass runs whenever some token needed
   * Python matching. Raises when the first token already does (a full scan
   * of the cache is refused).
   */
  function BulkMinions(env: Env, q: CacheQuery, greedy: bool): (r: Outcome<set<string>>)
    ensures var tokens := SplitOn(q.expr, q.delim);
            NeedsPython(env.oracle, q, tokens[0]) ==> r.Raised?
    ensures var tokens := SplitOn(q.expr, q.delim);
            (forall t | t in tokens :: !NeedsPython(env.oracle, q, t)) ==> r.Ok?
  {
    var tokens := SplitOn(q.expr, q.delim);
    var k := FirstInexact(env.oracle, q, tokens);
    if k == 0 then Raised
    else Combine(env, q, greedy, tokens[..k], k < |tokens|)
  }

  /** The imperative matcher, with the second-pass decision corrected. */
  method BulkCacheMinions(env: Env, q: CacheQuery, greedy: bool) returns (r: Outcome<set<string>>)
    ensures r == BulkMinions(env, q, greedy)
  {
    var tokens := SplitOn(q.expr, q.delim);
    var exact, raw := ExactTokens(env.oracle, q);
    if exact == [] {
      return Raised;
    }
    var k := |exact|;
    var rows := env.oracle.pgQuery(RecurseContains(None, exact));
    var pki := Pki(env);
    var cached := Listed(env.cache, q.bank);
    var notInCache := pki - cached;
    var unknown := cached - pki;
    var hits := RowIds(rows);
    if k < |tokens| {
      var filtered := SecondPass(env.oracle, q, rows, hits);
      if filtered.Raised? {
        return Raised;
      }
      hits := filtered.value;
    }
    if greedy {
      r := Ok((notInCache + hits) - unknown);
    } else {
      r := Ok(pki * hits);
    }
  }

  /** A row whose data `subdict_match` rejects has its id among the rejected ids. */
  lemma {:induction false} RejectedHasRow(o: Oracle, q: CacheQuery, rows: seq<(string, Json)>, i: nat)
    requires i < |rows| && !Accepts(o, q, rows[i].1)
    ensures rows[i].0 in Rejected(o, q, rows)
    decreases i
  {
    if i > 0 {
      RejectedHasRow(o, q, rows[1..], i - 1);
    }
  }

  /**
   * With the corrected second pass, a strict answer for an expression with
   * a glob or regex token only holds known ids all of whose returned rows
   * pass `subdict_match`.
   */
  lemma StrictHitsPassSubdict(env: Env, q: CacheQuery)
    requires BulkMinions(env, q, false).Ok?
    requires exists t | t in SplitOn(q.expr, q.delim) :: NeedsPython(env.oracle, q, t)
    ensures var tokens := SplitOn(q.expr, q.delim);
            var k := FirstInexact(env.oracle, q, tokens);
            var rows := env.oracle.pgQuery(RecurseContains(None, tokens[..k]));
            forall id | id in BulkMinions(env, q, false).value ::
              id in Pki(env) && id in RowIds(rows) &&
              forall i | 0 <= i < |rows| && rows[i].0 == id :: Accepts(env.oracle, q, rows[i].1)
  {
    var tokens := SplitOn(q.expr, q.delim);
    var k := FirstInexact(env.oracle, q, tokens);
    var rows := env.oracle.pgQuery(RecurseContains(None, tokens[..k]));
    var t :| t in tokens && NeedsPython(env.oracle, q, t);
    assert k < |tokens|;
    var rej := Rejected(env.oracle, q, rows);
    forall id | id in BulkMinions(env, q, false).value
      ensures forall i | 0 <= i < |rows| && rows[i].0 == id :: Accepts(env.oracle, q, rows[i].1)
    {
      assert id !in Members(rej);
      forall i | 0 <= i < |rows| && rows[i].0 == id
        ensures Accepts(env.oracle, q, rows[i].1)
      {
        if !Accepts(env.oracle, q, rows[i].1) {
          RejectedHasRow(env.oracle, q, rows, i);
          assert false;
        }
      }
    }
  }

  /** Without a glob or regex token, the strict answer is the known ids among the query hits. */
  lemma ExactQueryStrict(env: Env, q: CacheQuery)
    requires forall t | t in SplitOn(q.expr, q.delim) :: !NeedsPython(env.oracle, q, t)
    ensures var tokens := SplitOn(q.expr, q.delim);
            BulkMinions(env, q, false) ==
              Ok(Pki(env) * RowIds(env.oracle.pgQuery(RecurseContains(None, tokens))))
  {
    var tokens := SplitOn(q.expr, q.delim);
    var k := FirstInexact(env.oracle, q, tokens);
    assert tokens[..k] == tokens;
  }

  /**
   * The greedy answer keeps every known id the cache bank has never seen,
   * and never returns an id the cache knows but the master does not.
   */
  lemma GreedyKeepsUncached(env: Env, q: CacheQuery)
    requires BulkMinions(env, q, true).Ok?
    ensures Pki(env) - Listed(env.cache, q.bank) <= BulkMinions(env, q, true).value
    ensures BulkMinions(env, q, true).value !! (Listed(env.cache, q.bank) - Pki(env))
  {
  }

  /** The tokens of `role:web*` split on `:`. */
  lemma RoleWebTokens()
    ensures SplitOn("role:web*", ':') == ["role", "web*"]
  {
    assert Join([':'], ["role", "web*"]) == "role:web*" by {
      assert Join([':'], ["web*"]) == "web*";
    }
    SplitOnJoin(["role", "web*"], ':');
  }

  /**
   * The code as written keeps a row that `subdict_match` rejects: for
   * `role:web*` the glob is the last token, no token is left over after
   * it, and the second pass never runs.
   */
  lemma GlobLastTokenUnfiltered(env: Env, q: CacheQuery)
    requires env.cfg.role != "minion" && env.cfg.id == "web1"
    requires forall d, e, c, r, x :: !env.oracle.subdictMatch(d, e, c, r, x)
    requires forall fs :: env.oracle.pgQuery(fs) == [("web1", JNull)]
    requires q == CacheQuery("role:web*", ':', "grains", false, false)
    ensures !Accepts(env.oracle, q, JNull)
    ensures WrittenBulkMinions(env, q, false) == Ok({"web1"})
    ensures BulkMinions(env, q, false) == Ok({})
  {
    RoleWebSplit(env.oracle, q);
    var tokens := SplitOn(q.expr, q.delim);
    assert tokens[..1] == ["role"];
    OneRowCombine(env, q, ["role"]);
  }

  /** Matched as a glob, `role:web*` has one exact token and no token after the glob. */
  lemma RoleWebSplit(o: Oracle, q: CacheQuery)
    requires q.expr == "role:web*" && q.delim == ':' && !q.regex && !q.exact
    ensures FirstInexact(o, q, SplitOn(q.expr, q.delim)) == 1
    ensures SplitOn(q.expr, q.delim) == ["role", "web*"]
  {
    RoleWebTokens();
    RoleWebFirst(o, q);
  }

  lemma RoleWebFirst(o: Oracle, q: CacheQuery)
    requires !q.regex && !q.exact
    ensures FirstInexact(o, q, ["role", "web*"]) == 1
  {
    var role, web := "role", "web*";
    assert NeedsPython(o, q, web) by { assert web[3] == '*'; }
    assert !NeedsPython(o, q, role) by {
      assert forall i | 0 <= i < |role| :: role[i] != '*';
    }
    assert [role, web][1..] == [web];
  }

  /** `Combine` on a query answering one row that `subdict_match` rejects. */
  lemma OneRowCombine(env: Env, q: CacheQuery, exact: seq<string>)
    requires exact != [] && env.cfg.role != "minion" && env.cfg.id == "web1"
    requires forall d, e, c, r, x :: !env.oracle.subdictMatch(d, e, c, r, x)
    requires forall fs :: env.oracle.pgQuery(fs) == [("web1", JNull)]
    ensures Combine(env, q, false, exact, false) == Ok({"web1"})
    ensures Combine(env, q, false, exact, true) == Ok({})
  {
    var rows := env.oracle.pgQuery(RecurseContains(None, exact));
    assert rows == [("web1", JNull)];
    assert RowIds(rows) == {"web1"} by {
      assert rows[0].0 == "web1";
    }
    assert "web1" in Pki(env);
    assert Rejected(env.oracle, q, rows) == ["web1"] by {
      assert !Accepts(env.oracle, q, rows[0].1);
      assert rows[1..] == [];
    }
    assert Distinct(["web1"]);
    assert Members(["web1"]) == {"web1"};
    assert {"web1"} - Members(["web1"]) == {};
    assert Refilter(env.oracle, q, rows, {"web1"}) == Ok({});
    assert Pki(env) * {"web1"} == {"web1"};
    var empty: set<string> := {};
    assert Pki(env) * empty == {};
  }
}
