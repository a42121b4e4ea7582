/**
 * Nodegroup expansion (`nodegroup_comp`).
 *
 * A nodegroup is a named compound expression; its words may refer to other
 * nodegroups as `N@name`. Expansion replaces every such reference by the
 * referenced group's words, wrapped in parentheses, and uses a shared
 * `skip` set of the groups currently being expanded to cut cycles.
 */
module Nodegroups {
  import opened Common

  /** The value a nodegroup name maps to in the master configuration. */
  datatype NgDef =
    | NgString(text: string)     // a compound expression, split on whitespace
    | NgList(items: seq<string>) // a list or tuple of words (items given in their string form)
    | NgOther                    // anything else: rejected

  type Groups = map<string, NgDef>

  /** The compound operators, which pass through expansion untouched. */
  predicate IsOper(w: string)
  {
    w == "and" || w == "or" || w == "not" || w == "(" || w == ")"
  }

  /** A nested nodegroup reference: at least three characters, starting `N@`. */
  predicate IsRef(w: string)
  {
    |w| >= 3 && w[0] == 'N' && w[1] == '@'
  }

  predicate HasRef(ws: seq<string>)
  {
    exists i | 0 <= i < |ws| :: IsRef(ws[i])
  }

  predicate NoRefs(ws: seq<string>)
  {
    forall w | w in ws :: !IsRef(w)
  }

  /** The words of a definition: a string is split on whitespace, a list is taken as is. */
  function Words(d: NgDef): seq<string>
    requires !d.NgOther?
  {
    if d.NgString? then Split(d.text) else d.items
  }

  /** `^[A-Z]@`: a word that already names a target engine. */
  predicate EngineShaped(w: string)
  {
    |w| >= 2 && 'A' <= w[0] <= 'Z' && w[1] == '@'
  }

  /** One of `(`, `[`, `{`, `\` or the four-character `?}])` occurs in the word. */
  predicate RegexShaped(w: string)
  {
    '(' in w || '[' in w || '{' in w || '\\' in w || Contains(w, "?}])")
  }

  /**
   * The first-call result when no nested group was expanded: the original
   * words if they hold an operator, a wildcard or an engine prefix, else a
   * single `E@` (regex-looking words) or `L@` (plain names) target joining
   * the words with commas.
   */
  function Legacy(ws: seq<string>): seq<string>
  {
    if exists w | w in ws :: IsOper(w) then ws
    else if exists w | w in ws :: '*' in w || EngineShaped(w) then ws
    else if exists w | w in ws :: RegexShaped(w) then ["E@" + Join(",", ws)]
    else ["L@" + Join(",", ws)]
  }

  /** Removing one more unvisited key from the unvisited set shrinks it by one. */
  lemma Shrink(keys: set<string>, skip: set<string>, name: string)
    requires name in keys && name !in skip
    ensures |keys - (skip + {name})| + 1 == |keys - skip|
  {
    assert keys - skip == (keys - (skip + {name})) + {name};
  }

  /**
   * Expansion of `name` while the groups in `skip` are being expanded;
   * `first` marks the top-level call, whose `skip` is empty.
   */
  function Comp(name: string, groups: Groups, skip: set<string>, first: bool): (r: seq<string>)
    ensures NoRefs(r)
    ensures name in skip || name !in groups || groups[name].NgOther? ==> r == []
    ensures !first ==> r == [] || (|r| >= 3 && r[0] == "(" && r[|r| - 1] == ")")
    decreases |groups.Keys - skip|, 1, 0
  {
    if name in skip || name !in groups || groups[name].NgOther? then []
    else
      var ws := Words(groups[name]);
      Shrink(groups.Keys, skip, name);
      var ret := CompWords(ws, groups, skip + {name});
      var wrapped := if ret == [] then [] else ["("] + ret + [")"];
      if HasRef(ws) || !first then wrapped
      else
        assert forall w | w in ws :: !IsRef(w);
        Legacy(ws)
  }

  /** The expansion of a word list inside a group, built left to right. */
  function CompWords(ws: seq<string>, groups: Groups, skip: set<string>): (r: seq<string>)
    ensures NoRefs(r)
    decreases |groups.Keys - skip| + 1, 0, |ws|
  {
    if ws == [] then []
    else
      var w := ws[|ws| - 1];
      var front := CompWords(ws[..|ws| - 1], groups, skip);
      if IsOper(w) then front + [w]
      else if IsRef(w) then front + Comp(w[2..], groups, skip, false)
      else front + [w]
  }

  /** The shared `skip` set the recursive calls add to and remove from. */
  class NameSet {
    var items: set<string>

    constructor (initial: set<string>)
      ensures items == initial
    {
      items := initial;
    }
  }

  function Visited(skip: NameSet?): set<string>
    reads skip
  {
    if skip == null then {} else skip.items
  }

  /**
   * `nodegroup_comp`: a null `skip` is the top-level call's `skip=None`,
   * which starts from a fresh empty set. The caller's set is left as it
   * was received.
   */
  method NodegroupComp(name: string, groups: Groups, skip: NameSet?, first: bool) returns (r: seq<string>)
    modifies skip
    ensures skip != null ==> skip.items == old(skip.items)
    ensures r == Comp(name, groups, old(Visited(skip)), first)
    decreases |groups.Keys - Visited(skip)|, 0
  {
    var s: NameSet;
    if skip == null {
      s := new NameSet({});
    } else {
      if name in skip.items {
        return [];
      }
      s := skip;
    }
    if name !in groups || groups[name].NgOther? {
      return [];
    }
    var words := Words(groups[name]);
    var s0 := s.items;
    Shrink(groups.Keys, s0, name);
    s.items := s.items + {name};
    var ret, expanded := ExpandWords(words, groups, s);
    if ret != [] {
      ret := ["("] + ret + [")"];
    }
    s.items := s.items - {name};
    assert s.items == s0;
    if expanded || !first {
      r := ret;
    } else {
      r := Legacy(words);
    }
  }

  /** The loop over a group's words, with `name` already in the shared set. */
  method ExpandWords(words: seq<string>, groups: Groups, s: NameSet) returns (ret: seq<string>, expanded: bool)
    modifies s
    ensures s.items == old(s.items)
    ensures ret == CompWords(words, groups, s.items)
    ensures expanded == HasRef(words)
    decreases |groups.Keys - s.items|, 1
  {
    ret := [];
    expanded := false;
    for i := 0 to |words|
      invariant s.items == old(s.items)
      invariant ret == CompWords(words[..i], groups, s.items)
      invariant expanded == HasRef(words[..i])
    {
      var w := words[i];
      ghost var items := s.items;
      assert words[..i + 1][..i] == words[..i] && words[..i + 1][i] == w;
      if IsOper(w) {
        ret := ret + [w];
      } else if IsRef(w) {
        expanded := true;
        var sub := NodegroupComp(w[2..], groups, s, false);
        assert sub == Comp(w[2..], groups, items, false);
        ret := ret + sub;
      } else {
        ret := ret + [w];
      }
      assert HasRef(words[..i + 1]) == (HasRef(words[..i]) || IsRef(w));
    }
    assert words[..|words|] == words;
  }

  /**
   * A group whose words are all references to groups already being
   * expanded (itself included) expands to nothing: the cycle is cut
   * rather than followed.
   */
  lemma CycleCut(name: string, groups: Groups, skip: set<string>, first: bool)
    requires name in groups && name !in skip && !groups[name].NgOther?
    requires Words(groups[name]) != []
    requires forall w | w in Words(groups[name]) :: IsRef(w) && w[2..] in skip + {name}
    ensures Comp(name, groups, skip, first) == []
  {
    var ws := Words(groups[name]);
    Shrink(groups.Keys, skip, name);
    VisitedRefsVanish(ws, groups, skip + {name});
    assert IsRef(ws[0]);
  }

  lemma {:induction false} VisitedRefsVanish(ws: seq<string>, groups: Groups, skip: set<string>)
    requires forall w | w in ws :: IsRef(w) && w[2..] in skip
    ensures CompWords(ws, groups, skip) == []
    decreases |ws|
  {
    if ws != [] {
      var front := ws[..|ws| - 1];
      assert forall w | w in front :: w in ws;
      VisitedRefsVanish(front, groups, skip);
      assert ws[|ws| - 1] in ws;
    }
  }

  /** Two groups that refer to each other expand to nothing from either side. */
  lemma MutualCycle(groups: Groups)
    requires groups == map["A" := NgList(["N@B"]), "B" := NgList(["N@A"])]
    ensures Comp("A", groups, {}, true) == []
  {
    assert "N@A"[2..] == "A" && "N@B"[2..] == "B";
    CycleCut("B", groups, {"A"}, false);
    var ws := Words(groups["A"]);
    assert ws == ["N@B"] && ws[..0] == [];
    assert CompWords(ws, groups, {"A"}) == Comp("B", groups, {"A"}, false);
    assert IsRef(ws[0]) && HasRef(ws);
    assert {} + {"A"} == {"A"};
  }

  /**
   * On a nested call, a group with no references expands to its own words
   * between parentheses.
   */
  lemma {:induction false} PlainWordsWrapped(ws: seq<string>, groups: Groups, skip: set<string>)
    requires NoRefs(ws)
    ensures CompWords(ws, groups, skip) == ws
    decreases |ws|
  {
    if ws != [] {
      var front := ws[..|ws| - 1];
      var w := ws[|ws| - 1];
      assert NoRefs(front) by {
        forall x | x in front
          ensures !IsRef(x)
        {
          var i :| 0 <= i < |front| && front[i] == x;
          assert ws[i] in ws;
        }
      }
      assert !IsRef(w) by {
        assert w in ws;
      }
      PlainWordsWrapped(front, groups, skip);
      assert CompWords(ws, groups, skip) == CompWords(front, groups, skip) + [w];
      assert front + [w] == ws;
    }
  }

  /**
   * The output shapes of an expansion: nested calls wrap a non-empty
   * expansion in parentheses; a top-level call without references gives
   * the legacy rewrite of its words.
   */
  lemma ExpansionShape(name: string, groups: Groups, skip: set<string>, first: bool)
    requires name in groups && name !in skip && !groups[name].NgOther?
    requires NoRefs(Words(groups[name]))
    ensures var ws := Words(groups[name]);
            Comp(name, groups, skip, first) ==
              if first then Legacy(ws)
              else if ws == [] then []
              else ["("] + ws + [")"]
  {
    var ws := Words(groups[name]);
    PlainWordsWrapped(ws, groups, skip + {name});
  }
}
