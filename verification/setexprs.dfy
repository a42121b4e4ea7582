/**
 * The set-algebra expression the compound matcher builds and hands to
 * Python's `eval`: set literals joined by `|`, `&`, `-` and parentheses.
 *
 * Python gives `-` the tightest binding, then `&`, then `|`, and all three
 * associate to the left. The parser below follows that grammar:
 *
 *   Or    := And ('|' And)*
 *   And   := Arith ('&' Arith)*
 *   Arith := Atom ('-' Atom)*
 *   Atom  := SET | '(' Or ')'
 *
 * Token streams it rejects are exactly the ones the compound matcher's
 * `eval` turns into an exception (or into an empty tuple, whose list is
 * the same empty result).
 */
module SetExprs {
  import opened Common

  datatype Tok = TSet(s: set<string>) | TAnd | TOr | TMinus | TOpen | TClose

  datatype SetExpr =
    | Leaf(s: set<string>)
    | Union(l: SetExpr, r: SetExpr)
    | Inter(l: SetExpr, r: SetExpr)
    | Diff(l: SetExpr, r: SetExpr)

  /** What the set expression evaluates to. */
  function Eval(e: SetExpr): set<string>
  {
    match e
    case Leaf(s) => s
    case Union(l, r) => Eval(l) + Eval(r)
    case Inter(l, r) => Eval(l) * Eval(r)
    case Diff(l, r) => Eval(l) - Eval(r)
  }

  /** The union of the literal sets an expression mentions. */
  function Literals(e: SetExpr): set<string>
  {
    match e
    case Leaf(s) => s
    case Union(l, r) => Literals(l) + Literals(r)
    case Inter(l, r) => Literals(l) + Literals(r)
    case Diff(l, r) => Literals(l) + Literals(r)
  }

  /** Set algebra never invents an element: the value is drawn from the literals. */
  lemma {:induction false} EvalWithinLiterals(e: SetExpr)
    ensures Eval(e) <= Literals(e)
  {
    match e
    case Leaf(s) =>
    case Union(l, r) => EvalWithinLiterals(l); EvalWithinLiterals(r);
    case Inter(l, r) => EvalWithinLiterals(l); EvalWithinLiterals(r);
    case Diff(l, r) => EvalWithinLiterals(l); EvalWithinLiterals(r);
  }

  type Parsed = Option<(SetExpr, seq<Tok>)>

  function ParseOr(ts: seq<Tok>): (p: Parsed)
    ensures p.Some? ==> |p.value.1| < |ts|
    decreases |ts|, 3
  {
    match ParseAnd(ts)
    case None => None
    case Some((l, rest)) => OrTail(l, rest)
  }

  function OrTail(l: SetExpr, ts: seq<Tok>): (p: Parsed)
    ensures p.Some? ==> |p.value.1| <= |ts|
    decreases |ts|, 4
  {
    if ts != [] && ts[0] == TOr then
      match ParseAnd(ts[1..])
      case None => None
      case Some((r, rest)) => OrTail(Union(l, r), rest)
    else Some((l, ts))
  }

  function ParseAnd(ts: seq<Tok>): (p: Parsed)
    ensures p.Some? ==> |p.value.1| < |ts|
    decreases |ts|, 2
  {
    match ParseArith(ts)
    case None => None
    case Some((l, rest)) => AndTail(l, rest)
  }

  function AndTail(l: SetExpr, ts: seq<Tok>): (p: Parsed)
    ensures p.Some? ==> |p.value.1| <= |ts|
    decreases |ts|, 4
  {
    if ts != [] && ts[0] == TAnd then
      match ParseArith(ts[1..])
      case None => None
      case Some((r, rest)) => AndTail(Inter(l, r), rest)
    else Some((l, ts))
  }

  function ParseArith(ts: seq<Tok>): (p: Parsed)
    ensures p.Some? ==> |p.value.1| < |ts|
    decreases |ts|, 1
  {
    match ParseAtom(ts)
    case None => None
    case Some((l, rest)) => MinusTail(l, rest)
  }

  function MinusTail(l: SetExpr, ts: seq<Tok>): (p: Parsed)
    ensures p.Some? ==> |p.value.1| <= |ts|
    decreases |ts|, 4
  {
    if ts != [] && ts[0] == TMinus then
      match ParseAtom(ts[1..])
      case None => None
      case Some((r, rest)) => MinusTail(Diff(l, r), rest)
    else Some((l, ts))
  }

  function ParseAtom(ts: seq<Tok>): (p: Parsed)
    ensures p.Some? ==> |p.value.1| < |ts|
    decreases |ts|, 0
  {
    if ts == [] then None
    else match ts[0]
      case TSet(s) => Some((Leaf(s), ts[1..]))
      case TOpen =>
        (match ParseOr(ts[1..])
         case Some((e, rest)) =>
           if rest != [] && rest[0] == TClose then Some((e, rest[1..])) else None
         case None => None)
      case _ => None
  }

  /** `eval` of the joined token stream: a value only when the whole stream is one expression. */
  function EvalTokens(ts: seq<Tok>): Option<set<string>>
  {
    match ParseOr(ts)
    case Some((e, rest)) => if rest == [] then Some(Eval(e)) else None
    case None => None
  }

  /** The fully parenthesised token stream of an expression. */
  function Render(e: SetExpr): seq<Tok>
  {
    match e
    case Leaf(s) => [TSet(s)]
    case Union(l, r) => [TOpen] + Render(l) + [TOr] + Render(r) + [TClose]
    case Inter(l, r) => [TOpen] + Render(l) + [TAnd] + Render(r) + [TClose]
    case Diff(l, r) => [TOpen] + Render(l) + [TMinus] + Render(r) + [TClose]
  }

  /** A rendered expression is read back as one atom, whatever follows it. */
  lemma {:induction false} AtomRender(e: SetExpr, rest: seq<Tok>)
    ensures ParseAtom(Render(e) + rest) == Some((e, rest))
    decreases e, 3
  {
    var close := [TClose] + rest;
    match e
    case Leaf(s) =>
      assert (Render(e) + rest)[1..] == rest;
    case Union(l, r) =>
      var inner := Render(l) + ([TOr] + (Render(r) + close));
      UnionInner(l, r, close);
      Regroup([TOpen], Render(l), [TOr], Render(r), [TClose], rest);
      Enclosed(e, inner, rest);
    case Inter(l, r) =>
      var inner := Render(l) + ([TAnd] + (Render(r) + close));
      InterInner(l, r, close);
      Regroup([TOpen], Render(l), [TAnd], Render(r), [TClose], rest);
      Enclosed(e, inner, rest);
    case Diff(l, r) =>
      var inner := Render(l) + ([TMinus] + (Render(r) + close));
      DiffInner(l, r, close);
      Regroup([TOpen], Render(l), [TMinus], Render(r), [TClose], rest);
      Enclosed(e, inner, rest);
  }

  /** Concatenation regrouped to the right, as the parser consumes it. */
  lemma Regroup(a: seq<Tok>, b: seq<Tok>, c: seq<Tok>, d: seq<Tok>, e: seq<Tok>, f: seq<Tok>)
    ensures a + b + c + d + e + f == a + (b + (c + (d + (e + f))))
  {
  }

  /** A parenthesised operand: the inside parses up to the closing parenthesis. */
  lemma Enclosed(e: SetExpr, inner: seq<Tok>, rest: seq<Tok>)
    requires Render(e) + rest == [TOpen] + inner
    requires ParseOr(inner) == Some((e, [TClose] + rest))
    ensures ParseAtom(Render(e) + rest) == Some((e, rest))
  {
    assert ([TOpen] + inner)[1..] == inner;
    assert ([TClose] + rest)[1..] == rest;
  }

  lemma {:induction false} ArithOf(e: SetExpr, rest: seq<Tok>)
    ensures ParseArith(Render(e) + rest) == MinusTail(e, rest)
    decreases e, 4
  {
    AtomRender(e, rest);
  }

  lemma AndOf(ts: seq<Tok>, e: SetExpr, rest: seq<Tok>)
    requires ParseArith(ts) == Some((e, rest))
    ensures ParseAnd(ts) == AndTail(e, rest)
  {
  }

  lemma OrOf(ts: seq<Tok>, e: SetExpr, rest: seq<Tok>)
    requires ParseAnd(ts) == Some((e, rest))
    ensures ParseOr(ts) == OrTail(e, rest)
  {
  }

  lemma {:induction false} MinusStep(l: SetExpr, r: SetExpr, rest: seq<Tok>)
    ensures MinusTail(l, [TMinus] + (Render(r) + rest)) == MinusTail(Diff(l, r), rest)
    decreases r, 4
  {
    AtomRender(r, rest);
    assert ([TMinus] + (Render(r) + rest))[1..] == Render(r) + rest;
  }

  lemma AndStep(l: SetExpr, ts: seq<Tok>, r: SetExpr, rest: seq<Tok>)
    requires ParseArith(ts) == Some((r, rest))
    ensures AndTail(l, [TAnd] + ts) == AndTail(Inter(l, r), rest)
  {
    assert ([TAnd] + ts)[1..] == ts;
  }

  lemma OrStep(l: SetExpr, ts: seq<Tok>, r: SetExpr, rest: seq<Tok>)
    requires ParseAnd(ts) == Some((r, rest))
    ensures OrTail(l, [TOr] + ts) == OrTail(Union(l, r), rest)
  {
    assert ([TOr] + ts)[1..] == ts;
  }

  lemma {:induction false} DiffInner(l: SetExpr, r: SetExpr, close: seq<Tok>)
    requires close != [] && close[0] == TClose
    ensures ParseOr(Render(l) + ([TMinus] + (Render(r) + close))) == Some((Diff(l, r), close))
    decreases Diff(l, r), 2
  {
    var inner := Render(l) + ([TMinus] + (Render(r) + close));
    ArithOf(l, [TMinus] + (Render(r) + close));
    MinusStep(l, r, close);
    AndOf(inner, Diff(l, r), close);
    OrOf(inner, Diff(l, r), close);
  }

  lemma {:induction false} InterInner(l: SetExpr, r: SetExpr, close: seq<Tok>)
    requires close != [] && close[0] == TClose
    ensures ParseOr(Render(l) + ([TAnd] + (Render(r) + close))) == Some((Inter(l, r), close))
    decreases Inter(l, r), 2
  {
    var right := Render(r) + close;
    var inner := Render(l) + ([TAnd] + right);
    ArithOf(l, [TAnd] + right);
    ArithOf(r, close);
    AndOf(inner, l, [TAnd] + right);
    AndStep(l, right, r, close);
    OrOf(inner, Inter(l, r), close);
  }

  lemma {:induction false} UnionInner(l: SetExpr, r: SetExpr, close: seq<Tok>)
    requires close != [] && close[0] == TClose
    ensures ParseOr(Render(l) + ([TOr] + (Render(r) + close))) == Some((Union(l, r), close))
    decreases Union(l, r), 2
  {
    var right := Render(r) + close;
    var inner := Render(l) + ([TOr] + right);
    ArithOf(l, [TOr] + right);
    AndOf(inner, l, [TOr] + right);
    ArithOf(r, close);
    AndOf(right, r, close);
    OrOf(inner, l, [TOr] + right);
    OrStep(l, right, r, close);
  }

  /** Printing an expression and evaluating the printed stream gives the expression's value. */
  lemma EvalRender(e: SetExpr)
    ensures EvalTokens(Render(e)) == Some(Eval(e))
  {
    ArithOf(e, []);
    assert Render(e) + [] == Render(e);
    AndOf(Render(e), e, []);
    OrOf(Render(e), e, []);
  }

  /** The tokens of a difference of two leaves, as the negation of a word builds them. */
  lemma DiffLeavesRender(a: set<string>, b: set<string>)
    ensures Render(Diff(Leaf(a), Leaf(b))) == [TOpen, TSet(a), TMinus] + [TSet(b)] + [TClose]
  {
  }

  /** A single parenthesised operand evaluates to its own set. */
  lemma ParenLeaf(g: set<string>)
    ensures EvalTokens([TOpen, TSet(g), TClose]) == Some(g)
  {
    var ts := [TOpen, TSet(g), TClose];
    var inner := Leaf(g);
    assert ParseOr([TSet(g), TClose]) == Some((inner, [TClose])) by {
      assert Render(inner) + [TClose] == [TSet(g), TClose];
      ArithOf(inner, [TClose]);
      assert MinusTail(inner, [TClose]) == Some((inner, [TClose]));
      AndOf([TSet(g), TClose], inner, [TClose]);
      assert AndTail(inner, [TClose]) == Some((inner, [TClose]));
      OrOf([TSet(g), TClose], inner, [TClose]);
      assert OrTail(inner, [TClose]) == Some((inner, [TClose]));
    }
    assert ts[1..] == [TSet(g), TClose];
    assert ParseAtom(ts) == Some((inner, []));
    assert ParseArith(ts) == MinusTail(inner, []);
    assert ParseArith(ts) == Some((inner, []));
    AndOf(ts, inner, []);
    OrOf(ts, inner, []);
  }

  /** `a | b & c` groups as `a | (b & c)`: `and` binds tighter than `or`. */
  lemma AndBeforeOr(a: set<string>, b: set<string>, c: set<string>)
    ensures EvalTokens([TSet(a), TOr, TSet(b), TAnd, TSet(c)]) == Some(a + (b * c))
  {
    var tc := Render(Leaf(c)) + [];
    var tb := Render(Leaf(b)) + ([TAnd] + tc);
    var ts := Render(Leaf(a)) + ([TOr] + tb);
    assert ts == [TSet(a), TOr, TSet(b), TAnd, TSet(c)];
    ArithOf(Leaf(c), []);
    ArithOf(Leaf(b), [TAnd] + tc);
    AndOf(tb, Leaf(b), [TAnd] + tc);
    AndStep(Leaf(b), tc, Leaf(c), []);
    ArithOf(Leaf(a), [TOr] + tb);
    AndOf(ts, Leaf(a), [TOr] + tb);
    OrOf(ts, Leaf(a), [TOr] + tb);
    assert ParseArith(tc) == Some((Leaf(c), []));
    assert ParseAnd(tb) == Some((Inter(Leaf(b), Leaf(c)), []));
    OrStep(Leaf(a), tb, Inter(Leaf(b), Leaf(c)), []);
    var e := Union(Leaf(a), Inter(Leaf(b), Leaf(c)));
    assert ParseOr(ts) == Some((e, []));
    assert Eval(Inter(Leaf(b), Leaf(c))) == b * c;
    assert EvalTokens(ts) == Some(Eval(e));
  }

  /** `a & b - c` groups as `a & (b - c)`: set difference binds tighter than `and`. */
  lemma MinusBeforeAnd(a: set<string>, b: set<string>, c: set<string>)
    ensures EvalTokens([TSet(a), TAnd, TSet(b), TMinus, TSet(c)]) == Some(a * (b - c))
  {
    var tc := Render(Leaf(c)) + [];
    var tb := Render(Leaf(b)) + ([TMinus] + tc);
    var ts := Render(Leaf(a)) + ([TAnd] + tb);
    assert ts == [TSet(a), TAnd, TSet(b), TMinus, TSet(c)];
    ArithOf(Leaf(b), [TMinus] + tc);
    MinusStep(Leaf(b), Leaf(c), []);
    ArithOf(Leaf(a), [TAnd] + tb);
    AndOf(ts, Leaf(a), [TAnd] + tb);
    AndStep(Leaf(a), tb, Diff(Leaf(b), Leaf(c)), []);
    var e := Inter(Leaf(a), Diff(Leaf(b), Leaf(c)));
    OrOf(ts, e, []);
    assert ParseOr(ts) == Some((e, []));
    assert Eval(Diff(Leaf(b), Leaf(c))) == b - c;
    assert EvalTokens(ts) == Some(Eval(e));
  }

  /** `a - b - c` groups as `(a - b) - c`. */
  lemma MinusLeftAssoc(a: set<string>, b: set<string>, c: set<string>)
    ensures EvalTokens([TSet(a), TMinus, TSet(b), TMinus, TSet(c)]) == Some(a - b - c)
  {
    var tc := Render(Leaf(c)) + [];
    var tb := Render(Leaf(b)) + ([TMinus] + tc);
    var ts := Render(Leaf(a)) + ([TMinus] + tb);
    assert ts == [TSet(a), TMinus, TSet(b), TMinus, TSet(c)];
    ArithOf(Leaf(a), [TMinus] + tb);
    MinusStep(Leaf(a), Leaf(b), [TMinus] + tc);
    MinusStep(Diff(Leaf(a), Leaf(b)), Leaf(c), []);
    var e := Diff(Diff(Leaf(a), Leaf(b)), Leaf(c));
    AndOf(ts, e, []);
    OrOf(ts, e, []);
    assert ParseOr(ts) == Some((e, []));
    assert Eval(Diff(Leaf(a), Leaf(b))) == a - b;
    assert EvalTokens(ts) == Some(Eval(e));
  }
}
