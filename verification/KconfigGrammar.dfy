/** The grammar of Kconfig expressions, as the source states it, and the parser. */
module KconfigGrammar {
  import opened KconfigExpr

  datatype Level = Factor | Conjunction | Expression

  function Depth(l: Level): nat {
    match l
    case Factor => 0
    case Conjunction => 1
    case Expression => 2
  }

  /** The tokens `ts` are, as a whole, the expression `e`:
      an expression is a conjunction, or one || an expression;
      a conjunction is a factor, or one && a conjunction;
      a factor is a symbol, two symbols in a relation, ! a factor, or an
      expression in parentheses. */
  ghost predicate Derives(l: Level, ts: seq<Token>, e: Expr, transform: bool)
    decreases |ts|, Depth(l)
  {
    match l
    case Factor =>
      || (exists s: Symbol :: ts == [TSym(s)] && e == (if transform && s == M then And(Sym(M), Sym(MODULES)) else Sym(s)))
      || (e.Relation? && ts == [TSym(e.a), TRel(e.rel), TSym(e.b)])
      || (e.Not? && |ts| > 0 && ts[0] == TNot && Derives(Factor, ts[1..], e.e, transform))
      || (|ts| > 1 && ts[0] == TOpen && ts[|ts| - 1] == TClose && Derives(Expression, ts[1..|ts| - 1], e, transform))
    case Conjunction =>
      Derives(Factor, ts, e, transform) || (e.And? && exists k :: Joins(Factor, TAnd, Conjunction, ts, k, e.left, e.right, transform))
    case Expression =>
      Derives(Conjunction, ts, e, transform) || (e.Or? && exists k :: Joins(Conjunction, TOr, Expression, ts, k, e.left, e.right, transform))
  }

  /** The operator `op` at `k` between `x` and `y`. */
  ghost predicate Joins(first: Level, op: Token, second: Level, ts: seq<Token>, k: int, x: Expr, y: Expr, transform: bool)
    decreases |ts|, 0
  {
    0 <= k < |ts| && ts[k] == op && Derives(first, ts[..k], x, transform) && Derives(second, ts[k + 1..], y, transform)
  }

  /** What comes after cannot belong to it. */
  predicate Ends(l: Level, rest: seq<Token>) {
    match l
    case Factor => EndsFactor(rest)
    case Conjunction => EndsAnd(rest)
    case Expression => EndsExpr(rest)
  }

  function Parse(l: Level, ts: seq<Token>, transform: bool): Parsed {
    match l
    case Factor => ParseFactor(ts, transform)
    case Conjunction => ParseAnd(ts, transform)
    case Expression => ParseExpr(ts, transform)
  }

  /** Everything the grammar derives is parsed, as it says. */
  lemma {:induction false} Complete(l: Level, ts: seq<Token>, e: Expr, rest: seq<Token>, transform: bool)
    requires Derives(l, ts, e, transform) && Ends(l, rest)
    ensures Parse(l, ts + rest, transform) == Ok(e, rest)
    decreases |ts|, Depth(l) + 1
  {
    match l {
      case Factor => FactorComplete(ts, e, rest, transform);
      case Conjunction =>
        if Derives(Factor, ts, e, transform) {
          Complete(Factor, ts, e, rest, transform);
        } else {
          var k :| Joins(Factor, TAnd, Conjunction, ts, k, e.left, e.right, transform);
          Apart(ts, k, rest);
          Complete(Factor, ts[..k], e.left, [TAnd] + (ts[k + 1..] + rest), transform);
          Complete(Conjunction, ts[k + 1..], e.right, rest, transform);
        }
      case Expression =>
        if Derives(Conjunction, ts, e, transform) {
          Complete(Conjunction, ts, e, rest, transform);
        } else {
          var k :| Joins(Conjunction, TOr, Expression, ts, k, e.left, e.right, transform);
          Apart(ts, k, rest);
          Complete(Conjunction, ts[..k], e.left, [TOr] + (ts[k + 1..] + rest), transform);
          Complete(Expression, ts[k + 1..], e.right, rest, transform);
        }
    }
  }

  lemma Apart(ts: seq<Token>, k: int, rest: seq<Token>)
    requires 0 <= k < |ts|
    ensures ts + rest == ts[..k] + ([ts[k]] + (ts[k + 1..] + rest))
    ensures ([ts[k]] + (ts[k + 1..] + rest))[1..] == ts[k + 1..] + rest
  {
  }

  lemma {:induction false} FactorComplete(ts: seq<Token>, e: Expr, rest: seq<Token>, transform: bool)
    requires Derives(Factor, ts, e, transform) && EndsFactor(rest)
    ensures ParseFactor(ts + rest, transform) == Ok(e, rest)
    decreases |ts|, 0
  {
    if s: Symbol :| ts == [TSym(s)] && e == (if transform && s == M then And(Sym(M), Sym(MODULES)) else Sym(s)) {
      assert (ts + rest)[1..] == rest;
    } else if e.Relation? && ts == [TSym(e.a), TRel(e.rel), TSym(e.b)] {
      assert (ts + rest)[1..] == [TRel(e.rel), TSym(e.b)] + rest && (ts + rest)[1..][2..] == rest;
    } else if e.Not? && |ts| > 0 && ts[0] == TNot && Derives(Factor, ts[1..], e.e, transform) {
      assert (ts + rest)[1..] == ts[1..] + rest;
      Complete(Factor, ts[1..], e.e, rest, transform);
    } else {
      var inner := ts[1..|ts| - 1];
      assert (ts + rest)[1..] == inner + ([TClose] + rest) && ([TClose] + rest)[1..] == rest;
      Complete(Expression, inner, e, [TClose] + rest, transform);
    }
  }

  /** The tokens from which `rest` is left over. */
  function Taken(ts: seq<Token>, rest: seq<Token>): seq<Token>
    requires |rest| <= |ts|
  {
    ts[..|ts| - |rest|]
  }

  /** A parse took tokens that the grammar derives. */
  ghost predicate Derived(l: Level, ts: seq<Token>, r: Parsed, transform: bool) {
    r.Ok? ==> |r.rest| < |ts| && ts == Taken(ts, r.rest) + r.rest && Derives(l, Taken(ts, r.rest), r.e, transform)
  }

  /** Everything that is parsed is derived by the grammar, up to where it stops. */
  lemma {:induction false} Sound(l: Level, ts: seq<Token>, transform: bool)
    ensures Derived(l, ts, Parse(l, ts, transform), transform)
    decreases |ts|, Depth(l) + 1
  {
    hide Derives;
    match l {
      case Factor => FactorSound(ts, transform);
      case Conjunction =>
        Sound(Factor, ts, transform);
        var r := ParseFactor(ts, transform);
        if r.Ok? && Peek(r.rest) == TAnd {
          Sound(Conjunction, r.rest[1..], transform);
          JoinSound(Factor, TAnd, Conjunction, ts, r, ParseAnd(r.rest[1..], transform), transform);
        }
        ConjunctionIs(ts, Parse(l, ts, transform), transform);
      case Expression =>
        Sound(Conjunction, ts, transform);
        var r := ParseAnd(ts, transform);
        if r.Ok? && Peek(r.rest) == TOr {
          Sound(Expression, r.rest[1..], transform);
          JoinSound(Conjunction, TOr, Expression, ts, r, ParseExpr(r.rest[1..], transform), transform);
        }
        ExpressionIs(ts, Parse(l, ts, transform), transform);
    }
  }

  /** What was taken joins `x` and `y`. */
  ghost predicate Joined(first: Level, op: Token, second: Level, ts: seq<Token>, rest: seq<Token>, x: Expr, y: Expr, transform: bool) {
    |rest| < |ts| && ts == Taken(ts, rest) + rest && exists k :: Joins(first, op, second, Taken(ts, rest), k, x, y, transform)
  }

  lemma ConjunctionIs(ts: seq<Token>, r: Parsed, transform: bool)
    requires Derived(Factor, ts, r, transform)
      || (r.e.And? && Joined(Factor, TAnd, Conjunction, ts, r.rest, r.e.left, r.e.right, transform))
    ensures Derived(Conjunction, ts, r, transform)
  {
  }

  lemma ExpressionIs(ts: seq<Token>, r: Parsed, transform: bool)
    requires Derived(Conjunction, ts, r, transform)
      || (r.e.Or? && Joined(Conjunction, TOr, Expression, ts, r.rest, r.e.left, r.e.right, transform))
    ensures Derived(Expression, ts, r, transform)
  {
  }

  lemma JoinSound(first: Level, op: Token, second: Level, ts: seq<Token>, r: Parsed, q: Parsed, transform: bool)
    requires r.Ok? && Derived(first, ts, r, transform) && r.rest != [] && r.rest[0] == op && Derived(second, r.rest[1..], q, transform)
    ensures q.Ok? ==> Joined(first, op, second, ts, q.rest, r.e, q.e, transform)
  {
    hide Derives;
    if q.Ok? {
      var whole, k := Taken(ts, q.rest), |ts| - |r.rest|;
      assert ts == Taken(ts, r.rest) + r.rest;
      assert r.rest[1..] == Taken(r.rest[1..], q.rest) + q.rest;
      assert whole[..k] == Taken(ts, r.rest) && whole[k + 1..] == Taken(r.rest[1..], q.rest) && whole[k] == op;
      assert Joins(first, op, second, whole, k, r.e, q.e, transform);
    }
  }

  lemma {:induction false} FactorSound(ts: seq<Token>, transform: bool)
    ensures Derived(Factor, ts, ParseFactor(ts, transform), transform)
    decreases |ts|, 0
  {
    var r := ParseFactor(ts, transform);
    if r.Ok? {
      if ts[0].TSym? {
        assert Taken(ts, r.rest) == if Peek(ts[1..]).TRel? then [ts[0], ts[1], ts[2]] else [ts[0]];
      } else if ts[0] == TNot {
        Sound(Factor, ts[1..], transform);
        assert Taken(ts, r.rest)[1..] == Taken(ts[1..], r.rest);
      } else {
        Sound(Expression, ts[1..], transform);
        ParenSound(ts, ParseExpr(ts[1..], transform), transform);
      }
    }
  }

  lemma ParenSound(ts: seq<Token>, q: Parsed, transform: bool)
    requires ts != [] && ts[0] == TOpen && q.Ok? && q.rest != [] && q.rest[0] == TClose && Derived(Expression, ts[1..], q, transform)
    ensures Derived(Factor, ts, Ok(q.e, q.rest[1..]), transform)
  {
    var whole := Taken(ts, q.rest[1..]);
    assert ts == [TOpen] + Taken(ts[1..], q.rest) + q.rest;
    assert whole == [TOpen] + Taken(ts[1..], q.rest) + [TClose];
    assert whole[1..|whole| - 1] == Taken(ts[1..], q.rest);
  }

  /** The parser takes a list of tokens as a whole exactly if the grammar derives
      it, and then for the expression that the grammar gives. */
  lemma ParserIsGrammar(ts: seq<Token>, e: Expr, transform: bool)
    ensures ParseExpr(ts, transform) == Ok(e, []) <==> Derives(Expression, ts, e, transform)
  {
    hide Derives;
    Sound(Expression, ts, transform);
    if Derives(Expression, ts, e, transform) {
      Complete(Expression, ts, e, [], transform);
      assert ts + [] == ts;
    }
    assert ts[..|ts|] == ts;
  }
}
