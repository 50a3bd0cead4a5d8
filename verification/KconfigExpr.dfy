/** Kconfig expressions: value, printing to tokens, parsing back. */
module KconfigExpr {

  datatype Rel = Equal | Unequal | Less | LessEqual | Greater | GreaterEqual

  type Symbol = nat

  /** Symbols, relations between symbols, and logical operators. */
  datatype Expr =
    | Sym(sym: Symbol)
    | Relation(rel: Rel, a: Symbol, b: Symbol)
    | Not(e: Expr)
    | And(left: Expr, right: Expr)
    | Or(left: Expr, right: Expr)

  datatype Token = TSym(sym: Symbol) | TRel(rel: Rel) | TNot | TAnd | TOr | TOpen | TClose | TEnd

  /** The constant symbol `m`, and the symbol MODULES. */
  const M: Symbol := 1
  const MODULES: Symbol := 3

  // Value --------------------------------------------------------------------------

  type Tri = n: int | 0 <= n <= 2

  function Min(x: Tri, y: Tri): Tri {
    if x < y then x else y
  }

  function Max(x: Tri, y: Tri): Tri {
    if x < y then y else x
  }

  /** `expr_value`, with its short cuts. */
  function Value(e: Expr, tri: Symbol -> Tri, holds: (Rel, Symbol, Symbol) -> bool): Tri {
    match e
    case Sym(s) => tri(s)
    case Relation(rel, a, b) => if holds(rel, a, b) then 2 else 0
    case Not(x) => 2 - Value(x, tri, holds)
    case And(x, y) =>
      var v := Value(x, tri, holds);
      if v == 0 then 0 else Min(v, Value(y, tri, holds))
    case Or(x, y) =>
      var v := Value(x, tri, holds);
      if v == 2 then 2 else Max(v, Value(y, tri, holds))
  }

  // Printing -----------------------------------------------------------------------

  function Parenthesized(ts: seq<Token>): seq<Token> {
    [TOpen] + ts + [TClose]
  }

  /** `expr_str`, as tokens. */
  function Print(e: Expr): (ts: seq<Token>)
    ensures ts != []
    decreases e, 0
  {
    match e
    case Sym(s) => [TSym(s)]
    case Relation(rel, a, b) => [TSym(a), TRel(rel), TSym(b)]
    case Not(x) => if x.Sym? then [TNot, TSym(x.sym)] else [TNot] + Parenthesized(Print(x))
    case And(x, y) => AndOperand(x) + [TAnd] + AndOperand(y)
    case Or(x, y) => OrOperand(x) + [TOr] + OrOperand(y)
  }

  function AndOperand(e: Expr): seq<Token>
    decreases e, 1
  {
    if e.Or? then Parenthesized(Print(e)) else Print(e)
  }

  function OrOperand(e: Expr): seq<Token>
    decreases e, 1
  {
    if e.And? then Parenthesized(Print(e)) else Print(e)
  }

  // Parsing ------------------------------------------------------------------------

  datatype Parsed = Ok(e: Expr, rest: seq<Token>) | Malformed

  /** The token at the front; the list of tokens never runs out. */
  function Peek(ts: seq<Token>): Token {
    if ts == [] then TEnd else ts[0]
  }

  /** `_parse_expr`; `transform` asks for m to be read as m && MODULES. */
  function ParseExpr(ts: seq<Token>, transform: bool): (r: Parsed)
    ensures r.Ok? ==> |r.rest| < |ts|
    decreases |ts|, 3
  {
    var r := ParseAnd(ts, transform);
    if r.Ok? && Peek(r.rest) == TOr then
      var q := ParseExpr(r.rest[1..], transform);
      if q.Ok? then Ok(Or(r.e, q.e), q.rest) else Malformed
    else r
  }

  /** `_parse_and_expr`. */
  function ParseAnd(ts: seq<Token>, transform: bool): (r: Parsed)
    ensures r.Ok? ==> |r.rest| < |ts|
    decreases |ts|, 2
  {
    var r := ParseFactor(ts, transform);
    if r.Ok? && Peek(r.rest) == TAnd then
      var q := ParseAnd(r.rest[1..], transform);
      if q.Ok? then Ok(And(r.e, q.e), q.rest) else Malformed
    else r
  }

  /** `_parse_factor`. */
  function ParseFactor(ts: seq<Token>, transform: bool): (r: Parsed)
    ensures r.Ok? ==> |r.rest| < |ts|
    decreases |ts|, 1
  {
    if ts == [] then Malformed
    else
      var ts' := ts[1..];
      match ts[0]
      case TSym(s) =>
        if !Peek(ts').TRel? then Ok(Plain(s, transform), ts')
        else if |ts'| > 1 && ts'[1].TSym? then Ok(Relation(ts'[0].rel, s, ts'[1].sym), ts'[2..])
        else Malformed
      case TNot =>
        var r := ParseFactor(ts', transform);
        if r.Ok? then Ok(Not(r.e), r.rest) else Malformed
      case TOpen =>
        var r := ParseExpr(ts', transform);
        if r.Ok? && Peek(r.rest) == TClose then Ok(r.e, r.rest[1..]) else Malformed
      case _ => Malformed
  }

  function Plain(s: Symbol, transform: bool): Expr {
    if transform && s == M then And(Sym(M), Sym(MODULES)) else Sym(s)
  }

  // Round trip -----------------------------------------------------------------------

  /** What the printed form parses to: chains of && and of || associate to the
      right, and m is rewritten when asked for. */
  function Norm(e: Expr, transform: bool): Expr
    decreases e, 0
  {
    match e
    case Sym(s) => Plain(s, transform)
    case Relation(_, _, _) => e
    case Not(x) => Not(Norm(x, transform))
    case And(x, y) => PrependAnd(x, Norm(y, transform), transform)
    case Or(x, y) => PrependOr(x, Norm(y, transform), transform)
  }

  function PrependAnd(x: Expr, y: Expr, transform: bool): Expr
    decreases x, 1
  {
    if x.And? then PrependAnd(x.left, PrependAnd(x.right, y, transform), transform) else And(Norm(x, transform), y)
  }

  function PrependOr(x: Expr, y: Expr, transform: bool): Expr
    decreases x, 1
  {
    if x.Or? then PrependOr(x.left, PrependOr(x.right, y, transform), transform) else Or(Norm(x, transform), y)
  }

  /** Nothing at the front continues a factor, a conjunction, an expression. */
  predicate EndsFactor(ts: seq<Token>) {
    !Peek(ts).TRel?
  }

  predicate EndsAnd(ts: seq<Token>) {
    !Peek(ts).TRel? && Peek(ts) != TAnd
  }

  predicate EndsExpr(ts: seq<Token>) {
    !Peek(ts).TRel? && Peek(ts) != TAnd && Peek(ts) != TOr
  }

  lemma {:induction false} FactorTrip(e: Expr, rest: seq<Token>, transform: bool)
    requires EndsFactor(rest) && !e.And? && !e.Or?
    ensures ParseFactor(Print(e) + rest, transform) == Ok(Norm(e, transform), rest)
    decreases e, 1
  {
    match e
    case Sym(s) => assert ([TSym(s)] + rest)[1..] == rest;
    case Relation(rel, a, b) =>
      var ts := [TSym(a), TRel(rel), TSym(b)] + rest;
      assert ts[1..] == [TRel(rel), TSym(b)] + rest && ts[1..][2..] == rest;
    case Not(x) =>
      if x.Sym? {
        assert ([TNot, TSym(x.sym)] + rest)[1..] == Print(x) + rest;
        FactorTrip(x, rest, transform);
      } else {
        assert ([TNot] + Parenthesized(Print(x)) + rest)[1..] == Parenthesized(Print(x)) + rest;
        ParenTrip(x, rest, transform);
      }
  }

  lemma {:induction false} ParenTrip(e: Expr, rest: seq<Token>, transform: bool)
    ensures ParseFactor(Parenthesized(Print(e)) + rest, transform) == Ok(Norm(e, transform), rest)
    decreases e, 5
  {
    var ts := Parenthesized(Print(e)) + rest;
    assert ts[1..] == Print(e) + ([TClose] + rest);
    ExprTrip(e, [TClose] + rest, transform);
    assert ([TClose] + rest)[1..] == rest;
  }

  /** An operand of && that is not itself a chain. */
  lemma {:induction false} AndOperandTrip(e: Expr, rest: seq<Token>, transform: bool)
    requires EndsFactor(rest) && !e.And?
    ensures ParseFactor(AndOperand(e) + rest, transform) == Ok(Norm(e, transform), rest)
    decreases e, 6
  {
    if e.Or? { ParenTrip(e, rest, transform); } else { FactorTrip(e, rest, transform); }
  }

  /** A chain of && in front of more of the conjunction. */
  lemma {:induction false} AndChain(x: Expr, ts: seq<Token>, y: Expr, rest: seq<Token>, transform: bool)
    requires ParseAnd(ts, transform) == Ok(y, rest)
    ensures ParseAnd(AndOperand(x) + [TAnd] + ts, transform) == Ok(PrependAnd(x, y, transform), rest)
    decreases x, 8
  {
    hide ParseAnd, ParseFactor, ParseExpr, Norm;
    if x.And? {
      AndChain(x.right, ts, y, rest, transform);
      AndChain(x.left, AndOperand(x.right) + [TAnd] + ts, PrependAnd(x.right, y, transform), rest, transform);
      AndAgain(x, ts);
    } else {
      AndOnce(x, ts, y, rest, transform);
    }
  }

  lemma AndAgain(x: Expr, ts: seq<Token>)
    requires x.And?
    ensures AndOperand(x) + [TAnd] + ts == AndOperand(x.left) + [TAnd] + (AndOperand(x.right) + [TAnd] + ts)
  {
  }

  lemma {:induction false} AndOnce(x: Expr, ts: seq<Token>, y: Expr, rest: seq<Token>, transform: bool)
    requires ParseAnd(ts, transform) == Ok(y, rest) && !x.And?
    ensures ParseAnd(AndOperand(x) + [TAnd] + ts, transform) == Ok(PrependAnd(x, y, transform), rest)
    decreases x, 7
  {
    assert AndOperand(x) + [TAnd] + ts == AndOperand(x) + ([TAnd] + ts);
    AndOperandTrip(x, [TAnd] + ts, transform);
    assert ([TAnd] + ts)[1..] == ts;
  }

  lemma {:induction false} AndTrip(e: Expr, rest: seq<Token>, transform: bool)
    requires EndsAnd(rest)
    ensures ParseAnd(AndOperand(e) + rest, transform) == Ok(Norm(e, transform), rest)
    decreases e, 8
  {
    if e.And? {
      AndTrip(e.right, rest, transform);
      AndChain(e.left, AndOperand(e.right) + rest, Norm(e.right, transform), rest, transform);
      assert AndOperand(e) + rest == AndOperand(e.left) + [TAnd] + (AndOperand(e.right) + rest);
    } else {
      AndOperandTrip(e, rest, transform);
    }
  }

  lemma {:induction false} OrOperandTrip(e: Expr, rest: seq<Token>, transform: bool)
    requires EndsAnd(rest) && !e.Or?
    ensures ParseAnd(OrOperand(e) + rest, transform) == Ok(Norm(e, transform), rest)
    decreases e, 9
  {
    if e.And? { ParenTrip(e, rest, transform); } else { FactorTrip(e, rest, transform); }
  }

  lemma {:induction false} OrChain(x: Expr, ts: seq<Token>, y: Expr, rest: seq<Token>, transform: bool)
    requires ParseExpr(ts, transform) == Ok(y, rest)
    ensures ParseExpr(OrOperand(x) + [TOr] + ts, transform) == Ok(PrependOr(x, y, transform), rest)
    decreases x, 10
  {
    if x.Or? {
      OrChain(x.right, ts, y, rest, transform);
      OrChain(x.left, OrOperand(x.right) + [TOr] + ts, PrependOr(x.right, y, transform), rest, transform);
      assert OrOperand(x) + [TOr] + ts == OrOperand(x.left) + [TOr] + (OrOperand(x.right) + [TOr] + ts);
    } else {
      assert OrOperand(x) + [TOr] + ts == OrOperand(x) + ([TOr] + ts);
      OrOperandTrip(x, [TOr] + ts, transform);
      assert ([TOr] + ts)[1..] == ts;
    }
  }

  lemma {:induction false} OrTrip(e: Expr, rest: seq<Token>, transform: bool)
    requires EndsExpr(rest)
    ensures ParseExpr(OrOperand(e) + rest, transform) == Ok(Norm(e, transform), rest)
    decreases e, 11
  {
    if e.Or? {
      OrTrip(e.right, rest, transform);
      OrChain(e.left, OrOperand(e.right) + rest, Norm(e.right, transform), rest, transform);
      assert OrOperand(e) + rest == OrOperand(e.left) + [TOr] + (OrOperand(e.right) + rest);
    } else {
      OrOperandTrip(e, rest, transform);
    }
  }

  /** Parsing what was printed gives the normal form. */
  lemma {:induction false} ExprTrip(e: Expr, rest: seq<Token>, transform: bool)
    requires EndsExpr(rest)
    ensures ParseExpr(Print(e) + rest, transform) == Ok(Norm(e, transform), rest)
    decreases e, 4
  {
    match e
    case And(x, y) =>
      AndTrip(y, rest, transform);
      AndChain(x, AndOperand(y) + rest, Norm(y, transform), rest, transform);
      assert Print(e) + rest == AndOperand(x) + [TAnd] + (AndOperand(y) + rest);
    case Or(x, y) =>
      OrTrip(y, rest, transform);
      OrChain(x, OrOperand(y) + rest, Norm(y, transform), rest, transform);
      assert Print(e) + rest == OrOperand(x) + [TOr] + (OrOperand(y) + rest);
    case _ => FactorTrip(e, rest, transform);
  }

  // Meaning --------------------------------------------------------------------------

  /** Every plain m read as m && MODULES, nothing else changed. */
  function Guarded(e: Expr, transform: bool): Expr {
    match e
    case Sym(s) => Plain(s, transform)
    case Relation(_, _, _) => e
    case Not(x) => Not(Guarded(x, transform))
    case And(x, y) => And(Guarded(x, transform), Guarded(y, transform))
    case Or(x, y) => Or(Guarded(x, transform), Guarded(y, transform))
  }

  /** Re-association keeps the value under every assignment. */
  lemma {:induction false} NormValue(e: Expr, transform: bool, tri: Symbol -> Tri, holds: (Rel, Symbol, Symbol) -> bool)
    ensures Value(Norm(e, transform), tri, holds) == Value(Guarded(e, transform), tri, holds)
    decreases e, 0
  {
    match e
    case Sym(_) =>
    case Relation(_, _, _) =>
    case Not(x) => NormValue(x, transform, tri, holds);
    case And(x, y) =>
      NormValue(y, transform, tri, holds);
      PrependAndValue(x, Norm(y, transform), transform, tri, holds);
    case Or(x, y) =>
      NormValue(y, transform, tri, holds);
      PrependOrValue(x, Norm(y, transform), transform, tri, holds);
  }

  lemma {:induction false} PrependAndValue(x: Expr, y: Expr, transform: bool, tri: Symbol -> Tri, holds: (Rel, Symbol, Symbol) -> bool)
    ensures Value(PrependAnd(x, y, transform), tri, holds) == Min(Value(Guarded(x, transform), tri, holds), Value(y, tri, holds))
    decreases x, 1
  {
    if x.And? {
      PrependAndValue(x.right, y, transform, tri, holds);
      PrependAndValue(x.left, PrependAnd(x.right, y, transform), transform, tri, holds);
    } else {
      NormValue(x, transform, tri, holds);
    }
  }

  lemma {:induction false} PrependOrValue(x: Expr, y: Expr, transform: bool, tri: Symbol -> Tri, holds: (Rel, Symbol, Symbol) -> bool)
    ensures Value(PrependOr(x, y, transform), tri, holds) == Max(Value(Guarded(x, transform), tri, holds), Value(y, tri, holds))
    decreases x, 1
  {
    if x.Or? {
      PrependOrValue(x.right, y, transform, tri, holds);
      PrependOrValue(x.left, PrependOr(x.right, y, transform), transform, tri, holds);
    } else {
      NormValue(x, transform, tri, holds);
    }
  }

  lemma {:induction false} NotGuarded(e: Expr)
    ensures Guarded(e, false) == e
  {
    match e
    case Not(x) => NotGuarded(x);
    case And(x, y) => NotGuarded(x); NotGuarded(y);
    case Or(x, y) => NotGuarded(x); NotGuarded(y);
    case _ =>
  }

  /** Without the rewrite, printing and parsing back keeps every value. */
  lemma RoundTripValue(e: Expr, tri: Symbol -> Tri, holds: (Rel, Symbol, Symbol) -> bool)
    ensures var r := ParseExpr(Print(e), false);
            r.Ok? && r.rest == [] && Value(r.e, tri, holds) == Value(e, tri, holds)
  {
    ExprTrip(e, [], false);
    assert Print(e) + [] == Print(e);
    NormValue(e, false, tri, holds);
    NotGuarded(e);
  }

  /** The values of symbols, with m as far as MODULES allows it. */
  function Capped(tri: Symbol -> Tri): Symbol -> Tri {
    (s: Symbol) => if s == M then Min(tri(M), tri(MODULES)) else tri(s)
  }

  lemma {:induction false} GuardedValue(e: Expr, tri: Symbol -> Tri, holds: (Rel, Symbol, Symbol) -> bool)
    ensures Value(Guarded(e, true), tri, holds) == Value(e, Capped(tri), holds)
  {
    match e
    case Not(x) => GuardedValue(x, tri, holds);
    case And(x, y) => GuardedValue(x, tri, holds); GuardedValue(y, tri, holds);
    case Or(x, y) => GuardedValue(x, tri, holds); GuardedValue(y, tri, holds);
    case _ =>
  }

  /** With the rewrite, the parsed expression has the value that the original has
      when m is read as far as MODULES allows it. So printing and parsing keeps a
      value exactly when reading m so makes no difference to the original. */
  lemma RewriteValue(e: Expr, tri: Symbol -> Tri, holds: (Rel, Symbol, Symbol) -> bool)
    ensures var r := ParseExpr(Print(e), true);
            && r.Ok? && r.rest == [] && Value(r.e, tri, holds) == Value(e, Capped(tri), holds)
            && (Value(r.e, tri, holds) == Value(e, tri, holds) <==> Value(e, Capped(tri), holds) == Value(e, tri, holds))
  {
    ExprTrip(e, [], true);
    assert Print(e) + [] == Print(e);
    NormValue(e, true, tri, holds);
    GuardedValue(e, tri, holds);
  }

  /** Every plain m stands in m && MODULES. */
  predicate Settled(e: Expr) {
    match e
    case Sym(s) => s != M
    case Relation(_, _, _) => true
    case Not(x) => Settled(x)
    case And(x, y) => (x == Sym(M) && y == Sym(MODULES)) || (Settled(x) && Settled(y))
    case Or(x, y) => Settled(x) && Settled(y)
  }

  /** Where MODULES allows m, or every m is guarded, m makes no difference. */
  lemma {:induction false} CappedSame(e: Expr, tri: Symbol -> Tri, holds: (Rel, Symbol, Symbol) -> bool)
    requires tri(M) <= tri(MODULES) || Settled(e)
    ensures Value(e, Capped(tri), holds) == Value(e, tri, holds)
  {
    match e
    case Not(x) => CappedSame(x, tri, holds);
    case And(x, y) =>
      if !(x == Sym(M) && y == Sym(MODULES)) {
        CappedSame(x, tri, holds);
        CappedSame(y, tri, holds);
      }
    case Or(x, y) => CappedSame(x, tri, holds); CappedSame(y, tri, holds);
    case _ =>
  }

  /** Whatever it reads, the parser with the rewrite leaves every m guarded. */
  lemma {:induction false} ParserSettles(ts: seq<Token>)
    ensures ParseExpr(ts, true).Ok? ==> Settled(ParseExpr(ts, true).e)
    decreases |ts|, 3
  {
    AndSettles(ts);
    var r := ParseAnd(ts, true);
    if r.Ok? && Peek(r.rest) == TOr { ParserSettles(r.rest[1..]); }
  }

  lemma {:induction false} AndSettles(ts: seq<Token>)
    ensures ParseAnd(ts, true).Ok? ==> Settled(ParseAnd(ts, true).e)
    decreases |ts|, 2
  {
    FactorSettles(ts);
    var r := ParseFactor(ts, true);
    if r.Ok? && Peek(r.rest) == TAnd { AndSettles(r.rest[1..]); }
  }

  lemma {:induction false} FactorSettles(ts: seq<Token>)
    ensures ParseFactor(ts, true).Ok? ==> Settled(ParseFactor(ts, true).e)
    decreases |ts|, 1
  {
    if ts != [] {
      match ts[0]
      case TNot => FactorSettles(ts[1..]);
      case TOpen => ParserSettles(ts[1..]);
      case _ =>
    }
  }

  /** So what was parsed with the rewrite once keeps its value from then on, under
      every assignment, however often it is printed and parsed. */
  lemma RewriteStable(ts: seq<Token>, tri: Symbol -> Tri, holds: (Rel, Symbol, Symbol) -> bool)
    requires ParseExpr(ts, true).Ok?
    ensures var e := ParseExpr(ts, true).e;
            var r := ParseExpr(Print(e), true);
            r.Ok? && r.rest == [] && Value(r.e, tri, holds) == Value(e, tri, holds)
  {
    var e := ParseExpr(ts, true).e;
    ParserSettles(ts);
    RewriteValue(e, tri, holds);
    CappedSame(e, tri, holds);
  }

  /** A bare m does change value when MODULES is n. */
  lemma RewriteExample(tri: Symbol -> Tri, holds: (Rel, Symbol, Symbol) -> bool)
    requires tri(M) == 1 && tri(MODULES) == 0
    ensures ParseExpr(Print(Sym(M)), true).Ok?
    ensures Value(ParseExpr(Print(Sym(M)), true).e, tri, holds) != Value(Sym(M), tri, holds)
  {
  }

  // Idempotence ----------------------------------------------------------------------

  lemma {:induction false} NormPrint(e: Expr)
    ensures Print(Norm(e, false)) == Print(e)
    ensures Norm(e, false).And? <==> e.And?
    ensures Norm(e, false).Or? <==> e.Or?
    ensures Norm(e, false).Sym? <==> e.Sym?
    decreases e, 0
  {
    match e
    case Not(x) => NormPrint(x);
    case And(x, y) =>
      NormPrint(y);
      PrependAndPrint(x, Norm(y, false));
    case Or(x, y) =>
      NormPrint(y);
      PrependOrPrint(x, Norm(y, false));
    case _ =>
  }

  lemma {:induction false} PrependAndPrint(x: Expr, y: Expr)
    ensures PrependAnd(x, y, false).And? && Print(PrependAnd(x, y, false)) == AndOperand(x) + [TAnd] + AndOperand(y)
    decreases x, 1
  {
    if x.And? {
      PrependAndPrint(x.right, y);
      PrependAndPrint(x.left, PrependAnd(x.right, y, false));
      assert AndOperand(x.left) + [TAnd] + (AndOperand(x.right) + [TAnd] + AndOperand(y))
          == AndOperand(x.left) + [TAnd] + AndOperand(x.right) + [TAnd] + AndOperand(y);
    } else {
      NormPrint(x);
    }
  }

  lemma {:induction false} PrependOrPrint(x: Expr, y: Expr)
    ensures PrependOr(x, y, false).Or? && Print(PrependOr(x, y, false)) == OrOperand(x) + [TOr] + OrOperand(y)
    decreases x, 1
  {
    if x.Or? {
      PrependOrPrint(x.right, y);
      PrependOrPrint(x.left, PrependOr(x.right, y, false));
      assert OrOperand(x.left) + [TOr] + (OrOperand(x.right) + [TOr] + OrOperand(y))
          == OrOperand(x.left) + [TOr] + OrOperand(x.right) + [TOr] + OrOperand(y);
    } else {
      NormPrint(x);
    }
  }

  /** Printing and parsing once more changes nothing, neither text nor tree. */
  lemma RoundTripIdempotent(e: Expr)
    ensures var r := ParseExpr(Print(e), false);
            r.Ok? && Print(r.e) == Print(e) && ParseExpr(Print(r.e), false) == r
  {
    ExprTrip(e, [], false);
    assert Print(e) + [] == Print(e);
    NormPrint(e);
  }

  // The parser -----------------------------------------------------------------------

  datatype Result = Good(e: Expr) | Error

  /** The recursive-descent parser over a token list and an index into it. */
  class Parser {
    const tokens: seq<Token>
    var i: nat

    ghost predicate Valid()
      reads this
    {
      i <= |tokens|
    }

    constructor (tokens: seq<Token>)
      ensures Valid() && this.tokens == tokens && i == 0
    {
      this.tokens, i := tokens, 0;
    }

    /** The outcome and the tokens left are those of the specification. */
    ghost predicate Gives(r: Result, p: Parsed)
      reads this
    {
      Valid() && if p.Ok? then r == Good(p.e) && tokens[i..] == p.rest else r == Error
    }

    method CurrentToken() returns (t: Token)
      requires Valid()
      ensures t == Peek(tokens[i..])
    {
      t := if i == |tokens| then TEnd else tokens[i];
    }

    /** `_check_token`. */
    method CheckToken(t: Token) returns (b: bool)
      requires Valid() && t != TEnd
      modifies this
      ensures Valid() && (b <==> Peek(old(tokens[i..])) == t)
      ensures i == if b then old(i) + 1 else old(i)
    {
      var cur := CurrentToken();
      b := cur == t;
      if b { i := i + 1; }
    }

    method ParseExprAt(transform: bool) returns (r: Result)
      requires Valid()
      modifies this
      ensures Gives(r, ParseExpr(old(tokens[i..]), transform))
      decreases |tokens| - i, 3
    {
      var left := ParseAndAt(transform);
      if left == Error { return Error; }
      assert tokens[i..] != [] ==> tokens[i..][1..] == tokens[i + 1..];
      var more := CheckToken(TOr);
      if !more { return left; }
      var right := ParseExprAt(transform);
      r := if right == Error then Error else Good(Or(left.e, right.e));
    }

    method ParseAndAt(transform: bool) returns (r: Result)
      requires Valid()
      modifies this
      ensures Gives(r, ParseAnd(old(tokens[i..]), transform))
      decreases |tokens| - i, 2
    {
      var left := ParseFactorAt(transform);
      if left == Error { return Error; }
      assert tokens[i..] != [] ==> tokens[i..][1..] == tokens[i + 1..];
      var more := CheckToken(TAnd);
      if !more { return left; }
      var right := ParseAndAt(transform);
      r := if right == Error then Error else Good(And(left.e, right.e));
    }

    method ParseFactorAt(transform: bool) returns (r: Result)
      requires Valid()
      modifies this
      ensures Gives(r, ParseFactor(old(tokens[i..]), transform))
      decreases |tokens| - i, 1
    {
      var token := CurrentToken();
      if i == |tokens| { return Error; }
      ghost var ts := tokens[i..];
      i := i + 1;
      assert ts[1..] == tokens[i..];
      if token.TSym? {
        var next := CurrentToken();
        if !next.TRel? {
          return Good(Plain(token.sym, transform));
        }
        i := i + 1;
        assert ts[1..][1..] == tokens[i..];
        var operand := CurrentToken();
        if !operand.TSym? {
          return Error;
        }
        i := i + 1;
        assert ts[1..][2..] == tokens[i..];
        return Good(Relation(next.rel, token.sym, operand.sym));
      }
      if token == TNot {
        r := ParseFactorAt(transform);
        if r != Error { r := Good(Not(r.e)); }
        return;
      }
      if token == TOpen {
        r := ParseExprAt(transform);
        if r != Error {
          assert tokens[i..] != [] ==> tokens[i..][1..] == tokens[i + 1..];
          var closed := CheckToken(TClose);
          if closed { return; }
        }
      }
      r := Error;
    }
  }
}
