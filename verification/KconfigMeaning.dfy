/** What the values of Kconfig mean: the laws that expressions, symbols and choices
    obey when everything is recomputed, and so whatever is cached. */
module KconfigMeaning {
  import opened KconfigExpr
  import opened KconfigValues
  import opened KconfigScratch
  import opened KconfigCache

  // What is read -----------------------------------------------------------------------

  ghost function Now(c: Config, u: User, e: Expr): Tri {
    Eval(c, u, Fresh(c, u), e).v
  }

  ghost function TriOf(c: Config, u: User, i: nat): Tri {
    ItemTri(c, u, Fresh(c, u), i).v
  }

  ghost function TextOf(c: Config, u: User, i: nat): string {
    ItemText(c, u, Fresh(c, u), i).v
  }

  ghost function VisNow(c: Config, u: User, i: nat): Tri {
    VisOf(c, Fresh(c, u), i).v
  }

  /** These are what the configuration answers. */
  lemma Answered(c: Config, u: User, i: nat, e: Expr)
    ensures FreshResult(c, u, ReadTri(i)) == T(TriOf(c, u, i)) && FreshResult(c, u, ReadText(i)) == S(TextOf(c, u, i))
    ensures FreshResult(c, u, ReadExpr(e)) == T(Now(c, u, e))
    ensures !Kind(c, i).Constant? ==> FreshResult(c, u, ReadVis(i)) == T(VisNow(c, u, i))
  {
  }

  lemma SymbolEq(c: Config, u: User, i: nat, d: SymbolDef)
    requires Ranked(c) && GoodUser(c, u) && Kind(c, i) == ASymbol(d)
    ensures VisNow(c, u, i) == SymbolVis(c, u, Fresh(c, u), d).v
    ensures Logical(d.ty) ==> TriOf(c, u, i) == SymbolTriOf(c, u, Fresh(c, u), i, d).v
    ensures TextOf(c, u, i) == SymbolText(c, u, Fresh(c, u), i, d).v
  {
    hide Scratch, Ranked, GoodUser, SymbolVis, SymbolTriOf, SymbolText;
    ScratchIs(c, u, Node(i, Vis));
    ScratchIs(c, u, Node(i, TriVal));
    ScratchIs(c, u, Node(i, StrVal));
  }

  lemma ChoiceEq(c: Config, u: User, i: nat, d: ChoiceDef)
    requires Ranked(c) && GoodUser(c, u) && Kind(c, i) == AChoice(d)
    ensures VisNow(c, u, i) == ChoiceVis(c, u, Fresh(c, u), d).v
    ensures Scratch(c, u, Node(i, Selection)) == Pick(Select(c, u, Fresh(c, u), i, d).v)
  {
    hide Scratch, Ranked, GoodUser, ChoiceVis, Select;
    ScratchIs(c, u, Node(i, Vis));
    ScratchIs(c, u, Node(i, Selection));
  }

  // Expressions ------------------------------------------------------------------------

  /** && is the smaller value, || the larger, ! exchanges n and y and keeps m. */
  lemma Connectives(c: Config, u: User, x: Expr, y: Expr)
    ensures Now(c, u, And(x, y)) <= Now(c, u, x) && Now(c, u, And(x, y)) <= Now(c, u, y)
    ensures Now(c, u, And(x, y)) == Now(c, u, x) || Now(c, u, And(x, y)) == Now(c, u, y)
    ensures Now(c, u, Or(x, y)) >= Now(c, u, x) && Now(c, u, Or(x, y)) >= Now(c, u, y)
    ensures Now(c, u, Or(x, y)) == Now(c, u, x) || Now(c, u, Or(x, y)) == Now(c, u, y)
    ensures Now(c, u, Not(x)) == (if Now(c, u, x) == 0 then 2 else if Now(c, u, x) == 2 then 0 else 1)
  {
    hide Fresh, ItemTri, Compare;
  }

  lemma DeMorgan(c: Config, u: User, x: Expr, y: Expr)
    ensures Now(c, u, Not(And(x, y))) == Now(c, u, Or(Not(x), Not(y)))
    ensures Now(c, u, Not(Or(x, y))) == Now(c, u, And(Not(x), Not(y)))
  {
    hide Now;
    Connectives(c, u, x, y);
    Connectives(c, u, Not(x), Not(y));
    Connectives(c, u, And(x, y), Or(x, y));
    Connectives(c, u, Or(x, y), x);
    Connectives(c, u, y, x);
  }

  /** The value of an expression is the one of `KconfigExpr`, in which printing and
      parsing are stated. */
  lemma {:induction false} SameValue(c: Config, u: User, e: Expr)
    ensures Now(c, u, e) == KconfigExpr.Value(e, (i: Symbol) => TriOf(c, u, i), (rel: Rel, a: Symbol, b: Symbol) => Now(c, u, Relation(rel, a, b)) == 2)
  {
    match e
    case Sym(_) =>
    case Relation(_, _, _) =>
    case Not(x) => SameValue(c, u, x);
    case And(x, y) =>
      SameValue(c, u, x);
      SameValue(c, u, y);
    case Or(x, y) =>
      SameValue(c, u, x);
      SameValue(c, u, y);
  }

  /** The number a symbol stands for in a relation: its value if it is bool or
      tristate, what its text parses to otherwise. */
  ghost predicate StandsFor(c: Config, u: User, i: nat, n: int) {
    if IsLogical(c, i) then n == TriOf(c, u, i) else c.parse(TypeOf(c, i), TextOf(c, u, i)) == Num(n)
  }

  /** The six relations. */
  predicate Compares(rel: Rel, x: int, y: int) {
    && (rel.Equal? ==> x == y) && (rel.Unequal? ==> x != y) && (rel.Less? ==> x < y)
    && (rel.LessEqual? ==> x <= y) && (rel.Greater? ==> x > y) && (rel.GreaterEqual? ==> x >= y)
  }

  /** A relation is y or n: between strings as their texts compare, between other
      operands as their numbers do, and as their texts do if one is no number. */
  lemma Relations(c: Config, u: User, rel: Rel, a: nat, b: nat)
    ensures Now(c, u, Relation(rel, a, b)) in {0, 2}
    ensures IsText(c, a) && IsText(c, b) ==>
      (Now(c, u, Relation(rel, a, b)) == 2 <==> Compares(rel, c.strcmp(TextOf(c, u, a), TextOf(c, u, b)), 0))
    ensures !(IsText(c, a) && IsText(c, b)) ==> forall x, y :: StandsFor(c, u, a, x) && StandsFor(c, u, b, y) ==>
      (Now(c, u, Relation(rel, a, b)) == 2 <==> Compares(rel, x, y))
    ensures (forall x :: !StandsFor(c, u, a, x)) || (forall y :: !StandsFor(c, u, b, y)) ==>
      (Now(c, u, Relation(rel, a, b)) == 2 <==> Compares(rel, c.strcmp(TextOf(c, u, a), TextOf(c, u, b)), 0))
  {
    hide ItemText, ItemTri, Fresh;
    var env := Fresh(c, u);
    NumberIs(c, u, a);
    NumberIs(c, u, b);
  }

  lemma NumberIs(c: Config, u: User, i: nat)
    ensures ItemNumber(c, u, Fresh(c, u), i).v.NaN? <==> forall n :: !StandsFor(c, u, i, n)
    ensures forall n :: StandsFor(c, u, i, n) <==> ItemNumber(c, u, Fresh(c, u), i).v == Num(n)
  {
    hide ItemText, ItemTri, Fresh;
    var x := ItemNumber(c, u, Fresh(c, u), i).v;
    assert x.Num? ==> StandsFor(c, u, i, x.n);
  }

  // Visibility ---------------------------------------------------------------------------

  /** The largest of the conditions. */
  lemma {:induction false} MaxIs(c: Config, u: User, es: seq<Expr>)
    ensures forall e :: e in es ==> Now(c, u, e) <= MaxOf(c, u, Fresh(c, u), es).v
    ensures MaxOf(c, u, Fresh(c, u), es).v == 0 || exists e :: e in es && Now(c, u, e) == MaxOf(c, u, Fresh(c, u), es).v
  {
    hide Eval;
    if es != [] {
      var k := |es| - 1;
      MaxIs(c, u, es[..k]);
      assert es == es[..k] + [es[k]];
      var v := MaxOf(c, u, Fresh(c, u), es).v;
      if v == Now(c, u, es[k]) {
        assert es[k] in es;
      } else if v != 0 {
        var e :| e in es[..k] && Now(c, u, e) == MaxOf(c, u, Fresh(c, u), es[..k]).v;
        assert e in es;
      }
    }
  }

  /** Outside choices a symbol is visible exactly if one of its prompts is, no less
      than any prompt, and no more than the largest but that m is y for bool. */
  lemma Visible(c: Config, u: User, i: nat, d: SymbolDef)
    requires Formed(c) && GoodUser(c, u) && Kind(c, i) == ASymbol(d) && d.choice < 0
    ensures VisNow(c, u, i) == 0 <==> forall p :: p in d.prompts ==> Now(c, u, p) == 0
    ensures forall p :: p in d.prompts ==> Now(c, u, p) <= VisNow(c, u, i)
    ensures VisNow(c, u, i) == 0 || exists p :: p in d.prompts && (Now(c, u, p) == VisNow(c, u, i) || (Now(c, u, p) == 1 && !CanBeM(c, u, d)))
    ensures !CanBeM(c, u, d) ==> VisNow(c, u, i) != 1
  {
    hide Ranked, GoodUser, MaxOf, Scratch;
    SymbolEq(c, u, i, d);
    MaxIs(c, u, d.prompts);
    TristateNow(c, u, d);
  }

  /** What is tristate now: not while MODULES is n, and not in a choice that is y. */
  ghost predicate CanBeM(c: Config, u: User, d: SymbolDef) {
    d.ty.Tristate? && TriOf(c, u, c.modules) != 0 && !(d.choice >= 0 && TriOf(c, u, d.choice) == 2)
  }

  lemma TristateNow(c: Config, u: User, d: SymbolDef)
    requires !Kind(c, c.modules).AChoice?
    requires d.choice >= 0 ==> Kind(c, d.choice).AChoice?
    ensures StaysTristate(c, u, Fresh(c, u), d.choice).v <==>
      TriOf(c, u, c.modules) != 0 && !(d.choice >= 0 && TriOf(c, u, d.choice) == 2)
  {
  }
}
