/** The cached properties of symbols and choices, and their invalidation. */
module KconfigCache {
  import opened KconfigExpr
  import opened KconfigValues
  import opened KconfigScratch

  predicate Cacheable(c: Config, n: Node) {
    match Kind(c, n.item)
    case ASymbol(_) => !n.prop.Selection?
    case AChoice(_) => n.prop.Vis? || n.prop.Selection?
    case Constant(_, _, _) => false
  }

  /** Symbols that are not logical have the tristate value n, whatever else. */
  predicate AlwaysN(c: Config, n: Node) {
    Kind(c, n.item).ASymbol? && !Logical(Kind(c, n.item).s.ty) && n.prop.TriVal?
  }

  /** Each cached value is what recomputation gives, and all it uses is cached. */
  ghost predicate Right(c: Config, u: User, cache: map<Node, Val>) {
    forall n :: n in cache ==> Cacheable(c, n) && cache[n] == Scratch(c, u, n) && Uses(c, u, n) <= cache.Keys
  }

  /** A cached visibility tells whether an item has anything cached. */
  predicate Flagged(c: Config, keys: set<Node>) {
    forall n :: n in keys ==> Cacheable(c, n) && (AlwaysN(c, n) || Node(n.item, Vis) in keys)
  }

  /** Visibility is computed on the way to every other attribute. */
  lemma VisUsed(c: Config, u: User, n: Node)
    requires Cacheable(c, n) && !n.prop.Vis? && !AlwaysN(c, n)
    ensures Node(n.item, Vis) in Uses(c, u, n)
      || (n.prop.StrVal? && Node(n.item, TriVal) in Uses(c, u, n) && Node(n.item, Vis) in Uses(c, u, Node(n.item, TriVal)))
  {
    if Kind(c, n.item).AChoice? { ChoiceVisUsed(c, u, n.item); }
  }

  lemma ChoiceVisUsed(c: Config, u: User, i: nat)
    requires Kind(c, i).AChoice?
    ensures Node(i, Vis) in Uses(c, u, Node(i, Selection))
  {
    assert Node(i, Vis) in ChoiceTri(c, u, Fresh(c, u), i).uses;
  }

  lemma RightFlagged(c: Config, u: User, cache: map<Node, Val>)
    requires Right(c, u, cache)
    ensures Flagged(c, cache.Keys) && Closed(c, u, cache.Keys)
  {
    hide Scratch, Uses;
    forall n | n in cache ensures AlwaysN(c, n) || Node(n.item, Vis) in cache {
      if !n.prop.Vis? && !AlwaysN(c, n) { VisUsed(c, u, n); }
    }
  }

  lemma RightAt(c: Config, u: User, cache: map<Node, Val>, n: Node)
    requires Right(c, u, cache) && n in cache
    ensures cache[n] == Scratch(c, u, n)
  {
  }

  // Invalidation ---------------------------------------------------------------------

  /** What lost its value between two caches is used by nothing that kept it. */
  ghost predicate Sealed(c: Config, u: User, before: set<Node>, after: set<Node>) {
    forall n, m :: n in after && m in Uses(c, u, n) && m in before ==> m in after
  }

  /** The dependents of an item have no value left that could be stale. */
  predicate Cleared(c: Config, deps: set<nat>, keys: set<Node>) {
    forall n :: n in keys && n.item in deps ==> AlwaysN(c, n)
  }

  /** A set of items that holds its own dependents, and not MODULES. */
  ghost predicate DependentsWithin(c: Config, reach: set<nat>) {
    c.modules !in reach && forall i :: i in reach ==> Dependents(c, i) <= reach
  }

  /** Everything cached outside these items is still cached. */
  predicate Spared(reach: set<nat>, before: set<Node>, after: set<Node>) {
    forall n :: n in before && n.item !in reach ==> n in after
  }

  function Without(keys: set<Node>, x: nat): set<Node> {
    set n | n in keys && n.item != x
  }

  lemma SealedJoin(c: Config, u: User, a: set<Node>, b: set<Node>, d: set<Node>)
    requires Sealed(c, u, a, b) && Sealed(c, u, b, d) && d <= b <= a
    ensures Sealed(c, u, a, d)
  {
    hide Uses;
  }

  /** Once its dependents are cleared, nothing uses an invalidated item. */
  lemma SealedItem(c: Config, u: User, x: nat, before: set<Node>, after: set<Node>)
    requires Sound(c) && GoodUser(c, u) && x != c.modules
    requires Sealed(c, u, Without(before, x), after) && after <= Without(before, x)
    requires Cleared(c, Dependents(c, x), after)
    ensures Sealed(c, u, before, after)
  {
    hide Sound, GoodUser, Uses;
    forall n, m | n in after && m in Uses(c, u, n) && m in before ensures m in after {
      Tracked(c, u, n, m);
      if m.item == x { AlwaysNUses(c, u, n); }
    }
  }

  lemma AlwaysNUses(c: Config, u: User, n: Node)
    ensures AlwaysN(c, n) ==> Uses(c, u, n) == {}
  {
  }

  lemma WithoutLess(keys: set<Node>, before: set<Node>, x: nat, y: nat)
    requires keys <= Without(before, x) && Node(y, Vis) in keys
    ensures |Without(keys, y)| < |Without(before, x)|
  {
    assert Without(keys, y) <= keys - {Node(y, Vis)};
    Smaller(Without(keys, y), keys - {Node(y, Vis)});
    Smaller(keys, Without(before, x));
  }

  lemma Smaller(a: set<Node>, b: set<Node>)
    requires a <= b
    ensures |a| <= |b|
  {
    assert b == a + (b - a);
  }

  /** What a cache keeps after an invalidation is right for the new settings. */
  lemma KeptRight(c: Config, u: User, u': User, before: map<Node, Val>, after: map<Node, Val>)
    requires Ranked(c) && GoodUser(c, u) && GoodUser(c, u')
    requires Right(c, u, before) && after.Keys <= before.Keys && (forall n :: n in after ==> after[n] == before[n])
    requires Sealed(c, u, before.Keys, after.Keys) && Untouched(c, u, u', after.Keys)
    ensures Right(c, u', after)
  {
    hide Ranked, GoodUser, Scratch, Uses, Untouched;
    assert Closed(c, u, after.Keys);
    forall n | n in after ensures after[n] == Scratch(c, u', n) && Uses(c, u', n) <= after.Keys {
      StillRight(c, u, u', after.Keys, n);
    }
  }

  // Setting values -------------------------------------------------------------------

  datatype Value = Tri3(t: Tri) | Text(s: string)

  function TypeCode(c: Config, i: nat): Type {
    match Kind(c, i)
    case Constant(logical, _, _) => if logical then Tristate else Str
    case ASymbol(d) => d.ty
    case AChoice(d) => if d.tristate then Tristate else Bool
  }

  /** "n", "m" and "y" name the tristate values. */
  function Normal(ty: Type, v: Value): Value {
    if !Logical(ty) || v.Tri3? then v
    else if v.s == "n" then Tri3(0)
    else if v.s == "m" then Tri3(1)
    else if v.s == "y" then Tri3(2)
    else v
  }

  /** Whether a value has a form that suits a type. */
  predicate Fits(c: Config, ty: Type, v: Value) {
    match ty
    case Bool => v.Tri3? && v.t != 1
    case Tristate => v.Tri3?
    case Str => v.Text?
    case Int => v.Text? && c.parse(Int, v.s).Num?
    case Hex => v.Text? && c.parse(Hex, v.s).Num? && c.parse(Hex, v.s).n >= 0
  }

  /** Whether an item can be given a value at all: not those with no type. */
  predicate Typed(c: Config, i: nat) {
    Kind(c, i).Constant? ==> Kind(c, i).logical
  }

  predicate Accepted(c: Config, i: nat, v: Value) {
    Typed(c, i) && Fits(c, TypeCode(c, i), Normal(TypeCode(c, i), v))
  }

  /** The settings with one value replaced. */
  function Assigned(u: User, i: nat, v: Value): User {
    match v
    case Tri3(t) => u.(tri := u.tri[i := t])
    case Text(s) => u.(text := u.text[i := s])
  }

  function ChoiceOf(c: Config, i: nat): int {
    if Kind(c, i).ASymbol? then c.items[i].s.choice else -1
  }

  /** The settings after `Symbol.set_value` or `Choice.set_value`: an accepted
      value is remembered, and y on a choice symbol selects it. */
  function AfterSet(c: Config, u: User, i: nat, v: Value): User {
    var w := Normal(TypeCode(c, i), v);
    if !Accepted(c, i, v) then u
    else if ChoiceOf(c, i) >= 0 && w == Tri3(2) then
      var u' := Assigned(u, i, w);
      u'.(selection := u'.selection[ChoiceOf(c, i) := i])
    else Assigned(u, i, w)
  }

  /** The item whose dependents `set_value` invalidates. */
  function StartOf(c: Config, i: nat, v: Value): int {
    if ChoiceOf(c, i) >= 0 && Normal(TypeCode(c, i), v) == Tri3(2) then ChoiceOf(c, i) else i
  }

  /** The settings after `unset_value`. */
  function AfterUnset(c: Config, u: User, i: nat): User {
    if Kind(c, i).AChoice? then u.(tri := u.tri - {i}, selection := u.selection - {i})
    else u.(tri := u.tri - {i}, text := u.text - {i})
  }

  // The cached properties ------------------------------------------------------------

  ghost predicate Under(c: Config, r: nat, nodes: set<Node>) {
    forall m :: m in nodes ==> c.rank(m) < r
  }

  /** An evaluation gave the right value and left everything it used cached. */
  ghost predicate Answers<X>(v: X, r: Out<X>, keys: set<Node>) {
    v == r.v && r.uses <= keys
  }

  class Kconf {
    const config: Config
    var user: User
    var cache: map<Node, Val>

    ghost predicate Inv()
      reads this
    {
      Formed(config) && GoodUser(config, user) && Right(config, user, cache)
    }

    constructor (c: Config)
      requires Formed(c)
      ensures Inv() && config == c && user == User(map[], map[], map[]) && cache == map[]
    {
      config := c;
      user := User(map[], map[], map[]);
      cache := map[];
    }

    // Reading ------------------------------------------------------------------------

    /** Remembers an attribute whose uses are all cached. */
    method Store(n: Node, v: Val)
      requires Inv() && Cacheable(config, n)
      requires v == Scratch(config, user, n) && Uses(config, user, n) <= cache.Keys
      modifies `cache
      ensures Inv() && cache == old(cache)[n := v]
    {
      hide Formed, GoodUser, Scratch, Uses;
      cache := cache[n := v];
    }

    /** `Symbol.tri_value`: what is cached is returned as it is. */
    method SymbolTriValue(i: nat) returns (v: Tri)
      requires Kind(config, i).ASymbol? && (Inv() || Node(i, TriVal) in cache)
      modifies `cache
      ensures old(Inv()) ==> Inv() && v == AsTri(Scratch(config, user, Node(i, TriVal)))
      ensures old(cache.Keys) <= cache.Keys && Node(i, TriVal) in cache && v == AsTri(cache[Node(i, TriVal)])
      ensures Node(i, TriVal) in old(cache) ==> cache == old(cache)
      decreases config.rank(Node(i, TriVal)), 9
    {
      hide GoodUser, Right, Scratch, ExprsNodes, ExprNodes, ModeNodes;
      var n, d := Node(i, TriVal), Kind(config, i).s;
      if n in cache {
        v := AsTri(cache[n]);
        assert Inv() ==> v == AsTri(Scratch(config, user, n)) by { if Inv() { RightAt(config, user, cache, n); } }
        return;
      }
      ghost var env := Fresh(config, user);
      ScratchIs(config, user, n);
      assert Under(config, config.rank(n), MayUse(config, n));
      if !Logical(d.ty) {
        v := 0;
      } else {
        var vis := Visibility(i);
        if d.choice < 0 {
          v := PlainTriValue(i, d, vis, config.rank(n));
        } else if vis == 2 {
          assert Kind(config, d.choice).AChoice? by { assert Inside(config, i, d); }
          var sel := SelectionOf(d.choice);
          v := if sel == i then 2 else 0;
        } else {
          v := if vis != 0 && i in user.tri && user.tri[i] != 0 then 1 else 0;
        }
      }
      Store(n, T(v));
    }

    /** A value in the cache, which is right. */
    method Known(n: Node) returns (v: Tri)
      requires Inv() && n in cache
      ensures v == AsTri(Scratch(config, user, n))
    {
      v := AsTri(cache[n]);
    }

    /** `Choice.tri_value` */
    method ChoiceTriValue(i: nat, ghost r: nat) returns (v: Tri)
      requires Inv() && Kind(config, i).AChoice? && Under(config, r, ChoiceNodes(config, i))
      modifies `cache
      ensures Inv() && old(cache.Keys) <= cache.Keys
      ensures Answers(v, ChoiceTri(config, user, Fresh(config, user), i), cache.Keys)
      decreases r, 1
    {
      hide Formed, GoodUser, Right, Scratch;
      var d := Kind(config, i).c;
      v := if d.optional then 0 else 1;
      if i in user.tri { v := Max(v, user.tri[i]); }
      var vis := Visibility(i);
      v := Min(v, vis);
      if v == 1 {
        if !d.tristate {
          v := 2;
        } else {
          var mods := ModulesValue(r);
          if mods == 0 { v := 2; }
        }
      }
    }

    /** `kconfig.modules.tri_value` */
    method ModulesValue(ghost r: nat) returns (v: Tri)
      requires Inv() && Under(config, r, SymbolNodes(config, config.modules))
      modifies `cache
      ensures Inv() && old(cache.Keys) <= cache.Keys
      ensures Answers(v, SymbolTri(config, Fresh(config, user), config.modules), cache.Keys)
      decreases r, 0
    {
      hide GoodUser, Right, Scratch;
      v := 0;
      if Kind(config, config.modules).Constant? {
        v := Kind(config, config.modules).tri;
      } else if IsLogical(config, config.modules) && Kind(config, config.modules).ASymbol? {
        v := SymbolTriValue(config.modules);
      }
    }

    /** `tri_value` of a symbol or choice. */
    method TriValue(i: nat, ghost r: nat) returns (v: Tri)
      requires Inv() && Under(config, r, SymbolNodes(config, i) + ChoiceNodes(config, i))
      modifies `cache
      ensures Inv() && old(cache.Keys) <= cache.Keys
      ensures Answers(v, ItemTri(config, user, Fresh(config, user), i), cache.Keys)
      decreases r, 2
    {
      hide Formed, GoodUser, Right, Scratch;
      match Kind(config, i) {
        case Constant(_, t, _) => v := t;
        case ASymbol(d) =>
          if Logical(d.ty) { v := SymbolTriValue(i); } else { v := 0; }
        case AChoice(_) => v := ChoiceTriValue(i, r);
      }
    }

    /** `str_value` of a symbol or choice. */
    method StrValue(i: nat, ghost r: nat) returns (v: string)
      requires Inv() && Under(config, r, TextNodes(config, i))
      modifies `cache
      ensures Inv() && old(cache.Keys) <= cache.Keys
      ensures Answers(v, ItemText(config, user, Fresh(config, user), i), cache.Keys)
      decreases r, 2
    {
      hide Formed, GoodUser, Right, Scratch;
      match Kind(config, i) {
        case Constant(_, _, text) => v := text;
        case ASymbol(_) => v := SymbolStrValue(i);
        case AChoice(_) =>
          var t := ChoiceTriValue(i, r);
          v := TriText(t);
      }
    }

    /** `_sym_to_num` */
    method ToNumber(i: nat, ghost r: nat) returns (v: Number)
      requires Inv() && Under(config, r, ItemNodes(config, i))
      modifies `cache
      ensures Inv() && old(cache.Keys) <= cache.Keys
      ensures Answers(v, ItemNumber(config, user, Fresh(config, user), i), cache.Keys)
      decreases r, 3
    {
      hide Formed, GoodUser, Right, Scratch;
      if IsLogical(config, i) {
        var t := TriValue(i, r);
        v := Num(t);
      } else {
        var t := StrValue(i, r);
        v := config.parse(TypeOf(config, i), t);
      }
    }

    method CompareStrings(a: nat, b: nat, ghost r: nat) returns (v: int)
      requires Inv() && Under(config, r, ItemNodes(config, a) + ItemNodes(config, b))
      modifies `cache
      ensures Inv() && old(cache.Keys) <= cache.Keys
      ensures Answers(v, CompareText(config, user, Fresh(config, user), a, b), cache.Keys)
      decreases r, 3
    {
      hide Formed, GoodUser, Right, Scratch;
      var x := StrValue(a, r);
      var y := StrValue(b, r);
      v := config.strcmp(x, y);
    }

    /** The comparison in a relation. */
    method CompareItems(a: nat, b: nat, ghost r: nat) returns (v: int)
      requires Inv() && Under(config, r, ItemNodes(config, a) + ItemNodes(config, b))
      modifies `cache
      ensures Inv() && old(cache.Keys) <= cache.Keys
      ensures Answers(v, Compare(config, user, Fresh(config, user), a, b), cache.Keys)
      decreases r, 4
    {
      hide Formed, GoodUser, Right, Scratch, CompareText, ItemNumber, ItemNodes;
      if IsText(config, a) && IsText(config, b) {
        v := CompareStrings(a, b, r);
      } else {
        var x := ToNumber(a, r);
        if x.NaN? {
          v := CompareStrings(a, b, r);
        } else {
          var y := ToNumber(b, r);
          if y.NaN? {
            v := CompareStrings(a, b, r);
          } else {
            v := x.n - y.n;
          }
        }
      }
    }

    /** `expr_value` */
    method ExprValue(e: Expr, ghost r: nat) returns (v: Tri)
      requires Inv() && Under(config, r, ExprNodes(config, e))
      modifies `cache
      ensures Inv() && old(cache.Keys) <= cache.Keys
      ensures Answers(v, Eval(config, user, Fresh(config, user), e), cache.Keys)
      decreases r, 5, e
    {
      hide Formed, GoodUser, Right, Scratch, Compare, ItemTri, ItemNodes, SymbolNodes, ChoiceNodes;
      match e {
        case Sym(i) => v := TriValue(i, r);
        case Relation(rel, a, b) =>
          var comp := CompareItems(a, b, r);
          v := if RelHolds(rel, comp) then 2 else 0;
        case Not(x) =>
          var t := ExprValue(x, r);
          v := 2 - t;
        case And(x, y) =>
          v := ExprValue(x, r);
          if v != 0 {
            var w := ExprValue(y, r);
            v := Min(v, w);
          }
        case Or(x, y) =>
          v := ExprValue(x, r);
          if v != 2 {
            var w := ExprValue(y, r);
            v := Max(v, w);
          }
      }
    }

    /** The largest value of some conditions. */
    method MaxValue(es: seq<Expr>, ghost r: nat) returns (v: Tri)
      requires Inv() && Under(config, r, ExprsNodes(config, es))
      modifies `cache
      ensures Inv() && old(cache.Keys) <= cache.Keys
      ensures Answers(v, MaxOf(config, user, Fresh(config, user), es), cache.Keys)
      decreases r, 6
    {
      hide Formed, GoodUser, Right, Scratch, Eval, ExprNodes;
      v := 0;
      for k := 0 to |es|
        invariant Inv() && old(cache.Keys) <= cache.Keys
        invariant Answers(v, MaxOf(config, user, Fresh(config, user), es[..k]), cache.Keys)
      {
        assert es[..k + 1][..k] == es[..k];
        var w := ExprValue(es[k], r);
        v := Max(v, w);
      }
      assert es[..|es|] == es;
    }

    /** Whether `type` is TRISTATE for a tristate symbol. */
    method IsTristate(choice: int, ghost r: nat) returns (v: bool)
      requires Inv() && Under(config, r, ModeNodes(config, true, choice)) && (choice >= 0 ==> Kind(config, choice).AChoice?)
      modifies `cache
      ensures Inv() && old(cache.Keys) <= cache.Keys
      ensures Answers(v, StaysTristate(config, user, Fresh(config, user), choice), cache.Keys)
      decreases r, 2
    {
      hide Formed, GoodUser, Right, Scratch, ChoiceTri, SymbolTri;
      if choice >= 0 {
        var mode := ChoiceTriValue(choice, r);
        if mode == 2 { v := false; return; }
      }
      var mods := ModulesValue(r);
      v := mods != 0;
    }

    /** `visibility`: computed once, then remembered. */
    method Visibility(i: nat) returns (v: Tri)
      requires Inv() && !Kind(config, i).Constant?
      modifies `cache
      ensures Inv() && old(cache.Keys) <= cache.Keys && Node(i, Vis) in cache
      ensures v == AsTri(Scratch(config, user, Node(i, Vis)))
      decreases config.rank(Node(i, Vis)), 9
    {
      hide GoodUser, Right, Scratch, SymbolVis, Promote, ExprsNodes, ModeNodes;
      var n := Node(i, Vis);
      if n in cache {
        v := Known(n);
        return;
      }
      ScratchIs(config, user, n);
      assert Under(config, config.rank(n), MayUse(config, n));
      if Kind(config, i).ASymbol? {
        assert Inside(config, i, Kind(config, i).s);
        v := SymbolVisibility(Kind(config, i).s, config.rank(n));
      } else {
        var d := Kind(config, i).c;
        v := MaxValue(d.prompts, config.rank(n));
        v := PromoteTo(d.tristate, -1, v, MaxOf(config, user, Fresh(config, user), d.prompts), config.rank(n));
      }
      Store(n, T(v));
    }

    /** m becomes y for what is not tristate. */
    method PromoteTo(tristate: bool, choice: int, vis: Tri, ghost out: Out<Tri>, ghost r: nat) returns (v: Tri)
      requires Inv() && Under(config, r, ModeNodes(config, tristate, choice)) && (choice >= 0 ==> Kind(config, choice).AChoice?)
      requires Answers(vis, out, cache.Keys)
      modifies `cache
      ensures Inv() && old(cache.Keys) <= cache.Keys
      ensures Answers(v, Promote(config, user, Fresh(config, user), tristate, choice, out), cache.Keys)
      decreases r, 3
    {
      hide Formed, GoodUser, Right, Scratch, StaysTristate, ModeNodes;
      v := vis;
      if vis == 1 {
        if tristate {
          var t := IsTristate(choice, r);
          if !t { v := 2; }
        } else {
          v := 2;
        }
      }
    }

    /** `_visibility` of a symbol. */
    method SymbolVisibility(d: SymbolDef, ghost r: nat) returns (v: Tri)
      requires Inv() && Under(config, r, ExprsNodes(config, d.prompts) + ModeNodes(config, d.ty.Tristate?, d.choice))
      requires d.choice >= 0 ==> Kind(config, d.choice).AChoice?
      modifies `cache
      ensures Inv() && old(cache.Keys) <= cache.Keys
      ensures Answers(v, SymbolVis(config, user, Fresh(config, user), d), cache.Keys)
      decreases r, 7
    {
      hide Formed, GoodUser, Right, Scratch, MaxOf, StaysTristate, ChoiceTri, ExprsNodes;
      ghost var env := Fresh(config, user);
      ghost var prompts := MaxOf(config, user, env, d.prompts);
      v := MaxValue(d.prompts, r);
      ghost var out := if prompts.v != 0 && d.choice >= 0 then InChoice(config, user, env, d, prompts) else prompts;
      if d.choice >= 0 {
        var ch := Kind(config, d.choice).c;
        if ch.tristate && !d.ty.Tristate? {
          var mode := ChoiceTriValue(d.choice, r);
          if mode != 2 { v := 0; return; }
        }
        if d.ty.Tristate? && v == 1 {
          var mode := ChoiceTriValue(d.choice, r);
          if mode == 2 { v := 0; return; }
        }
      }
      v := PromoteTo(d.ty.Tristate?, d.choice, v, out, r);
    }

    /** The first default that holds, and its condition's value. */
    method FindDefault(ds: seq<Default>, ghost r: nat) returns (k: nat, cond: Tri)
      requires Inv() && Under(config, r, ExprsNodes(config, Conds(ds)))
      modifies `cache
      ensures Inv() && old(cache.Keys) <= cache.Keys
      ensures k <= |ds| && Answers(k, FirstDefault(config, user, Fresh(config, user), ds, 0), cache.Keys)
      ensures k < |ds| ==> Answers(cond, Eval(config, user, Fresh(config, user), ds[k].cond), cache.Keys)
      decreases r, 6
    {
      hide Formed, GoodUser, Right, Scratch, Eval, ExprNodes;
      ghost var env := Fresh(config, user);
      ghost var all := FirstDefault(config, user, env, ds, 0);
      k, cond := 0, 0;
      while k < |ds|
        invariant Inv() && old(cache.Keys) <= cache.Keys
        invariant k <= |ds| && all.v == FirstDefault(config, user, env, ds, k).v
        invariant all.uses <= cache.Keys + FirstDefault(config, user, env, ds, k).uses
      {
        assert Conds(ds)[k] in Conds(ds);
        cond := ExprValue(ds[k].cond, r);
        if cond != 0 { return; }
        k := k + 1;
      }
    }

    /** The first range that holds. */
    method FindRange(rs: seq<Range>, ghost r: nat) returns (k: nat)
      requires Inv() && Under(config, r, ExprsNodes(config, RangeConds(rs)))
      modifies `cache
      ensures Inv() && old(cache.Keys) <= cache.Keys
      ensures k <= |rs| && Answers(k, FirstRange(config, user, Fresh(config, user), rs, 0), cache.Keys)
      decreases r, 6
    {
      hide Formed, GoodUser, Right, Scratch, Eval, ExprNodes;
      ghost var env := Fresh(config, user);
      ghost var all := FirstRange(config, user, env, rs, 0);
      k := 0;
      while k < |rs|
        invariant Inv() && old(cache.Keys) <= cache.Keys
        invariant k <= |rs| && all.v == FirstRange(config, user, env, rs, k).v
        invariant all.uses <= cache.Keys + FirstRange(config, user, env, rs, k).uses
      {
        assert RangeConds(rs)[k] in RangeConds(rs);
        var cond := ExprValue(rs[k].cond, r);
        if cond != 0 { return; }
        k := k + 1;
      }
    }

    /** The value from defaults and weak reverse dependencies. */
    method DefaultTriValue(d: SymbolDef, ghost r: nat) returns (v: Tri)
      requires Inv() && d.choice < 0 && Under(config, r, ValueNodes(config, d))
      modifies `cache
      ensures Inv() && old(cache.Keys) <= cache.Keys
      ensures Answers(v, DefaultTri(config, user, Fresh(config, user), d), cache.Keys)
      decreases r, 7
    {
      hide Formed, GoodUser, Right, Scratch, Eval, ExprNodes, FirstDefault;
      v := 0;
      var k, cond := FindDefault(d.defaults, r);
      if k < |d.defaults| {
        assert Values(d.defaults)[k] in Values(d.defaults);
        v := ExprValue(d.defaults[k].value, r);
        v := Min(v, cond);
      }
      var weak := ExprValue(d.weakRevDep, r);
      if weak != 0 {
        var direct := ExprValue(d.directDep, r);
        if direct != 0 { v := Max(weak, v); }
      }
    }

    /** The value of a symbol outside choices, before m is promoted. */
    method BaseTriValue(i: nat, d: SymbolDef, vis: Tri, ghost r: nat) returns (v: Tri)
      requires Inv() && d.choice < 0 && Under(config, r, ValueNodes(config, d))
      modifies `cache
      ensures Inv() && old(cache.Keys) <= cache.Keys
      ensures Answers(v, BaseTri(config, user, Fresh(config, user), i, d, vis), cache.Keys)
      decreases r, 8, 0
    {
      hide Formed, GoodUser, Right, Scratch, Eval, ExprNodes, DefaultTri;
      if vis != 0 && i in user.tri {
        v := Min(user.tri[i], vis);
      } else {
        v := DefaultTriValue(d, r);
      }
      var rev := ExprValue(d.revDep, r);
      if rev != 0 {
        // Only for a warning.
        var _ := ExprValue(d.directDep, r);
        v := Max(rev, v);
      }
    }

    /** The value of a symbol outside choices. */
    method PlainTriValue(i: nat, d: SymbolDef, vis: Tri, ghost r: nat) returns (v: Tri)
      requires Inv() && d.choice < 0 && Logical(d.ty) && Under(config, r, ValueNodes(config, d))
      modifies `cache
      ensures Inv() && old(cache.Keys) <= cache.Keys
      ensures Answers(v, PlainTri(config, user, Fresh(config, user), i, d, vis), cache.Keys)
      decreases r, 8, 1
    {
      hide Formed, GoodUser, Right, Scratch, Eval, ExprNodes, ExprsNodes, BaseTri, StaysTristate, ModeNodes;
      v := BaseTriValue(i, d, vis, r);
      if v == 1 {
        if d.ty.Bool? {
          v := 2;
        } else {
          var t := IsTristate(d.choice, r);
          if !t {
            v := 2;
          } else {
            var weak := ExprValue(d.weakRevDep, r);
            if weak == 2 { v := 2; }
          }
        }
      }
    }

    /** The text of the first default that holds. */
    method DefaultStrValue(d: SymbolDef, ghost r: nat) returns (v: string)
      requires Inv() && Under(config, r, TextValueNodes(config, d))
      modifies `cache
      ensures Inv() && old(cache.Keys) <= cache.Keys
      ensures Answers(v, DefaultText(config, user, Fresh(config, user), d), cache.Keys)
      decreases r, 7
    {
      hide Formed, GoodUser, Right, Scratch, ItemText, ExprsNodes, TextNodes, FirstDefault;
      v := "";
      var k, _ := FindDefault(d.defaults, r);
      if k < |d.defaults| && d.defaults[k].value.Sym? {
        assert d.defaults[k] in d.defaults && d.defaults[k].value.sym in Sole(d.defaults);
        v := StrValue(d.defaults[k].value.sym, r);
      }
    }

    /** The range in force. */
    method ActiveBounds(d: SymbolDef, ghost r: nat) returns (b: Bounds)
      requires Inv() && Under(config, r, TextValueNodes(config, d))
      modifies `cache
      ensures Inv() && old(cache.Keys) <= cache.Keys
      ensures Answers(b, BoundsOf(config, user, Fresh(config, user), d), cache.Keys)
      decreases r, 7
    {
      hide Formed, GoodUser, Right, Scratch, ItemText, ExprsNodes, TextNodes, FirstRange, NumberOr0;
      b := Unbounded;
      var k := FindRange(d.ranges, r);
      if k < |d.ranges| {
        assert d.ranges[k] in d.ranges && d.ranges[k].low in Ends(d.ranges) && d.ranges[k].high in Ends(d.ranges);
        var low := StrValue(d.ranges[k].low, r);
        var high := StrValue(d.ranges[k].high, r);
        b := Bounded(NumberOr0(config, d.ty, low), NumberOr0(config, d.ty, high));
      }
    }

    /** The text of an int or hex symbol. */
    method NumberStrValue(i: nat, d: SymbolDef, vis: Tri, ghost r: nat) returns (v: string)
      requires Inv() && Under(config, r, TextValueNodes(config, d))
      modifies `cache
      ensures Inv() && old(cache.Keys) <= cache.Keys
      ensures Answers(v, NumberText(config, user, Fresh(config, user), i, d, vis), cache.Keys)
      decreases r, 8
    {
      hide Formed, GoodUser, Right, Scratch, BoundsOf, DefaultText, TextValueNodes, NumberOr0;
      var b := ActiveBounds(d, r);
      if vis != 0 && i in user.text && user.text[i] != "" {
        if Within(b, NumberOr0(config, d.ty, user.text[i])) {
          v := user.text[i];
          return;
        }
      }
      v := DefaultStrValue(d, r);
      var n := NumberOr0(config, d.ty, v);
      if b.Bounded? {
        if n < b.low { v := config.render(d.ty, b.low); }
        else if n > b.high { v := config.render(d.ty, b.high); }
      }
    }

    /** `Symbol.str_value` */
    method SymbolStrValue(i: nat) returns (v: string)
      requires Inv() && Kind(config, i).ASymbol?
      modifies `cache
      ensures Inv() && old(cache.Keys) <= cache.Keys && Node(i, StrVal) in cache
      ensures v == AsText(Scratch(config, user, Node(i, StrVal)))
      decreases config.rank(Node(i, StrVal)), 9
    {
      hide Formed, GoodUser, Right, Scratch, NumberText, DefaultText, TextValueNodes;
      var n, d := Node(i, StrVal), Kind(config, i).s;
      if n in cache {
        v := KnownText(n);
        return;
      }
      ghost var r := config.rank(n);
      assert Ranked(config) by { FormedRanked(config); }
      ScratchIs(config, user, n);
      assert Under(config, r, MayUse(config, n));
      if Logical(d.ty) {
        var t := SymbolTriValue(i);
        v := TriText(t);
      } else {
        var vis := Visibility(i);
        if !d.ty.Str? {
          v := NumberStrValue(i, d, vis, r);
        } else if vis != 0 && i in user.text {
          v := user.text[i];
        } else {
          v := DefaultStrValue(d, r);
        }
      }
      Store(n, S(v));
    }

    method KnownText(n: Node) returns (v: string)
      requires Inv() && n in cache
      ensures v == AsText(Scratch(config, user, n))
    {
      v := AsText(cache[n]);
    }

    /** `Choice.selection`; -1 for none. What is cached is returned as it is. */
    method SelectionOf(i: nat) returns (v: int)
      requires Kind(config, i).AChoice?
      requires Inv() || (Node(i, Selection) in cache && cache[Node(i, Selection)].Pick?)
      modifies `cache
      ensures old(Inv()) ==> Inv() && Scratch(config, user, Node(i, Selection)) == Pick(v)
      ensures old(cache.Keys) <= cache.Keys && Node(i, Selection) in cache && cache[Node(i, Selection)] == Pick(v)
      ensures Node(i, Selection) in old(cache) ==> cache == old(cache)
      decreases config.rank(Node(i, Selection)), 9
    {
      hide Formed, Right, Scratch, ExprsNodes, ChoiceNodes, ChoiceTri, SelectDefault;
      var n, d := Node(i, Selection), Kind(config, i).c;
      ghost var r := config.rank(n);
      if Inv() {
        assert Ranked(config) by { FormedRanked(config); }
        ScratchIs(config, user, n);
        assert Under(config, r, MayUse(config, n));
        if n in cache { RightAt(config, user, cache, n); }
      }
      if n in cache {
        v := cache[n].sym;
        return;
      }
      v := -1;
      var mode := ChoiceTriValue(i, r);
      if mode == 2 {
        if i in user.selection {
          var vis := VisibilityIn(user.selection[i], r);
          if vis != 0 { v := user.selection[i]; }
        }
        if v < 0 {
          v := SelectionFromDefaults(d, r);
        }
      }
      Store(n, Pick(v));
    }

    /** `visibility` of a symbol, which is n where nothing is defined. */
    method VisibilityIn(i: nat, ghost r: nat) returns (v: Tri)
      requires Inv() && Under(config, r, VisNodes(config, {i}))
      modifies `cache
      ensures Inv() && old(cache.Keys) <= cache.Keys
      ensures Answers(v, VisOf(config, Fresh(config, user), i), cache.Keys)
      decreases r, 1
    {
      hide Formed, GoodUser, Right, Scratch;
      v := 0;
      if !Kind(config, i).Constant? { v := Visibility(i); }
    }

    /** `_selection_from_defaults` */
    method SelectionFromDefaults(d: ChoiceDef, ghost r: nat) returns (v: int)
      requires Inv() && Under(config, r, ExprsNodes(config, PrefConds(d.defaults)) + VisNodes(config, Candidates(d)))
      modifies `cache
      ensures Inv() && old(cache.Keys) <= cache.Keys
      ensures Answers(v, SelectDefault(config, user, Fresh(config, user), d, 0), cache.Keys)
      decreases r, 6
    {
      hide Formed, GoodUser, Right, Scratch, Eval, ExprNodes, FirstVisible;
      ghost var env := Fresh(config, user);
      ghost var all := SelectDefault(config, user, env, d, 0);
      var k := 0;
      while k < |d.defaults|
        invariant Inv() && old(cache.Keys) <= cache.Keys
        invariant k <= |d.defaults| && all.v == SelectDefault(config, user, env, d, k).v
        invariant all.uses <= cache.Keys + SelectDefault(config, user, env, d, k).uses
      {
        assert PrefConds(d.defaults)[k] in PrefConds(d.defaults);
        assert d.defaults[k] in d.defaults && d.defaults[k].sym in Candidates(d);
        var cond := ExprValue(d.defaults[k].cond, r);
        if cond != 0 {
          var vis := VisibilityIn(d.defaults[k].sym, r);
          if vis != 0 { v := d.defaults[k].sym; return; }
        }
        k := k + 1;
      }
      v := FirstVisibleOf(d.syms, r);
    }

    /** The first visible symbol of a choice. */
    method FirstVisibleOf(syms: seq<nat>, ghost r: nat) returns (v: int)
      requires Inv() && Under(config, r, VisNodes(config, set i | i in syms))
      modifies `cache
      ensures Inv() && old(cache.Keys) <= cache.Keys
      ensures Answers(v, FirstVisible(config, Fresh(config, user), syms, 0), cache.Keys)
      decreases r, 5
    {
      hide Formed, GoodUser, Right, Scratch;
      ghost var env := Fresh(config, user);
      ghost var all := FirstVisible(config, env, syms, 0);
      for k := 0 to |syms|
        invariant Inv() && old(cache.Keys) <= cache.Keys
        invariant all.v == FirstVisible(config, env, syms, k).v
        invariant all.uses <= cache.Keys + FirstVisible(config, env, syms, k).uses
      {
        var vis := VisibilityIn(syms[k], r);
        if vis != 0 { v := syms[k]; return; }
      }
      v := -1;
    }

    // Invalidating -------------------------------------------------------------------

    /** `_rec_invalidate`. The walk stops at items with no cached visibility, and
        yet what is left, right for the settings `u` before, uses nothing that
        went; and nothing goes but dependents of dependents. */
    method RecInvalidate(x: nat, ghost u: User)
      requires Flagged(config, cache.Keys)
      modifies `cache
      ensures cache.Keys <= Without(old(cache.Keys), x) && (forall n :: n in cache ==> cache[n] == old(cache)[n])
      ensures Flagged(config, cache.Keys) && Cleared(config, Dependents(config, x), cache.Keys)
      ensures Sound(config) && GoodUser(config, u) ==> Sealed(config, u, old(cache.Keys), cache.Keys)
      ensures forall reach :: x in reach && DependentsWithin(config, reach) ==> Spared(reach, old(cache.Keys), cache.Keys)
      decreases |Without(cache.Keys, x)|
    {
      hide Sound, GoodUser, Uses;
      if x == config.modules {
        // _invalidate_all
        cache := map[];
        return;
      }
      cache := map n | n in cache && n.item != x :: cache[n];
      assert cache.Keys == Without(old(cache.Keys), x);
      var todo := Dependents(config, x);
      while todo != {}
        invariant cache.Keys <= Without(old(cache.Keys), x) && (forall n :: n in cache ==> cache[n] == old(cache)[n])
        invariant Flagged(config, cache.Keys) && Cleared(config, Dependents(config, x) - todo, cache.Keys)
        invariant Sound(config) && GoodUser(config, u) ==> Sealed(config, u, Without(old(cache.Keys), x), cache.Keys)
        invariant forall reach :: x in reach && DependentsWithin(config, reach) ==> Spared(reach, old(cache.Keys), cache.Keys)
        invariant todo <= Dependents(config, x)
        decreases |todo|
      {
        var item :| item in todo;
        if Node(item, Vis) in cache {
          ghost var before := cache.Keys;
          WithoutLess(before, old(cache.Keys), x, item);
          RecInvalidate(item, u);
          if Sound(config) && GoodUser(config, u) {
            SealedJoin(config, u, Without(old(cache.Keys), x), before, cache.Keys);
          }
        }
        todo := todo - {item};
      }
      if Sound(config) && GoodUser(config, u) {
        SealedItem(config, u, x, old(cache.Keys), cache.Keys);
      }
    }

    /** `_rec_invalidate_if_has_prompt` */
    method RecInvalidateIfHasPrompt(i: nat, ghost u: User)
      requires !Kind(config, i).AChoice? && Flagged(config, cache.Keys)
      modifies `cache
      ensures cache.Keys <= old(cache.Keys) && (forall n :: n in cache ==> cache[n] == old(cache)[n])
      ensures Sound(config) && GoodUser(config, u) ==> Sealed(config, u, old(cache.Keys), cache.Keys)
      ensures forall n :: n in cache && n.item == i ==> IsSilent(config, i)
      ensures forall reach :: i in reach && DependentsWithin(config, reach) ==> Spared(reach, old(cache.Keys), cache.Keys)
    {
      hide Sound, GoodUser, Uses;
      if Kind(config, i).ASymbol? && Kind(config, i).s.prompts != [] {
        RecInvalidate(i, u);
      }
    }

    // Setting ------------------------------------------------------------------------

    /** `Symbol.set_value`; whether the value was accepted. For a sound configuration
        what stays cached is right; for any, only what depends on the symbol (on its
        choice, if it is selected) can lose its value. */
    method SetSymbol(i: nat, value: Value) returns (ok: bool)
      requires Inv() && !Kind(config, i).AChoice?
      modifies this
      ensures Sound(config) ==> Inv()
      ensures ok == Accepted(config, i, value) && user == AfterSet(config, old(user), i, value)
      ensures cache.Keys <= old(cache.Keys) && (forall n :: n in cache ==> cache[n] == old(cache)[n])
      ensures forall reach :: StartOf(config, i, value) in reach && DependentsWithin(config, reach) ==>
        Spared(reach, old(cache.Keys), cache.Keys)
    {
      hide Sound, Formed, Right, Scratch, Uses, GoodUser, Untouched, IsSilent, TypeCode, Fits, Sealed, Cleared, Flagged, Closed;
      var ty := TypeCode(config, i);
      var w := Normal(ty, value);
      var d := ChoiceOf(config, i);
      if d < 0 && Holds(i, w) && Accepted(config, i, value) {
        assert Assigned(user, i, w) == user by { AssignedSame(user, i, w); }
        return true;
      }
      if !Accepted(config, i, value) { return false; }
      ghost var u := user;
      RightFlagged(config, u, cache);
      user := Assigned(user, i, w);
      if d >= 0 && w == Tri3(2) {
        FormedInside(config, i);
        user := user.(selection := user.selection[d := i]);
        RecInvalidate(d, u);
        if Sound(config) {
          SoundLinked(config, i);
          LinkedCleared(config, i, d, cache.Keys);
          PickedUntouched(config, u, i, d, w, cache.Keys);
        }
      } else {
        RecInvalidateIfHasPrompt(i, u);
        AssignedUntouched(config, u, i, w, cache.Keys);
      }
      if Sound(config) {
        FormedRanked(config);
        KeptRight(config, u, user, old(cache), cache);
      }
      ok := true;
    }

    /** Whether the user value of an item is this one. */
    predicate Holds(i: nat, w: Value)
      reads this
    {
      match w
      case Tri3(t) => i in user.tri && user.tri[i] == t
      case Text(s) => i in user.text && user.text[i] == s
    }

    /** `Choice.set_value` */
    method SetChoice(i: nat, value: Value) returns (ok: bool)
      requires Inv() && Kind(config, i).AChoice?
      modifies this
      ensures Sound(config) ==> Inv()
      ensures ok == Accepted(config, i, value) && user == AfterSet(config, old(user), i, value)
    {
      hide Sound, Formed, Right, Scratch, Uses;
      var w := Normal(TypeCode(config, i), value);
      if Holds(i, w) && Accepted(config, i, value) {
        assert Assigned(user, i, w) == user by { AssignedSame(user, i, w); }
        return true;
      }
      if !Accepted(config, i, value) { return false; }
      ghost var u := user;
      RightFlagged(config, u, cache);
      user := Assigned(user, i, w);
      RecInvalidate(i, u);
      if Sound(config) {
        FormedRanked(config);
        KeptRight(config, u, user, old(cache), cache);
      }
      ok := true;
    }

    /** `unset_value` of a symbol. */
    method UnsetSymbol(i: nat)
      requires Inv() && !Kind(config, i).AChoice?
      modifies this
      ensures Sound(config) ==> Inv()
      ensures user == AfterUnset(config, old(user), i)
    {
      hide Sound, Formed, Right, Scratch, Uses;
      if i in user.tri || i in user.text {
        ghost var u := user;
        RightFlagged(config, u, cache);
        user := user.(tri := user.tri - {i}, text := user.text - {i});
        RecInvalidateIfHasPrompt(i, u);
        if Sound(config) {
          FormedRanked(config);
          KeptRight(config, u, user, old(cache), cache);
        }
      } else {
        assert user.tri - {i} == user.tri && user.text - {i} == user.text;
      }
    }

    /** `unset_value` of a choice. */
    method UnsetChoice(i: nat)
      requires Inv() && Kind(config, i).AChoice?
      modifies this
      ensures Sound(config) ==> Inv()
      ensures user == AfterUnset(config, old(user), i)
    {
      hide Sound, Formed, Right, Scratch, Uses, Untouched, GoodUser, Ranked;
      if i in user.tri || i in user.selection {
        ghost var u := user;
        RightFlagged(config, u, cache);
        user := user.(tri := user.tri - {i}, selection := user.selection - {i});
        RecInvalidate(i, u);
        if Sound(config) {
          FormedRanked(config);
          UnsetUntouched(config, u, i, cache.Keys);
          KeptRight(config, u, user, old(cache), cache);
        }
      } else {
        assert user.tri - {i} == user.tri && user.selection - {i} == user.selection;
      }
    }

    // Runs ---------------------------------------------------------------------------

    /** One call from outside. */
    method Perform(call: Call) returns (v: Val)
      requires Sound(config) && Inv() && Allowed(config, call)
      modifies this
      ensures Inv() && user == AfterCall(config, old(user), call) && v == FreshResult(config, old(user), call)
    {
      hide Sound, Formed, GoodUser, Right, Scratch, AfterSet, AfterUnset, Accepted;
      match call {
        case Set(i, w) =>
          var ok;
          if Kind(config, i).AChoice? { ok := SetChoice(i, w); } else { ok := SetSymbol(i, w); }
          v := T(if ok then 2 else 0);
        case Unset(i) =>
          if Kind(config, i).AChoice? { UnsetChoice(i); } else { UnsetSymbol(i); }
          v := T(0);
        case ReadVis(i) =>
          var t := Visibility(i);
          v := T(t);
        case ReadTri(i) =>
          ghost var r := Bound(config, SymbolNodes(config, i) + ChoiceNodes(config, i));
          var t := TriValue(i, r);
          v := T(t);
        case ReadText(i) =>
          ghost var r := Bound(config, TextNodes(config, i));
          var t := StrValue(i, r);
          v := S(t);
        case ReadSelection(i) =>
          var sel := SelectionOf(i);
          v := Pick(sel);
        case ReadExpr(e) =>
          ghost var r := Bound(config, ExprNodes(config, e));
          var t := ExprValue(e, r);
          v := T(t);
      }
    }

    /** Any sequence of calls answers as if nothing were ever cached. */
    method Run(calls: seq<Call>) returns (vs: seq<Val>)
      requires Sound(config) && Inv() && (forall call :: call in calls ==> Allowed(config, call))
      modifies this
      ensures Inv() && user == AfterAll(config, old(user), calls) && vs == FreshResults(config, old(user), calls)
    {
      hide Sound, Formed, GoodUser, Right, AfterCall, FreshResult;
      vs := [];
      for k := 0 to |calls|
        invariant Inv() && user == AfterAll(config, old(user), calls[..k])
        invariant vs == FreshResults(config, old(user), calls[..k])
      {
        assert calls[..k + 1][..k] == calls[..k];
        var v := Perform(calls[k]);
        vs := vs + [v];
      }
      assert calls[..|calls|] == calls;
    }
  }

  /** What can be asked of the configuration. */
  datatype Call =
    | Set(i: nat, value: Value)
    | Unset(i: nat)
    | ReadVis(i: nat)
    | ReadTri(i: nat)
    | ReadText(i: nat)
    | ReadSelection(i: nat)
    | ReadExpr(e: Expr)

  predicate Allowed(c: Config, call: Call) {
    && (call.ReadVis? ==> !Kind(c, call.i).Constant?)
    && (call.ReadSelection? ==> Kind(c, call.i).AChoice?)
  }

  function AfterCall(c: Config, u: User, call: Call): User {
    match call
    case Set(i, v) => AfterSet(c, u, i, v)
    case Unset(i) => AfterUnset(c, u, i)
    case _ => u
  }

  /** The answer to a call, with every value recomputed. */
  ghost function FreshResult(c: Config, u: User, call: Call): Val {
    match call
    case Set(i, v) => T(if Accepted(c, i, v) then 2 else 0)
    case Unset(i) => T(0)
    case ReadVis(i) => T(AsTri(Scratch(c, u, Node(i, Vis))))
    case ReadTri(i) => T(ItemTri(c, u, Fresh(c, u), i).v)
    case ReadText(i) => S(ItemText(c, u, Fresh(c, u), i).v)
    case ReadSelection(i) => Scratch(c, u, Node(i, Selection))
    case ReadExpr(e) => T(Eval(c, u, Fresh(c, u), e).v)
  }

  function AfterAll(c: Config, u: User, calls: seq<Call>): User {
    if calls == [] then u
    else AfterCall(c, AfterAll(c, u, calls[..|calls| - 1]), calls[|calls| - 1])
  }

  ghost function FreshResults(c: Config, u: User, calls: seq<Call>): seq<Val> {
    if calls == [] then []
    else
      var k := |calls| - 1;
      FreshResults(c, u, calls[..k]) + [FreshResult(c, AfterAll(c, u, calls[..k]), calls[k])]
  }

  /** A rank above those of some attributes. */
  ghost function Bound(c: Config, nodes: set<Node>): (r: nat)
    ensures Under(c, r, nodes)
  {
    if nodes == {} then 0
    else
      var m :| m in nodes;
      var r := Bound(c, nodes - {m});
      if c.rank(m) < r then r else c.rank(m) + 1
  }

  lemma AssignedSame(u: User, i: nat, w: Value)
    requires match w case Tri3(t) => i in u.tri && u.tri[i] == t case Text(s) => i in u.text && u.text[i] == s
    ensures Assigned(u, i, w) == u
  {
    if w.Tri3? {
      assert u.tri[i := w.t] == u.tri;
    } else {
      assert u.text[i := w.s] == u.text;
    }
  }

  lemma SoundLinked(c: Config, i: nat)
    requires Sound(c) && Kind(c, i).ASymbol?
    ensures Linked(c, i, Kind(c, i).s)
  {
  }

  /** A logical choice symbol keeps no value when its choice is invalidated. */
  lemma LinkedCleared(c: Config, i: nat, d: nat, keys: set<Node>)
    requires Kind(c, i).ASymbol? && Linked(c, i, Kind(c, i).s) && Kind(c, i).s.choice == d
    requires Fits(c, TypeCode(c, i), Tri3(2))
    requires Cleared(c, Dependents(c, d), keys)
    ensures forall n :: n in keys && n.item == i ==> IsSilent(c, i)
  {
  }

  lemma AssignedUntouched(c: Config, u: User, i: nat, w: Value, keys: set<Node>)
    requires GoodUser(c, u) && (forall n :: n in keys && n.item == i ==> IsSilent(c, i))
    ensures GoodUser(c, Assigned(u, i, w)) && Untouched(c, u, Assigned(u, i, w), keys)
  {
  }

  lemma UnsetUntouched(c: Config, u: User, i: nat, keys: set<Node>)
    requires GoodUser(c, u) && Kind(c, i).AChoice? && forall n :: n in keys ==> n.item != i
    ensures GoodUser(c, AfterUnset(c, u, i)) && Untouched(c, u, AfterUnset(c, u, i), keys)
  {
  }

  lemma PickedUntouched(c: Config, u: User, i: nat, d: nat, w: Value, keys: set<Node>)
    requires GoodUser(c, u) && (forall n :: n in keys && n.item == i ==> IsSilent(c, i))
    requires (forall n :: n in keys ==> n.item != d) && (Kind(c, d).AChoice? ==> i in Kind(c, d).c.syms)
    ensures
      var v := Assigned(u, i, w).(selection := u.selection[d := i]);
      GoodUser(c, v) && Untouched(c, u, v, keys)
  {
  }

  lemma FormedRanked(c: Config)
    requires Formed(c)
    ensures Ranked(c)
  {
  }

  lemma FormedInside(c: Config, i: nat)
    requires Formed(c) && Kind(c, i).ASymbol?
    ensures Inside(c, i, Kind(c, i).s)
  {
  }
}
