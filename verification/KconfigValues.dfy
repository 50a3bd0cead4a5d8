/** How Kconfig values are computed: what each attribute is, and what it uses. */
module KconfigValues {
  import opened KconfigExpr

  datatype Type = Bool | Tristate | Str | Int | Hex

  datatype Default = Default(value: Expr, cond: Expr)

  datatype Range = Range(low: nat, high: nat, cond: Expr)

  /** A symbol with its propagated properties; `choice` is -1 outside choices. */
  datatype SymbolDef = SymbolDef(
    ty: Type, prompts: seq<Expr>, defaults: seq<Default>, ranges: seq<Range>,
    revDep: Expr, weakRevDep: Expr, directDep: Expr, choice: int)

  datatype Pref = Pref(sym: nat, cond: Expr)

  datatype ChoiceDef = ChoiceDef(tristate: bool, prompts: seq<Expr>, defaults: seq<Pref>, syms: seq<nat>, optional: bool)

  /** Constant symbols and those without a definition have a fixed value. */
  datatype Item = Constant(logical: bool, tri: Tri, text: string) | ASymbol(s: SymbolDef) | AChoice(c: ChoiceDef)

  datatype Prop = Vis | TriVal | StrVal | Selection

  /** A cached attribute of an item. */
  datatype Node = Node(item: nat, prop: Prop)

  datatype Val = T(tri: Tri) | S(text: string) | Pick(sym: int)

  datatype Number = NaN | Num(n: int)

  /** The parsed configuration. `parse`, `render` and `strcmp` stand for Python's
      int(), str() or hex(), and string comparison; `rank` is a witness that the
      attributes have no dependency loop. */
  datatype Config = Config(
    items: map<nat, Item>, modules: nat, parse: (Type, string) -> Number,
    render: (Type, int) -> string, strcmp: (string, string) -> int, rank: Node -> nat)

  /** What the user has set. */
  datatype User = User(tri: map<nat, Tri>, text: map<nat, string>, selection: map<nat, nat>)

  /** A result and the attributes it rests on. */
  datatype Out<X> = Out(v: X, uses: set<Node>)

  type Env = Node -> Val

  function Kind(c: Config, i: nat): Item {
    if i in c.items then c.items[i] else Constant(false, 0, "")
  }

  predicate Logical(ty: Type) {
    ty.Bool? || ty.Tristate?
  }

  function AsTri(v: Val): Tri {
    if v.T? then v.tri else 0
  }

  function AsText(v: Val): string {
    if v.S? then v.text else ""
  }

  function TriText(t: Tri): string {
    if t == 0 then "n" else if t == 1 then "m" else "y"
  }

  // Expressions ----------------------------------------------------------------------

  function SymbolTri(c: Config, env: Env, i: nat): Out<Tri> {
    match Kind(c, i)
    case Constant(_, t, _) => Out(t, {})
    case ASymbol(s) => if Logical(s.ty) then Out(AsTri(env(Node(i, TriVal))), {Node(i, TriVal)}) else Out(0, {})
    case AChoice(_) => Out(0, {})
  }

  /** `Choice.tri_value`, which is not cached. */
  function ChoiceTri(c: Config, u: User, env: Env, i: nat): Out<Tri> {
    match Kind(c, i)
    case AChoice(d) =>
      var mode: Tri := if d.optional then 0 else 1;
      var wanted := if i in u.tri then Max(mode, u.tri[i]) else mode;
      var vis := Node(i, Vis);
      var val := Min(wanted, AsTri(env(vis)));
      if val != 1 then Out(val, {vis})
      else if !d.tristate then Out(2, {vis})
      else
        var mods := SymbolTri(c, env, c.modules);
        Out(if mods.v == 0 then 2 else 1, {vis} + mods.uses)
    case _ => Out(0, {})
  }

  function ItemTri(c: Config, u: User, env: Env, i: nat): Out<Tri> {
    if Kind(c, i).AChoice? then ChoiceTri(c, u, env, i) else SymbolTri(c, env, i)
  }

  function ItemText(c: Config, u: User, env: Env, i: nat): Out<string> {
    match Kind(c, i)
    case Constant(_, _, text) => Out(text, {})
    case ASymbol(_) => Out(AsText(env(Node(i, StrVal))), {Node(i, StrVal)})
    case AChoice(_) =>
      var t := ChoiceTri(c, u, env, i);
      Out(TriText(t.v), t.uses)
  }

  predicate IsText(c: Config, i: nat) {
    Kind(c, i).ASymbol? && Kind(c, i).s.ty.Str?
  }

  predicate IsLogical(c: Config, i: nat) {
    match Kind(c, i)
    case Constant(logical, _, _) => logical
    case ASymbol(s) => Logical(s.ty)
    case AChoice(_) => true
  }

  function TypeOf(c: Config, i: nat): Type {
    if Kind(c, i).ASymbol? then Kind(c, i).s.ty else Str
  }

  /** `_sym_to_num`. */
  function ItemNumber(c: Config, u: User, env: Env, i: nat): Out<Number> {
    if IsLogical(c, i) then
      var t := ItemTri(c, u, env, i);
      Out(Num(t.v), t.uses)
    else
      var t := ItemText(c, u, env, i);
      Out(c.parse(TypeOf(c, i), t.v), t.uses)
  }

  function RelHolds(rel: Rel, comp: int): bool {
    match rel
    case Equal => comp == 0
    case Unequal => comp != 0
    case Less => comp < 0
    case LessEqual => comp <= 0
    case Greater => comp > 0
    case GreaterEqual => comp >= 0
  }

  function CompareText(c: Config, u: User, env: Env, a: nat, b: nat): Out<int> {
    var x, y := ItemText(c, u, env, a), ItemText(c, u, env, b);
    Out(c.strcmp(x.v, y.v), x.uses + y.uses)
  }

  /** The comparison in a relation: as strings, or as numbers if both are. */
  function Compare(c: Config, u: User, env: Env, a: nat, b: nat): Out<int> {
    if IsText(c, a) && IsText(c, b) then CompareText(c, u, env, a, b)
    else
      var x := ItemNumber(c, u, env, a);
      if x.v.NaN? then
        var t := CompareText(c, u, env, a, b);
        Out(t.v, x.uses + t.uses)
      else
        var y := ItemNumber(c, u, env, b);
        if y.v.NaN? then
          var t := CompareText(c, u, env, a, b);
          Out(t.v, x.uses + y.uses + t.uses)
        else Out(x.v.n - y.v.n, x.uses + y.uses)
  }

  /** `expr_value`. */
  function Eval(c: Config, u: User, env: Env, e: Expr): Out<Tri> {
    match e
    case Sym(i) => ItemTri(c, u, env, i)
    case Relation(rel, a, b) =>
      var comp := Compare(c, u, env, a, b);
      Out(if RelHolds(rel, comp.v) then 2 else 0, comp.uses)
    case Not(x) =>
      var v := Eval(c, u, env, x);
      Out(2 - v.v, v.uses)
    case And(x, y) =>
      var v := Eval(c, u, env, x);
      if v.v == 0 then Out(0, v.uses)
      else var w := Eval(c, u, env, y); Out(Min(v.v, w.v), v.uses + w.uses)
    case Or(x, y) =>
      var v := Eval(c, u, env, x);
      if v.v == 2 then Out(2, v.uses)
      else var w := Eval(c, u, env, y); Out(Max(v.v, w.v), v.uses + w.uses)
  }

  // Attributes -----------------------------------------------------------------------

  /** The largest value of the conditions. */
  function MaxOf(c: Config, u: User, env: Env, es: seq<Expr>): Out<Tri> {
    if es == [] then Out(0, {})
    else
      var v, w := MaxOf(c, u, env, es[..|es| - 1]), Eval(c, u, env, es[|es| - 1]);
      Out(Max(v.v, w.v), v.uses + w.uses)
  }

  /** `Symbol.type is TRISTATE` for a tristate symbol. */
  function StaysTristate(c: Config, u: User, env: Env, choice: int): Out<bool> {
    if choice < 0 then
      var mods := SymbolTri(c, env, c.modules);
      Out(mods.v != 0, mods.uses)
    else
      var mode := ChoiceTri(c, u, env, choice);
      if mode.v == 2 then Out(false, mode.uses)
      else
        var mods := SymbolTri(c, env, c.modules);
        Out(mods.v != 0, mode.uses + mods.uses)
  }

  /** m becomes y for what is not tristate. */
  function Promote(c: Config, u: User, env: Env, tristate: bool, choice: int, vis: Out<Tri>): Out<Tri> {
    if vis.v != 1 then vis
    else if !tristate then Out(2, vis.uses)
    else
      var t := StaysTristate(c, u, env, choice);
      Out(if t.v then 1 else 2, vis.uses + t.uses)
  }

  /** How a choice limits the visibility of its symbols. */
  function InChoice(c: Config, u: User, env: Env, d: SymbolDef, vis: Out<Tri>): Out<Tri>
    requires d.choice >= 0
  {
    var inTristate := Kind(c, d.choice).AChoice? && Kind(c, d.choice).c.tristate;
    var mode := ChoiceTri(c, u, env, d.choice);
    if inTristate && !d.ty.Tristate? then Out(if mode.v != 2 then 0 else vis.v, vis.uses + mode.uses)
    else if d.ty.Tristate? && vis.v == 1 then Out(if mode.v == 2 then 0 else 1, vis.uses + mode.uses)
    else vis
  }

  /** `_visibility` of a symbol. */
  function SymbolVis(c: Config, u: User, env: Env, d: SymbolDef): Out<Tri> {
    var vis := MaxOf(c, u, env, d.prompts);
    if vis.v == 0 then vis
    else Promote(c, u, env, d.ty.Tristate?, d.choice, if d.choice >= 0 then InChoice(c, u, env, d, vis) else vis)
  }

  function ChoiceVis(c: Config, u: User, env: Env, d: ChoiceDef): Out<Tri> {
    Promote(c, u, env, d.tristate, -1, MaxOf(c, u, env, d.prompts))
  }

  /** The first default whose condition holds, from position `k` on. */
  function FirstDefault(c: Config, u: User, env: Env, ds: seq<Default>, k: nat): (r: Out<nat>)
    requires k <= |ds|
    ensures r.v <= |ds|
    decreases |ds| - k
  {
    if k == |ds| then Out(k, {})
    else
      var cond := Eval(c, u, env, ds[k].cond);
      if cond.v != 0 then Out(k, cond.uses)
      else var r := FirstDefault(c, u, env, ds, k + 1); Out(r.v, cond.uses + r.uses)
  }

  /** The value from defaults and weak reverse dependencies. */
  function DefaultTri(c: Config, u: User, env: Env, d: SymbolDef): Out<Tri> {
    var first := FirstDefault(c, u, env, d.defaults, 0);
    var val: Out<Tri> :=
      if first.v == |d.defaults| then Out(0, first.uses)
      else
        var x, y := Eval(c, u, env, d.defaults[first.v].value), Eval(c, u, env, d.defaults[first.v].cond);
        Out(Min(x.v, y.v), first.uses + x.uses + y.uses);
    var weak := Eval(c, u, env, d.weakRevDep);
    if weak.v == 0 then Out(val.v, val.uses + weak.uses)
    else
      var direct := Eval(c, u, env, d.directDep);
      Out(if direct.v != 0 then Max(weak.v, val.v) else val.v, val.uses + weak.uses + direct.uses)
  }

  /** The value a symbol outside choices would have without promotion. */
  function BaseTri(c: Config, u: User, env: Env, i: nat, d: SymbolDef, vis: Tri): Out<Tri> {
    var base := if vis != 0 && i in u.tri then Out(Min(u.tri[i], vis), {}) else DefaultTri(c, u, env, d);
    var rev := Eval(c, u, env, d.revDep);
    if rev.v == 0 then Out(base.v, base.uses + rev.uses)
    else Out(Max(rev.v, base.v), base.uses + rev.uses)
  }

  /** `Symbol.tri_value` outside choices, given the visibility. */
  function PlainTri(c: Config, u: User, env: Env, i: nat, d: SymbolDef, vis: Tri): Out<Tri> {
    var val := BaseTri(c, u, env, i, d, vis);
    if val.v != 1 then val
    else if d.ty.Bool? then Out(2, val.uses)
    else
      var t := StaysTristate(c, u, env, d.choice);
      if !t.v then Out(2, val.uses + t.uses)
      else
        var weak := Eval(c, u, env, d.weakRevDep);
        Out(if weak.v == 2 then 2 else 1, val.uses + t.uses + weak.uses)
  }

  /** `Symbol.tri_value` in a choice, given the visibility. */
  function ChosenTri(u: User, env: Env, i: nat, d: SymbolDef, vis: Tri): Out<Tri>
    requires d.choice >= 0
  {
    if vis == 2 then Out(if env(Node(d.choice, Selection)) == Pick(i) then 2 else 0, {Node(d.choice, Selection)})
    else Out(if vis != 0 && i in u.tri && u.tri[i] != 0 then 1 else 0, {})
  }

  function SymbolTriOf(c: Config, u: User, env: Env, i: nat, d: SymbolDef): Out<Tri> {
    var vis := VisOf(c, env, i);
    var val := if d.choice < 0 then PlainTri(c, u, env, i, d, vis.v) else ChosenTri(u, env, i, d, vis.v);
    Out(val.v, vis.uses + val.uses)
  }

  /** The first range whose condition holds, from position `k` on. */
  function FirstRange(c: Config, u: User, env: Env, rs: seq<Range>, k: nat): (r: Out<nat>)
    requires k <= |rs|
    ensures r.v <= |rs|
    decreases |rs| - k
  {
    if k == |rs| then Out(k, {})
    else
      var cond := Eval(c, u, env, rs[k].cond);
      if cond.v != 0 then Out(k, cond.uses)
      else var r := FirstRange(c, u, env, rs, k + 1); Out(r.v, cond.uses + r.uses)
  }

  /** A bound in force, if any. */
  datatype Bounds = Unbounded | Bounded(low: int, high: int)

  /** What does not parse counts as 0. */
  function NumberOr0(c: Config, ty: Type, text: string): int {
    if c.parse(ty, text).Num? then c.parse(ty, text).n else 0
  }

  function BoundsOf(c: Config, u: User, env: Env, d: SymbolDef): Out<Bounds> {
    var first := FirstRange(c, u, env, d.ranges, 0);
    if first.v == |d.ranges| then Out(Unbounded, first.uses)
    else
      var low, high := ItemText(c, u, env, d.ranges[first.v].low), ItemText(c, u, env, d.ranges[first.v].high);
      Out(Bounded(NumberOr0(c, d.ty, low.v), NumberOr0(c, d.ty, high.v)), first.uses + low.uses + high.uses)
  }

  predicate Within(b: Bounds, n: int) {
    b.Bounded? ==> b.low <= n <= b.high
  }

  /** The text of the first default that holds, or nothing. */
  function DefaultText(c: Config, u: User, env: Env, d: SymbolDef): Out<string> {
    var first := FirstDefault(c, u, env, d.defaults, 0);
    if first.v < |d.defaults| && d.defaults[first.v].value.Sym? then
      var t := ItemText(c, u, env, d.defaults[first.v].value.sym);
      Out(t.v, first.uses + t.uses)
    else Out("", first.uses)
  }

  /** A number forced into the bounds; what is within keeps its text. */
  function Clamp(c: Config, ty: Type, b: Bounds, text: string): string {
    var n := NumberOr0(c, ty, text);
    if b.Bounded? && n < b.low then c.render(ty, b.low)
    else if b.Bounded? && n > b.high then c.render(ty, b.high)
    else text
  }

  function NumberText(c: Config, u: User, env: Env, i: nat, d: SymbolDef, vis: Tri): Out<string> {
    var b := BoundsOf(c, u, env, d);
    if vis != 0 && i in u.text && u.text[i] != "" && Within(b.v, NumberOr0(c, d.ty, u.text[i])) then Out(u.text[i], b.uses)
    else
      var t := DefaultText(c, u, env, d);
      Out(Clamp(c, d.ty, b.v, t.v), b.uses + t.uses)
  }

  function StringText(c: Config, u: User, env: Env, i: nat, d: SymbolDef, vis: Tri): Out<string> {
    if vis != 0 && i in u.text then Out(u.text[i], {}) else DefaultText(c, u, env, d)
  }

  /** `Symbol.str_value`. */
  function SymbolText(c: Config, u: User, env: Env, i: nat, d: SymbolDef): Out<string> {
    if Logical(d.ty) then
      var t := SymbolTri(c, env, i);
      Out(TriText(t.v), t.uses)
    else
      var vis := VisOf(c, env, i);
      var t := if d.ty.Str? then StringText(c, u, env, i, d, vis.v) else NumberText(c, u, env, i, d, vis.v);
      Out(t.v, vis.uses + t.uses)
  }

  function VisOf(c: Config, env: Env, i: nat): Out<Tri> {
    if Kind(c, i).Constant? then Out(0, {}) else Out(AsTri(env(Node(i, Vis))), {Node(i, Vis)})
  }

  /** The first visible symbol of a choice, from position `k` on. */
  function FirstVisible(c: Config, env: Env, syms: seq<nat>, k: nat): Out<int>
    requires k <= |syms|
    decreases |syms| - k
  {
    if k == |syms| then Out(-1, {})
    else
      var vis := VisOf(c, env, syms[k]);
      if vis.v != 0 then Out(syms[k], vis.uses)
      else var r := FirstVisible(c, env, syms, k + 1); Out(r.v, vis.uses + r.uses)
  }

  /** `_selection_from_defaults`, from default `k` on. */
  function SelectDefault(c: Config, u: User, env: Env, d: ChoiceDef, k: nat): Out<int>
    requires k <= |d.defaults|
    decreases |d.defaults| - k
  {
    if k == |d.defaults| then FirstVisible(c, env, d.syms, 0)
    else
      var cond := Eval(c, u, env, d.defaults[k].cond);
      if cond.v == 0 then var r := SelectDefault(c, u, env, d, k + 1); Out(r.v, cond.uses + r.uses)
      else
        var vis := VisOf(c, env, d.defaults[k].sym);
        if vis.v != 0 then Out(d.defaults[k].sym, cond.uses + vis.uses)
        else var r := SelectDefault(c, u, env, d, k + 1); Out(r.v, cond.uses + vis.uses + r.uses)
  }

  /** The user's selection if it is visible, or -1. */
  function UserPick(c: Config, u: User, env: Env, i: nat): Out<int> {
    if i !in u.selection then Out(-1, {})
    else
      var vis := VisOf(c, env, u.selection[i]);
      Out(if vis.v != 0 then u.selection[i] else -1, vis.uses)
  }

  /** `Choice._selection`; -1 for none. */
  function Select(c: Config, u: User, env: Env, i: nat, d: ChoiceDef): Out<int> {
    var mode := ChoiceTri(c, u, env, i);
    if mode.v != 2 then Out(-1, mode.uses)
    else
      var wish := UserPick(c, u, env, i);
      if wish.v >= 0 then Out(wish.v, mode.uses + wish.uses)
      else
        var r := SelectDefault(c, u, env, d, 0);
        Out(r.v, mode.uses + wish.uses + r.uses)
  }

  function MapTri(r: Out<Tri>): Out<Val> {
    Out(T(r.v), r.uses)
  }

  /** An attribute, from the other attributes. */
  function Compute(c: Config, u: User, env: Env, n: Node): Out<Val> {
    match Kind(c, n.item)
    case ASymbol(d) =>
      (match n.prop
       case Vis => MapTri(SymbolVis(c, u, env, d))
       case TriVal => if Logical(d.ty) then MapTri(SymbolTriOf(c, u, env, n.item, d)) else Out(T(0), {})
       case StrVal => var r := SymbolText(c, u, env, n.item, d); Out(S(r.v), r.uses)
       case Selection => Out(T(0), {}))
    case AChoice(d) =>
      (match n.prop
       case Vis => MapTri(ChoiceVis(c, u, env, d))
       case Selection => var r := Select(c, u, env, n.item, d); Out(Pick(r.v), r.uses)
       case _ => Out(T(0), {}))
    case Constant(_, _, _) => Out(T(0), {})
  }

  // What may be used -----------------------------------------------------------------

  function SymbolNodes(c: Config, i: nat): set<Node> {
    if Kind(c, i).ASymbol? && Logical(Kind(c, i).s.ty) then {Node(i, TriVal)} else {}
  }

  function ChoiceNodes(c: Config, i: nat): set<Node> {
    if Kind(c, i).AChoice? then {Node(i, Vis)} + (if Kind(c, i).c.tristate then SymbolNodes(c, c.modules) else {}) else {}
  }

  function ItemNodes(c: Config, i: nat): set<Node> {
    SymbolNodes(c, i) + ChoiceNodes(c, i) + TextNodes(c, i)
  }

  function TextNodes(c: Config, i: nat): set<Node> {
    if Kind(c, i).ASymbol? then {Node(i, StrVal)} else ChoiceNodes(c, i)
  }

  function ExprNodes(c: Config, e: Expr): set<Node> {
    match e
    case Sym(i) => SymbolNodes(c, i) + ChoiceNodes(c, i)
    case Relation(_, a, b) => ItemNodes(c, a) + ItemNodes(c, b)
    case Not(x) => ExprNodes(c, x)
    case And(x, y) => ExprNodes(c, x) + ExprNodes(c, y)
    case Or(x, y) => ExprNodes(c, x) + ExprNodes(c, y)
  }

  function ExprsNodes(c: Config, es: seq<Expr>): set<Node> {
    set e, m | e in es && m in ExprNodes(c, e) :: m
  }

  function Conds(ds: seq<Default>): seq<Expr> {
    seq(|ds|, k requires 0 <= k < |ds| => ds[k].cond)
  }

  function Values(ds: seq<Default>): seq<Expr> {
    seq(|ds|, k requires 0 <= k < |ds| => ds[k].value)
  }

  function RangeConds(rs: seq<Range>): seq<Expr> {
    seq(|rs|, k requires 0 <= k < |rs| => rs[k].cond)
  }

  function PrefConds(ds: seq<Pref>): seq<Expr> {
    seq(|ds|, k requires 0 <= k < |ds| => ds[k].cond)
  }

  /** The ends of the ranges. */
  function Ends(rs: seq<Range>): set<nat> {
    (set r | r in rs :: r.low) + (set r | r in rs :: r.high)
  }

  /** The symbols that are a default on their own. */
  function Sole(ds: seq<Default>): set<nat> {
    set x | x in ds && x.value.Sym? :: x.value.sym
  }

  function TextsNodes(c: Config, s: set<nat>): set<Node> {
    set i, m | i in s && m in TextNodes(c, i) :: m
  }

  function VisNodes(c: Config, s: set<nat>): set<Node> {
    set i | i in s && !Kind(c, i).Constant? :: Node(i, Vis)
  }

  /** MODULES matters to what is tristate, and the mode of a choice to its symbols. */
  function ModeNodes(c: Config, tristate: bool, choice: int): set<Node> {
    (if tristate then SymbolNodes(c, c.modules) else {}) + (if choice >= 0 then ChoiceNodes(c, choice) else {})
  }

  /** Everything an attribute may use, whatever the values. */
  function MayUse(c: Config, n: Node): set<Node> {
    match Kind(c, n.item)
    case ASymbol(d) =>
      (match n.prop
       case Vis => ExprsNodes(c, d.prompts) + ModeNodes(c, d.ty.Tristate?, d.choice)
       case TriVal => if Logical(d.ty) then {Node(n.item, Vis)} + ValueNodes(c, d) else {}
       case StrVal => if Logical(d.ty) then SymbolNodes(c, n.item) else {Node(n.item, Vis)} + TextValueNodes(c, d)
       case Selection => {})
    case AChoice(d) =>
      (match n.prop
       case Vis => ExprsNodes(c, d.prompts) + ModeNodes(c, d.tristate, -1)
       case Selection => ChoiceNodes(c, n.item) + ExprsNodes(c, PrefConds(d.defaults)) + VisNodes(c, Candidates(d))
       case _ => {})
    case Constant(_, _, _) => {}
  }

  function ValueNodes(c: Config, d: SymbolDef): set<Node> {
    if d.choice >= 0 then {Node(d.choice, Selection)}
    else
      ExprsNodes(c, Conds(d.defaults)) + ExprsNodes(c, Values(d.defaults)) + ModeNodes(c, d.ty.Tristate?, d.choice)
      + ExprNodes(c, d.revDep) + ExprNodes(c, d.weakRevDep) + ExprNodes(c, d.directDep)
  }

  function TextValueNodes(c: Config, d: SymbolDef): set<Node> {
    ExprsNodes(c, Conds(d.defaults)) + TextsNodes(c, Sole(d.defaults))
    + ExprsNodes(c, RangeConds(d.ranges)) + TextsNodes(c, Ends(d.ranges))
  }

  /** The symbols a choice may select. */
  function Candidates(d: ChoiceDef): set<nat> {
    (set i | i in d.syms) + (set p | p in d.defaults :: p.sym)
  }

  // Locality -------------------------------------------------------------------------

  /** What the user set on an item. */
  predicate SameUser(u: User, u': User, i: nat) {
    && (i in u.tri <==> i in u'.tri) && (i in u.tri ==> u.tri[i] == u'.tri[i])
    && (i in u.text <==> i in u'.text) && (i in u.text ==> u.text[i] == u'.text[i])
    && (i in u.selection <==> i in u'.selection) && (i in u.selection ==> u.selection[i] == u'.selection[i])
  }

  /** Two situations look the same to a computation that uses `uses`. */
  ghost predicate Agree(c: Config, u: User, u': User, env: Env, env': Env, uses: set<Node>) {
    forall m :: m in uses ==> env(m) == env'(m) && (Kind(c, m.item).AChoice? ==> SameUser(u, u', m.item))
  }

  lemma ItemLocal(c: Config, u: User, u': User, env: Env, env': Env, i: nat)
    ensures Agree(c, u, u', env, env', SymbolTri(c, env, i).uses) ==> SymbolTri(c, env', i) == SymbolTri(c, env, i)
    ensures Agree(c, u, u', env, env', ChoiceTri(c, u, env, i).uses) ==> ChoiceTri(c, u', env', i) == ChoiceTri(c, u, env, i)
    ensures SymbolTri(c, env, i).uses <= SymbolNodes(c, i) && ChoiceTri(c, u, env, i).uses <= ChoiceNodes(c, i)
  {
    if Kind(c, i).AChoice? && Node(i, Vis) in ChoiceTri(c, u, env, i).uses {
    }
  }

  lemma TextLocal(c: Config, u: User, u': User, env: Env, env': Env, i: nat)
    ensures Agree(c, u, u', env, env', ItemText(c, u, env, i).uses) ==> ItemText(c, u', env', i) == ItemText(c, u, env, i)
    ensures Agree(c, u, u', env, env', ItemNumber(c, u, env, i).uses) ==> ItemNumber(c, u', env', i) == ItemNumber(c, u, env, i)
    ensures ItemText(c, u, env, i).uses <= TextNodes(c, i) && ItemNumber(c, u, env, i).uses <= ItemNodes(c, i)
  {
    ItemLocal(c, u, u', env, env', i);
  }

  lemma CompareLocal(c: Config, u: User, u': User, env: Env, env': Env, a: nat, b: nat)
    ensures Agree(c, u, u', env, env', Compare(c, u, env, a, b).uses) ==> Compare(c, u', env', a, b) == Compare(c, u, env, a, b)
    ensures Compare(c, u, env, a, b).uses <= ItemNodes(c, a) + ItemNodes(c, b)
  {
    hide ItemText, ItemNumber, SameUser, SymbolNodes, ChoiceNodes;
    TextLocal(c, u, u', env, env', a);
    TextLocal(c, u, u', env, env', b);
  }

  /** An expression depends only on what it uses, and uses only what it mentions. */
  lemma {:induction false} EvalLocal(c: Config, u: User, u': User, env: Env, env': Env, e: Expr)
    ensures Agree(c, u, u', env, env', Eval(c, u, env, e).uses) ==> Eval(c, u', env', e) == Eval(c, u, env, e)
    ensures Eval(c, u, env, e).uses <= ExprNodes(c, e)
  {
    match e
    case Sym(i) => ItemLocal(c, u, u', env, env', i);
    case Relation(_, a, b) => CompareLocal(c, u, u', env, env', a, b);
    case Not(x) => EvalLocal(c, u, u', env, env', x);
    case And(x, y) =>
      EvalLocal(c, u, u', env, env', x);
      EvalLocal(c, u, u', env, env', y);
    case Or(x, y) =>
      EvalLocal(c, u, u', env, env', x);
      EvalLocal(c, u, u', env, env', y);
  }

  lemma {:induction false} MaxLocal(c: Config, u: User, u': User, env: Env, env': Env, es: seq<Expr>)
    ensures Agree(c, u, u', env, env', MaxOf(c, u, env, es).uses) ==> MaxOf(c, u', env', es) == MaxOf(c, u, env, es)
    ensures MaxOf(c, u, env, es).uses <= ExprsNodes(c, es)
  {
    if es != [] {
      MaxLocal(c, u, u', env, env', es[..|es| - 1]);
      EvalLocal(c, u, u', env, env', es[|es| - 1]);
    }
  }

  lemma {:induction false} FirstLocal(c: Config, u: User, u': User, env: Env, env': Env, ds: seq<Default>, k: nat)
    requires k <= |ds|
    ensures Agree(c, u, u', env, env', FirstDefault(c, u, env, ds, k).uses) ==>
      FirstDefault(c, u', env', ds, k) == FirstDefault(c, u, env, ds, k)
    ensures FirstDefault(c, u, env, ds, k).uses <= ExprsNodes(c, Conds(ds))
    decreases |ds| - k
  {
    if k < |ds| {
      assert Conds(ds)[k] in Conds(ds);
      EvalLocal(c, u, u', env, env', ds[k].cond);
      FirstLocal(c, u, u', env, env', ds, k + 1);
    }
  }

  lemma {:induction false} RangeLocal(c: Config, u: User, u': User, env: Env, env': Env, rs: seq<Range>, k: nat)
    requires k <= |rs|
    ensures Agree(c, u, u', env, env', FirstRange(c, u, env, rs, k).uses) ==>
      FirstRange(c, u', env', rs, k) == FirstRange(c, u, env, rs, k)
    ensures FirstRange(c, u, env, rs, k).uses <= ExprsNodes(c, RangeConds(rs))
    decreases |rs| - k
  {
    if k < |rs| {
      assert RangeConds(rs)[k] in RangeConds(rs);
      EvalLocal(c, u, u', env, env', rs[k].cond);
      RangeLocal(c, u, u', env, env', rs, k + 1);
    }
  }

  lemma PromoteLocal(c: Config, u: User, u': User, env: Env, env': Env, tristate: bool, choice: int, vis: Out<Tri>)
    ensures Agree(c, u, u', env, env', Promote(c, u, env, tristate, choice, vis).uses) ==>
      Promote(c, u', env', tristate, choice, vis) == Promote(c, u, env, tristate, choice, vis)
    ensures Agree(c, u, u', env, env', StaysTristate(c, u, env, choice).uses) ==>
      StaysTristate(c, u', env', choice) == StaysTristate(c, u, env, choice)
    ensures Promote(c, u, env, tristate, choice, vis).uses <= vis.uses + ModeNodes(c, tristate, choice)
    ensures StaysTristate(c, u, env, choice).uses <= ModeNodes(c, true, choice)
  {
    ItemLocal(c, u, u', env, env', c.modules);
    if choice >= 0 { ItemLocal(c, u, u', env, env', choice); }
  }

  lemma VisLocal(c: Config, u: User, u': User, env: Env, env': Env, d: SymbolDef)
    ensures Agree(c, u, u', env, env', SymbolVis(c, u, env, d).uses) ==> SymbolVis(c, u', env', d) == SymbolVis(c, u, env, d)
    ensures SymbolVis(c, u, env, d).uses <= ExprsNodes(c, d.prompts) + ModeNodes(c, d.ty.Tristate?, d.choice)
  {
    hide MaxOf, ExprsNodes, StaysTristate, SameUser;
    MaxLocal(c, u, u', env, env', d.prompts);
    var vis := MaxOf(c, u, env, d.prompts);
    if d.choice >= 0 {
      ItemLocal(c, u, u', env, env', d.choice);
      PromoteLocal(c, u, u', env, env', d.ty.Tristate?, d.choice, InChoice(c, u, env, d, vis));
    } else {
      PromoteLocal(c, u, u', env, env', d.ty.Tristate?, d.choice, vis);
    }
  }

  lemma DefaultLocal(c: Config, u: User, u': User, env: Env, env': Env, d: SymbolDef)
    ensures Agree(c, u, u', env, env', DefaultTri(c, u, env, d).uses) ==> DefaultTri(c, u', env', d) == DefaultTri(c, u, env, d)
    ensures d.choice < 0 ==> DefaultTri(c, u, env, d).uses <= ValueNodes(c, d)
  {
    hide Eval, ExprNodes, FirstDefault, SameUser;
    FirstLocal(c, u, u', env, env', d.defaults, 0);
    var k := FirstDefault(c, u, env, d.defaults, 0).v;
    if k < |d.defaults| {
      assert Conds(d.defaults)[k] in Conds(d.defaults) && Values(d.defaults)[k] in Values(d.defaults);
      EvalLocal(c, u, u', env, env', d.defaults[k].value);
      EvalLocal(c, u, u', env, env', d.defaults[k].cond);
    }
    EvalLocal(c, u, u', env, env', d.weakRevDep);
    EvalLocal(c, u, u', env, env', d.directDep);
  }

  lemma PlainLocal(c: Config, u: User, u': User, env: Env, env': Env, i: nat, d: SymbolDef, vis: Tri)
    requires SameUser(u, u', i) || vis == 0
    ensures Agree(c, u, u', env, env', PlainTri(c, u, env, i, d, vis).uses) ==>
      PlainTri(c, u', env', i, d, vis) == PlainTri(c, u, env, i, d, vis)
    ensures d.choice < 0 && Logical(d.ty) ==> PlainTri(c, u, env, i, d, vis).uses <= ValueNodes(c, d)
  {
    hide Eval, ExprNodes, ExprsNodes, DefaultTri, StaysTristate, ModeNodes;
    DefaultLocal(c, u, u', env, env', d);
    EvalLocal(c, u, u', env, env', d.revDep);
    EvalLocal(c, u, u', env, env', d.weakRevDep);
    PromoteLocal(c, u, u', env, env', true, d.choice, Out(0, {}));
  }

  lemma TriLocal(c: Config, u: User, u': User, env: Env, env': Env, i: nat, d: SymbolDef)
    requires Kind(c, i) == ASymbol(d) && (SameUser(u, u', i) || AsTri(env(Node(i, Vis))) == 0)
    ensures Agree(c, u, u', env, env', SymbolTriOf(c, u, env, i, d).uses) ==> SymbolTriOf(c, u', env', i, d) == SymbolTriOf(c, u, env, i, d)
    ensures Logical(d.ty) ==> SymbolTriOf(c, u, env, i, d).uses <= {Node(i, Vis)} + ValueNodes(c, d)
  {
    var vis := AsTri(env(Node(i, Vis)));
    PlainLocal(c, u, u', env, env', i, d, vis);
  }

  lemma DefaultTextLocal(c: Config, u: User, u': User, env: Env, env': Env, d: SymbolDef)
    ensures Agree(c, u, u', env, env', DefaultText(c, u, env, d).uses) ==> DefaultText(c, u', env', d) == DefaultText(c, u, env, d)
    ensures DefaultText(c, u, env, d).uses <= TextValueNodes(c, d)
  {
    FirstLocal(c, u, u', env, env', d.defaults, 0);
    var k := FirstDefault(c, u, env, d.defaults, 0).v;
    if k < |d.defaults| && d.defaults[k].value.Sym? {
      assert d.defaults[k] in d.defaults && d.defaults[k].value.sym in Sole(d.defaults);
      TextLocal(c, u, u', env, env', d.defaults[k].value.sym);
    }
  }

  lemma BoundsLocal(c: Config, u: User, u': User, env: Env, env': Env, d: SymbolDef)
    ensures Agree(c, u, u', env, env', BoundsOf(c, u, env, d).uses) ==> BoundsOf(c, u', env', d) == BoundsOf(c, u, env, d)
    ensures BoundsOf(c, u, env, d).uses <= TextValueNodes(c, d)
  {
    RangeLocal(c, u, u', env, env', d.ranges, 0);
    var k := FirstRange(c, u, env, d.ranges, 0).v;
    if k < |d.ranges| {
      assert d.ranges[k] in d.ranges && d.ranges[k].low in Ends(d.ranges) && d.ranges[k].high in Ends(d.ranges);
      TextLocal(c, u, u', env, env', d.ranges[k].low);
      TextLocal(c, u, u', env, env', d.ranges[k].high);
    }
  }

  lemma SymbolTextLocal(c: Config, u: User, u': User, env: Env, env': Env, i: nat, d: SymbolDef)
    requires Kind(c, i) == ASymbol(d) && (SameUser(u, u', i) || AsTri(env(Node(i, Vis))) == 0)
    ensures Agree(c, u, u', env, env', SymbolText(c, u, env, i, d).uses) ==> SymbolText(c, u', env', i, d) == SymbolText(c, u, env, i, d)
    ensures SymbolText(c, u, env, i, d).uses <= MayUse(c, Node(i, StrVal))
  {
    ItemLocal(c, u, u', env, env', i);
    BoundsLocal(c, u, u', env, env', d);
    DefaultTextLocal(c, u, u', env, env', d);
  }

  lemma {:induction false} VisibleLocal(c: Config, u: User, u': User, env: Env, env': Env, syms: seq<nat>, k: nat)
    requires k <= |syms|
    ensures Agree(c, u, u', env, env', FirstVisible(c, env, syms, k).uses) ==> FirstVisible(c, env', syms, k) == FirstVisible(c, env, syms, k)
    ensures FirstVisible(c, env, syms, k).uses <= VisNodes(c, set i | i in syms)
    decreases |syms| - k
  {
    if k < |syms| { VisibleLocal(c, u, u', env, env', syms, k + 1); }
  }

  lemma {:induction false} SelectDefaultLocal(c: Config, u: User, u': User, env: Env, env': Env, d: ChoiceDef, k: nat)
    requires k <= |d.defaults|
    ensures Agree(c, u, u', env, env', SelectDefault(c, u, env, d, k).uses) ==>
      SelectDefault(c, u', env', d, k) == SelectDefault(c, u, env, d, k)
    ensures SelectDefault(c, u, env, d, k).uses <= ExprsNodes(c, PrefConds(d.defaults)) + VisNodes(c, Candidates(d))
    decreases |d.defaults| - k
  {
    if k == |d.defaults| {
      VisibleLocal(c, u, u', env, env', d.syms, 0);
    } else {
      assert PrefConds(d.defaults)[k] in PrefConds(d.defaults) && d.defaults[k] in d.defaults;
      assert d.defaults[k].sym in Candidates(d);
      EvalLocal(c, u, u', env, env', d.defaults[k].cond);
      SelectDefaultLocal(c, u, u', env, env', d, k + 1);
    }
  }

  lemma SelectLocal(c: Config, u: User, u': User, env: Env, env': Env, i: nat, d: ChoiceDef)
    requires SameUser(u, u', i) && (i in u.selection ==> u.selection[i] in d.syms)
    ensures Agree(c, u, u', env, env', Select(c, u, env, i, d).uses) ==> Select(c, u', env', i, d) == Select(c, u, env, i, d)
    ensures Select(c, u, env, i, d).uses <= ChoiceNodes(c, i) + ExprsNodes(c, PrefConds(d.defaults)) + VisNodes(c, Candidates(d))
  {
    ItemLocal(c, u, u', env, env', i);
    SelectDefaultLocal(c, u, u', env, env', d, 0);
  }

  /** User selections are symbols of the choice. */
  predicate GoodUser(c: Config, u: User) {
    forall i :: i in u.selection && Kind(c, i).AChoice? ==> u.selection[i] in Kind(c, i).c.syms
  }

  /** A symbol that is invisible here does not depend on what the user set on it. */
  lemma ComputeLocal(c: Config, u: User, u': User, env: Env, env': Env, n: Node)
    requires GoodUser(c, u)
    requires SameUser(u, u', n.item) || (Kind(c, n.item).ASymbol? && AsTri(env(Node(n.item, Vis))) == 0)
    ensures Agree(c, u, u', env, env', Compute(c, u, env, n).uses) ==> Compute(c, u', env', n) == Compute(c, u, env, n)
    ensures Compute(c, u, env, n).uses <= MayUse(c, n)
  {
    hide MaxOf, SymbolVis, SymbolTriOf, SymbolText, Select, ExprsNodes, ValueNodes, ModeNodes, StaysTristate;
    match Kind(c, n.item) {
      case ASymbol(d) =>
        VisLocal(c, u, u', env, env', d);
        TriLocal(c, u, u', env, env', n.item, d);
        SymbolTextLocal(c, u, u', env, env', n.item, d);
      case AChoice(d) =>
        MaxLocal(c, u, u', env, env', d.prompts);
        PromoteLocal(c, u, u', env, env', d.tristate, -1, MaxOf(c, u, env, d.prompts));
        SelectLocal(c, u, u', env, env', n.item, d);
      case Constant(_, _, _) =>
    }
  }
}
