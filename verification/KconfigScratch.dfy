/** Values without a cache, and which items depend on which. */
module KconfigScratch {
  import opened KconfigExpr
  import opened KconfigValues

  // Recomputing everything -----------------------------------------------------------

  /** No dependency loops: what an attribute may use comes before it. */
  ghost predicate Ranked(c: Config) {
    forall n, m :: m in MayUse(c, n) ==> c.rank(m) < c.rank(n)
  }

  /** An attribute computed with no cache at all. */
  ghost function Scratch(c: Config, u: User, n: Node): Val
    decreases c.rank(n), 1
  {
    Compute(c, u, Below(c, u, c.rank(n)), n).v
  }

  /** The attributes of a rank below `r`. */
  ghost function Below(c: Config, u: User, r: nat): Env
    decreases r, 0
  {
    m => if c.rank(m) < r then Scratch(c, u, m) else T(0)
  }

  ghost function Fresh(c: Config, u: User): Env {
    m => Scratch(c, u, m)
  }

  /** What an attribute uses when everything is recomputed. */
  ghost function Uses(c: Config, u: User, n: Node): set<Node> {
    Compute(c, u, Fresh(c, u), n).uses
  }

  /** The recomputed values satisfy the equations of the attributes. */
  lemma ScratchIs(c: Config, u: User, n: Node)
    requires Ranked(c) && GoodUser(c, u)
    ensures Compute(c, u, Fresh(c, u), n) == Out(Scratch(c, u, n), Uses(c, u, n))
    ensures Uses(c, u, n) <= MayUse(c, n)
  {
    hide Compute, MayUse, GoodUser, Scratch;
    var env := Below(c, u, c.rank(n));
    ComputeLocal(c, u, u, env, Fresh(c, u), n);
    assert Scratch(c, u, n) == Compute(c, u, env, n).v by { ScratchStep(c, u, n); }
  }

  lemma ScratchStep(c: Config, u: User, n: Node)
    ensures Scratch(c, u, n) == Compute(c, u, Below(c, u, c.rank(n)), n).v
  {
    hide Compute;
  }

  // Dependents -----------------------------------------------------------------------

  function ExprItems(e: Expr): set<nat> {
    match e
    case Sym(i) => {i}
    case Relation(_, a, b) => {a, b}
    case Not(x) => ExprItems(x)
    case And(x, y) => ExprItems(x) + ExprItems(y)
    case Or(x, y) => ExprItems(x) + ExprItems(y)
  }

  function ExprsItems(es: seq<Expr>): set<nat> {
    set e, i | e in es && i in ExprItems(e) :: i
  }

  /** What `_build_dep` finds an item to depend on. */
  function Mentions(c: Config, i: nat): set<nat> {
    match Kind(c, i)
    case ASymbol(d) =>
      ExprsItems(d.prompts) + ExprsItems(Values(d.defaults)) + ExprsItems(Conds(d.defaults))
      + ExprItems(d.revDep) + ExprItems(d.weakRevDep)
      + Ends(d.ranges) + ExprsItems(RangeConds(d.ranges)) + ExprItems(d.directDep)
    case AChoice(d) => ExprsItems(d.prompts) + ExprsItems(PrefConds(d.defaults))
    case Constant(_, _, _) => {}
  }

  /** `_dependents`, with the choices of `_add_choice_deps`. */
  function Dependents(c: Config, j: nat): set<nat> {
    set i | i in c.items && (j in Mentions(c, i) || (c.items[i].AChoice? && j in c.items[i].c.syms))
  }

  /** A symbol whose prompts can never show. */
  predicate Silent(c: Config, d: SymbolDef) {
    forall p :: p in d.prompts ==> p.Sym? && Kind(c, p.sym).Constant? && Kind(c, p.sym).tri == 0
  }

  /** A choice symbol mentions its choice, or is never visible. */
  predicate Linked(c: Config, i: nat, d: SymbolDef) {
    d.choice >= 0 ==> d.choice in Mentions(c, i) || Silent(c, d)
  }

  /** The defaults of a choice are among its symbols. */
  predicate OwnDefaults(c: Config, d: ChoiceDef) {
    forall p :: p in d.defaults ==> p.sym in d.syms || Kind(c, p.sym).Constant?
  }

  /** What a parsed configuration looks like: no loops, MODULES a symbol, and the
      choice of a symbol one that contains it. */
  ghost predicate Formed(c: Config) {
    && Ranked(c) && !Kind(c, c.modules).AChoice?
    && (forall i :: i in c.items && c.items[i].ASymbol? ==> Inside(c, i, c.items[i].s))
  }

  predicate Inside(c: Config, i: nat, d: SymbolDef) {
    d.choice >= 0 ==> Kind(c, d.choice).AChoice? && i in Kind(c, d.choice).c.syms
  }

  /** The configurations for which the cache is right. */
  ghost predicate Sound(c: Config) {
    && Formed(c)
    && (forall i :: i in c.items && c.items[i].ASymbol? ==> Linked(c, i, c.items[i].s))
    && (forall i :: i in c.items && c.items[i].AChoice? ==> OwnDefaults(c, c.items[i].c))
  }

  lemma {:induction false} ExprTracked(c: Config, e: Expr, m: Node)
    requires m in ExprNodes(c, e)
    ensures m.item in ExprItems(e) || m.item == c.modules
  {
    match e
    case Sym(i) =>
    case Relation(_, a, b) =>
    case Not(x) => ExprTracked(c, x, m);
    case And(x, y) => if m in ExprNodes(c, x) { ExprTracked(c, x, m); } else { ExprTracked(c, y, m); }
    case Or(x, y) => if m in ExprNodes(c, x) { ExprTracked(c, x, m); } else { ExprTracked(c, y, m); }
  }

  lemma ExprsTracked(c: Config, es: seq<Expr>, m: Node)
    requires m in ExprsNodes(c, es)
    ensures m.item in ExprsItems(es) || m.item == c.modules
  {
    var e :| e in es && m in ExprNodes(c, e);
    ExprTracked(c, e, m);
  }

  lemma {:induction false} SilentMax(c: Config, u: User, env: Env, es: seq<Expr>)
    requires forall p :: p in es ==> p.Sym? && Kind(c, p.sym).Constant? && Kind(c, p.sym).tri == 0
    ensures MaxOf(c, u, env, es) == Out(0, {})
  {
    if es != [] { SilentMax(c, u, env, es[..|es| - 1]); }
  }

  /** A silent symbol is invisible whatever else holds. */
  lemma SilentVis(c: Config, u: User, i: nat)
    requires Kind(c, i).ASymbol? && Silent(c, Kind(c, i).s)
    ensures Scratch(c, u, Node(i, Vis)) == T(0) && Uses(c, u, Node(i, Vis)) == {}
  {
    var d := Kind(c, i).s;
    SilentMax(c, u, Fresh(c, u), d.prompts);
    SilentMax(c, u, Below(c, u, c.rank(Node(i, Vis))), d.prompts);
  }

  predicate Tracks(c: Config, n: Node, m: Node) {
    m.item == n.item || m.item == c.modules || n.item in Dependents(c, m.item)
  }

  lemma VisTracked(c: Config, u: User, i: nat, m: Node)
    requires Sound(c) && GoodUser(c, u) && Kind(c, i).ASymbol? && m in Uses(c, u, Node(i, Vis))
    ensures Tracks(c, Node(i, Vis), m)
  {
    var d := Kind(c, i).s;
    assert Linked(c, i, d);
    ScratchIs(c, u, Node(i, Vis));
    if m in ExprsNodes(c, d.prompts) { ExprsTracked(c, d.prompts, m); }
    if d.choice >= 0 && Silent(c, d) { SilentVis(c, u, i); }
  }

  lemma ValueTracked(c: Config, u: User, i: nat, m: Node)
    requires Sound(c) && GoodUser(c, u) && Kind(c, i).ASymbol? && m in Uses(c, u, Node(i, TriVal))
    ensures Tracks(c, Node(i, TriVal), m)
  {
    var d := Kind(c, i).s;
    assert Linked(c, i, d);
    ScratchIs(c, u, Node(i, TriVal));
    if d.choice >= 0 {
      if Silent(c, d) { SilentVis(c, u, i); }
    } else {
      if m in ExprsNodes(c, Conds(d.defaults)) { ExprsTracked(c, Conds(d.defaults), m); }
      if m in ExprsNodes(c, Values(d.defaults)) { ExprsTracked(c, Values(d.defaults), m); }
      if m in ExprNodes(c, d.revDep) { ExprTracked(c, d.revDep, m); }
      if m in ExprNodes(c, d.weakRevDep) { ExprTracked(c, d.weakRevDep, m); }
      if m in ExprNodes(c, d.directDep) { ExprTracked(c, d.directDep, m); }
    }
  }

  lemma TextTracked(c: Config, u: User, i: nat, m: Node)
    requires Sound(c) && GoodUser(c, u) && Kind(c, i).ASymbol? && m in Uses(c, u, Node(i, StrVal))
    ensures Tracks(c, Node(i, StrVal), m)
  {
    hide Compute, ExprsItems, ExprItems, ExprsNodes;
    var d := Kind(c, i).s;
    ScratchIs(c, u, Node(i, StrVal));
    if m in ExprsNodes(c, Conds(d.defaults)) { ExprsTracked(c, Conds(d.defaults), m); }
    if m in ExprsNodes(c, RangeConds(d.ranges)) { ExprsTracked(c, RangeConds(d.ranges), m); }
    if m in TextsNodes(c, Sole(d.defaults)) {
      var x :| x in Sole(d.defaults) && m in TextNodes(c, x);
      SoleMentioned(c, d.defaults, x);
    }
  }

  lemma SoleMentioned(c: Config, ds: seq<Default>, x: nat)
    requires x in Sole(ds)
    ensures x in ExprsItems(Values(ds))
  {
    var k :| 0 <= k < |ds| && ds[k].value.Sym? && ds[k].value.sym == x;
    assert Values(ds)[k] in Values(ds) && x in ExprItems(Values(ds)[k]);
  }

  lemma ChoiceTracked(c: Config, u: User, n: Node, m: Node)
    requires Sound(c) && GoodUser(c, u) && Kind(c, n.item).AChoice? && m in Uses(c, u, n)
    ensures Tracks(c, n, m)
  {
    var d := Kind(c, n.item).c;
    assert OwnDefaults(c, d);
    ScratchIs(c, u, n);
    if m in ExprsNodes(c, d.prompts) { ExprsTracked(c, d.prompts, m); }
    if m in ExprsNodes(c, PrefConds(d.defaults)) { ExprsTracked(c, PrefConds(d.defaults), m); }
  }

  /** Whatever an attribute uses is its own item's, MODULES, or an item of
      which its own item is a recorded dependent. */
  lemma Tracked(c: Config, u: User, n: Node, m: Node)
    requires Sound(c) && GoodUser(c, u) && m in Uses(c, u, n)
    ensures Tracks(c, n, m)
  {
    hide Sound, GoodUser, Tracks;
    match Kind(c, n.item) {
      case ASymbol(d) =>
        match n.prop {
          case Vis => VisTracked(c, u, n.item, m);
          case TriVal => ValueTracked(c, u, n.item, m);
          case StrVal => TextTracked(c, u, n.item, m);
          case Selection =>
        }
      case AChoice(d) => ChoiceTracked(c, u, n, m);
      case Constant(_, _, _) =>
    }
  }

  // A change of what the user set ----------------------------------------------------

  /** A set of attributes that contains all it uses. */
  ghost predicate Closed(c: Config, u: User, keys: set<Node>) {
    forall n :: n in keys ==> Uses(c, u, n) <= keys
  }

  predicate IsSilent(c: Config, i: nat) {
    Kind(c, i).ASymbol? && Silent(c, Kind(c, i).s)
  }

  /** The changes do not show on these attributes. */
  ghost predicate Untouched(c: Config, u: User, u': User, keys: set<Node>) {
    forall n :: n in keys ==> SameUser(u, u', n.item) || IsSilent(c, n.item)
  }

  /** Recomputing a closed set of untouched attributes gives the same values. */
  lemma {:induction false} StillRight(c: Config, u: User, u': User, keys: set<Node>, n: Node)
    requires Ranked(c) && GoodUser(c, u) && GoodUser(c, u')
    requires Closed(c, u, keys) && Untouched(c, u, u', keys) && n in keys
    ensures Scratch(c, u', n) == Scratch(c, u, n) && Uses(c, u', n) == Uses(c, u, n)
    decreases c.rank(n)
  {
    hide Compute, MayUse, GoodUser, Scratch, SameUser;
    ScratchIs(c, u, n);
    ScratchIs(c, u', n);
    forall m | m in Uses(c, u, n) ensures Scratch(c, u', m) == Scratch(c, u, m) {
      StillRight(c, u, u', keys, m);
    }
    if !SameUser(u, u', n.item) { SilentVis(c, u, n.item); }
    ComputeLocal(c, u, u', Fresh(c, u), Fresh(c, u'), n);
  }
}
