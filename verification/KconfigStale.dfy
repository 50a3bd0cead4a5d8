/** Two configurations that are only warned about, and leave stale values. */
module KconfigStale {
  import opened KconfigExpr
  import opened KconfigValues
  import opened KconfigScratch
  import opened KconfigCache

  const YES: nat := 0
  const NO: nat := 1
  const FOO: nat := 2
  const CHOICE: nat := 3
  const FIRST: nat := 4
  const SECOND: nat := 5
  const MODS: nat := 6

  /** A bool symbol with one prompt and no other properties. */
  function Simple(prompt: Expr, direct: Expr, choice: int): Item {
    ASymbol(SymbolDef(Bool, [prompt], [], [], Sym(NO), Sym(NO), direct, choice))
  }

  function Order(n: Node): nat {
    match n.prop
    case Vis => if n.item == FOO then 0 else if n.item == CHOICE then 1 else 2
    case TriVal => if n.item == FOO then 1 else 4
    case StrVal => 9
    case Selection => 3
  }

  /** A bool choice that shows always, FOO, and two more symbols. */
  function With(prefs: seq<Pref>, syms: seq<nat>, first: Item, second: Item): Config {
    Config(
      map[
        YES := Constant(true, 2, "y"), NO := Constant(true, 0, "n"), FOO := Simple(Sym(YES), Sym(YES), -1),
        CHOICE := AChoice(ChoiceDef(false, [Sym(YES)], prefs, syms, false)), FIRST := first, SECOND := second],
      MODS, (_, _) => NaN, (_, _) => "", (_, _) => 0, Order)
  }

  const Nobody := User(map[], map[], map[])

  const InChoice := And(Sym(YES), Sym(CHOICE))

  /** A choice whose default, SECOND, is a symbol outside it that needs FOO. */
  const Stray := With([Pref(SECOND, Sym(YES))], [FIRST], Simple(InChoice, Sym(CHOICE), CHOICE), Simple(Sym(FOO), Sym(FOO), -1))

  /** A choice whose symbol FIRST has its prompt, and a definition, outside it. */
  const Unlinked := With([], [FIRST, SECOND], Simple(Sym(YES), Sym(YES), CHOICE), Simple(InChoice, Sym(CHOICE), CHOICE))

  predicate Early(e: Expr) {
    e in {Sym(YES), Sym(FOO), Sym(CHOICE), InChoice}
  }

  predicate Plain(x: Item) {
    && x.ASymbol? && |x.s.prompts| == 1 && Early(x.s.prompts[0]) && Early(x.s.directDep)
    && x == Simple(x.s.prompts[0], x.s.directDep, x.s.choice) && (x.s.choice == -1 || x.s.choice == CHOICE)
  }

  ghost predicate Example(c: Config) {
    c == Stray || c == Unlinked
  }

  lemma NodesAre(c: Config, m: Node)
    requires Example(c)
    ensures m !in ExprNodes(c, Sym(YES)) && m !in ExprNodes(c, Sym(NO)) && m !in SymbolNodes(c, MODS)
    ensures m in ChoiceNodes(c, CHOICE) ==> m == Node(CHOICE, Vis)
    ensures m in ExprNodes(c, Sym(CHOICE)) ==> m == Node(CHOICE, Vis)
    ensures m in ExprNodes(c, InChoice) ==> m == Node(CHOICE, Vis)
    ensures m in ExprNodes(c, Sym(FOO)) ==> m == Node(FOO, TriVal)
  {
  }

  lemma PlainRanked(c: Config, n: Node, m: Node)
    requires Example(c) && Plain(Kind(c, n.item)) && n.item != CHOICE && m in MayUse(c, n)
    requires n.item == FOO ==> Kind(c, FOO) == Simple(Sym(YES), Sym(YES), -1)
    ensures Order(m) < Order(n)
  {
    var d := Kind(c, n.item).s;
    NodesAre(c, m);
    assert Conds(d.defaults) == [] && Values(d.defaults) == [];
    assert m in ExprsNodes(c, d.prompts) ==> m in ExprNodes(c, d.prompts[0]);
  }

  lemma ChoiceRanked(c: Config, n: Node, m: Node)
    requires Example(c) && n.item == CHOICE && m in MayUse(c, n)
    ensures Order(m) < Order(n)
  {
    var d := Kind(c, CHOICE).c;
    NodesAre(c, m);
    assert forall e :: e in PrefConds(d.defaults) ==> e == Sym(YES);
    assert Candidates(d) <= {FIRST, SECOND};
  }

  lemma ExampleRanked(c: Config)
    requires Example(c)
    ensures Ranked(c)
  {
    forall n, m | m in MayUse(c, n) ensures c.rank(m) < c.rank(n) {
      if n.item == CHOICE {
        ChoiceRanked(c, n, m);
      } else {
        PlainRanked(c, n, m);
      }
    }
  }

  // Values ---------------------------------------------------------------------------

  lemma MaxOfOne(c: Config, u: User, env: Env, e: Expr)
    ensures MaxOf(c, u, env, [e]).v == Eval(c, u, env, e).v
  {
    assert [e][..0] == [];
    assert MaxOf(c, u, env, [e][..0]).v == 0;
  }

  /** The mode of the choice is y, as long as the user leaves it alone. */
  lemma ModeY(c: Config, u: User)
    requires Example(c) && GoodUser(c, u) && CHOICE !in u.tri
    ensures Scratch(c, u, Node(CHOICE, Vis)) == T(2) && ChoiceTri(c, u, Fresh(c, u), CHOICE).v == 2
    ensures Eval(c, u, Fresh(c, u), InChoice).v == 2
  {
    ExampleRanked(c);
    MaxOfOne(c, u, Fresh(c, u), Sym(YES));
    ScratchIs(c, u, Node(CHOICE, Vis));
  }

  lemma FooVis(c: Config, u: User)
    requires Example(c) && GoodUser(c, u) && Ranked(c)
    ensures Scratch(c, u, Node(FOO, Vis)) == T(2)
  {
    hide Scratch, Ranked;
    MaxOfOne(c, u, Fresh(c, u), Sym(YES));
    ScratchIs(c, u, Node(FOO, Vis));
  }

  /** FOO has the user's value, or n. */
  lemma FooValue(c: Config, u: User)
    requires Example(c) && GoodUser(c, u) && (FOO in u.tri ==> u.tri[FOO] == 2)
    ensures Scratch(c, u, Node(FOO, TriVal)) == T(if FOO in u.tri then 2 else 0)
  {
    hide Scratch, Ranked;
    ExampleRanked(c);
    FooVis(c, u);
    ScratchIs(c, u, Node(FOO, TriVal));
  }

  /** The visibility of a simple symbol is the value of its prompt's condition. */
  lemma SimpleVis(c: Config, u: User, i: nat)
    requires Example(c) && GoodUser(c, u) && CHOICE !in u.tri && (i == FIRST || i == SECOND)
    requires Eval(c, u, Fresh(c, u), Kind(c, i).s.prompts[0]).v != 1
    ensures Scratch(c, u, Node(i, Vis)) == T(Eval(c, u, Fresh(c, u), Kind(c, i).s.prompts[0]).v)
  {
    hide Eval;
    ExampleRanked(c);
    ModeY(c, u);
    MaxOfOne(c, u, Fresh(c, u), Kind(c, i).s.prompts[0]);
    ScratchIs(c, u, Node(i, Vis));
  }

  /** The choice of `Stray` falls back on its default once FOO shows it. */
  lemma StraySelection(u: User)
    requires GoodUser(Stray, u) && CHOICE !in u.tri && CHOICE !in u.selection && (FOO in u.tri ==> u.tri[FOO] == 2)
    ensures Scratch(Stray, u, Node(CHOICE, Selection)) == Pick(if FOO in u.tri then SECOND else FIRST)
  {
    hide Scratch, Eval, ChoiceTri, GoodUser, Ranked;
    var c, env := Stray, Fresh(Stray, u);
    assert Eval(c, u, env, Sym(FOO)).v == (if FOO in u.tri then 2 else 0) && Eval(c, u, env, Sym(YES)).v == 2 by {
      FooValue(c, u);
      SymValues(c, u);
    }
    ModeY(c, u);
    SimpleVis(c, u, FIRST);
    SimpleVis(c, u, SECOND);
    ExampleRanked(c);
    ScratchIs(c, u, Node(CHOICE, Selection));
    assert SelectDefault(c, u, env, Kind(c, CHOICE).c, 1).v == FIRST;
  }

  lemma SymValues(c: Config, u: User)
    requires Example(c)
    ensures Eval(c, u, Fresh(c, u), Sym(YES)).v == 2
    ensures Eval(c, u, Fresh(c, u), Sym(FOO)).v == AsTri(Scratch(c, u, Node(FOO, TriVal)))
  {
    hide Scratch;
  }

  lemma MentionsAre(c: Config, i: nat, x: nat)
    requires Example(c) && x in Mentions(c, i)
    ensures i == FOO ==> x == YES || x == NO
    ensures i == CHOICE ==> x == YES
    ensures i == FIRST || i == SECOND ==> x in ExprItems(Kind(c, i).s.prompts[0]) || x in ExprItems(Kind(c, i).s.directDep) || x == NO
    ensures i in {FOO, CHOICE, FIRST, SECOND}
  {
    if Kind(c, i).ASymbol? {
      var d := Kind(c, i).s;
      assert Conds(d.defaults) == [] && Values(d.defaults) == [] && RangeConds(d.ranges) == [];
      assert x in ExprsItems(d.prompts) ==> x in ExprItems(d.prompts[0]);
    } else {
      var d := Kind(c, i).c;
      assert forall e :: e in PrefConds(d.defaults) ==> e == Sym(YES);
    }
  }

  /** The symbols with a condition inside the choice are linked to it. */
  lemma InsideLinked(c: Config, i: nat)
    requires Example(c) && i in c.items && c.items[i].ASymbol?
    requires c.items[i].s.prompts[0] == InChoice || c.items[i].s.choice < 0
    ensures Linked(c, i, c.items[i].s)
  {
    if c.items[i].s.choice >= 0 {
      assert InChoice in c.items[i].s.prompts && CHOICE in ExprItems(InChoice);
      assert CHOICE in ExprsItems(c.items[i].s.prompts);
    }
  }

  /** Setting FOO changes the selection of `Stray`, which is not among what the
      invalidation can reach. */
  lemma StrayStale()
    ensures !OwnDefaults(Stray, Kind(Stray, CHOICE).c)
    ensures forall i :: i in Stray.items && Stray.items[i].ASymbol? ==> Linked(Stray, i, Stray.items[i].s)
    ensures DependentsWithin(Stray, {FOO, SECOND})
    ensures Scratch(Stray, Nobody, Node(CHOICE, Selection)) == Pick(FIRST)
    ensures Scratch(Stray, AfterSet(Stray, Nobody, FOO, Tri3(2)), Node(CHOICE, Selection)) == Pick(SECOND)
  {
    hide Mentions, Scratch;
    StraySelection(Nobody);
    StraySelection(AfterSet(Stray, Nobody, FOO, Tri3(2)));
    assert Pref(SECOND, Sym(YES)) in Kind(Stray, CHOICE).c.defaults;
    forall i | i in Stray.items && Stray.items[i].ASymbol? ensures Linked(Stray, i, Stray.items[i].s) {
      InsideLinked(Stray, i);
    }
    forall j, i | j in {FOO, SECOND} && i in Dependents(Stray, j) ensures i == SECOND {
      if j in Mentions(Stray, i) { MentionsAre(Stray, i, j); }
    }
  }

  /** FIRST of `Unlinked` is y unless the user selects SECOND. */
  lemma UnlinkedValue(u: User)
    requires GoodUser(Unlinked, u) && CHOICE !in u.tri && (CHOICE in u.selection ==> u.selection[CHOICE] == SECOND)
    ensures Scratch(Unlinked, u, Node(FIRST, TriVal)) == T(if CHOICE in u.selection then 0 else 2)
  {
    hide Scratch, Eval, ChoiceTri, GoodUser, Ranked;
    var c, env := Unlinked, Fresh(Unlinked, u);
    SymValues(c, u);
    ModeY(c, u);
    SimpleVis(c, u, FIRST);
    SimpleVis(c, u, SECOND);
    ExampleRanked(c);
    ScratchIs(c, u, Node(CHOICE, Selection));
    ScratchIs(c, u, Node(FIRST, TriVal));
  }

  /** Selecting SECOND makes FIRST of `Unlinked` n, which the invalidation of the
      choice cannot reach. */
  lemma UnlinkedStale()
    ensures !Linked(Unlinked, FIRST, Kind(Unlinked, FIRST).s)
    ensures OwnDefaults(Unlinked, Kind(Unlinked, CHOICE).c)
    ensures DependentsWithin(Unlinked, {CHOICE, SECOND})
    ensures Scratch(Unlinked, Nobody, Node(FIRST, TriVal)) == T(2)
    ensures Scratch(Unlinked, AfterSet(Unlinked, Nobody, SECOND, Tri3(2)), Node(FIRST, TriVal)) == T(0)
  {
    hide Mentions, Scratch;
    UnlinkedValue(Nobody);
    UnlinkedValue(AfterSet(Unlinked, Nobody, SECOND, Tri3(2)));
    if CHOICE in Mentions(Unlinked, FIRST) { MentionsAre(Unlinked, FIRST, CHOICE); }
    assert Sym(YES) in Kind(Unlinked, FIRST).s.prompts && !Silent(Unlinked, Kind(Unlinked, FIRST).s);
    forall j, i | j in {CHOICE, SECOND} && i in Dependents(Unlinked, j) ensures i == SECOND || i == CHOICE {
      if j in Mentions(Unlinked, i) { MentionsAre(Unlinked, i, j); }
    }
  }

  // Stale reads ----------------------------------------------------------------------

  lemma ExampleFormed(c: Config)
    requires Example(c)
    ensures Formed(c)
  {
    hide Ranked;
    ExampleRanked(c);
  }

  /** The run: read the selection of `Stray`, set FOO, read it again. The second
      read returns the first answer, which recomputing no longer gives. */
  method StrayRun() returns (k: Kconf, before: int, after: int)
    ensures before == after == FIRST && fresh(k) && k.config == Stray
    ensures k.user == AfterSet(Stray, Nobody, FOO, Tri3(2))
    ensures Scratch(Stray, k.user, Node(CHOICE, Selection)) == Pick(SECOND)
  {
    hide Ranked, Formed, Sound, Right, Scratch, DependentsWithin, Linked, OwnDefaults, AfterSet;
    ExampleFormed(Stray);
    StrayStale();
    k := new Kconf(Stray);
    before := k.SelectionOf(CHOICE);
    assert k.user == Nobody && k.config == Stray && k.cache[Node(CHOICE, Selection)] == Pick(FIRST);
    ghost var reach: set<nat>, keys := {FOO, SECOND}, k.cache.Keys;
    StartsAt(FOO);
    assert StartOf(k.config, FOO, Tri3(2)) in reach && DependentsWithin(k.config, reach);
    var _ := k.SetSymbol(FOO, Tri3(2));
    assert Spared(reach, keys, k.cache.Keys);
    assert Node(CHOICE, Selection) in k.cache;
    after := k.SelectionOf(CHOICE);
  }

  lemma StartsAt(i: nat)
    ensures i == FOO ==> StartOf(Stray, i, Tri3(2)) == FOO
    ensures i == SECOND ==> StartOf(Unlinked, i, Tri3(2)) == CHOICE
  {
  }

  /** The run: read FIRST of `Unlinked`, select SECOND, read FIRST again. */
  method UnlinkedRun() returns (k: Kconf, before: Tri, after: Tri)
    ensures before == after == 2 && fresh(k) && k.config == Unlinked
    ensures k.user == AfterSet(Unlinked, Nobody, SECOND, Tri3(2))
    ensures Scratch(Unlinked, k.user, Node(FIRST, TriVal)) == T(0)
  {
    hide Ranked, Formed, Sound, Right, Scratch, DependentsWithin, Linked, OwnDefaults, AfterSet;
    ExampleFormed(Unlinked);
    UnlinkedStale();
    k := new Kconf(Unlinked);
    before := k.SymbolTriValue(FIRST);
    assert k.user == Nobody && k.config == Unlinked;
    ghost var reach: set<nat>, keys := {CHOICE, SECOND}, k.cache.Keys;
    StartsAt(SECOND);
    assert StartOf(k.config, SECOND, Tri3(2)) in reach && DependentsWithin(k.config, reach);
    var _ := k.SetSymbol(SECOND, Tri3(2));
    assert Spared(reach, keys, k.cache.Keys);
    assert Node(FIRST, TriVal) in k.cache;
    after := k.SymbolTriValue(FIRST);
  }

  // What a broken clause costs -------------------------------------------------------

  /** In any configuration, a cached value that an assignment cannot reach stays,
      and is right afterwards exactly if recomputing it gives what it gave before. */
  method KeepsValue(k: Kconf, x: nat, value: Value, n: Node, ghost reach: set<nat>)
    requires k.Inv() && !Kind(k.config, x).AChoice? && n in k.cache && n.item !in reach
    requires StartOf(k.config, x, value) in reach && DependentsWithin(k.config, reach)
    modifies k
    ensures k.user == AfterSet(k.config, old(k.user), x, value) && n in k.cache && k.cache[n] == old(k.cache)[n]
    ensures k.cache[n] == Scratch(k.config, k.user, n) <==> Scratch(k.config, old(k.user), n) == Scratch(k.config, k.user, n)
  {
    hide Formed, Sound, GoodUser, Right, Scratch, DependentsWithin, AfterSet, StartOf;
    RightAt(k.config, k.user, k.cache, n);
    ghost var keys := k.cache.Keys;
    var _ := k.SetSymbol(x, value);
    assert Spared(reach, keys, k.cache.Keys);
  }

  lemma {:induction false} VisibleOnly(c: Config, env: Env, syms: seq<nat>, k: nat)
    requires k <= |syms|
    ensures var v := FirstVisible(c, env, syms, k).v; v >= 0 ==> VisOf(c, env, v).v != 0
    decreases |syms| - k
  {
    if k < |syms| { VisibleOnly(c, env, syms, k + 1); }
  }

  /** A choice selects only what is visible. */
  lemma {:induction false} SelectsVisible(c: Config, u: User, env: Env, d: ChoiceDef, k: nat)
    requires k <= |d.defaults|
    ensures var v := SelectDefault(c, u, env, d, k).v; v >= 0 ==> VisOf(c, env, v).v != 0
    decreases |d.defaults| - k
  {
    if k == |d.defaults| {
      VisibleOnly(c, env, d.syms, 0);
    } else {
      SelectsVisible(c, u, env, d, k + 1);
    }
  }

  /** The selection of a choice in y mode that the user leaves to its first default. */
  ghost predicate OnDefault(c: Config, u: User, i: nat, d: ChoiceDef)
    requires d.defaults != []
  {
    && i !in u.selection && ChoiceTri(c, u, Fresh(c, u), i).v == 2 && Eval(c, u, Fresh(c, u), d.defaults[0].cond).v != 0
  }

  /** In any configuration, the selection of a choice that rests on a first default
      outside it changes when that symbol becomes visible. */
  lemma BrokenDefault(c: Config, u: User, u': User, i: nat, d: ChoiceDef)
    requires Ranked(c) && GoodUser(c, u) && GoodUser(c, u') && Kind(c, i) == AChoice(d)
    requires d.defaults != [] && d.defaults[0].sym !in d.syms && OnDefault(c, u, i, d) && OnDefault(c, u', i, d)
    requires VisOf(c, Fresh(c, u), d.defaults[0].sym).v == 0 && VisOf(c, Fresh(c, u'), d.defaults[0].sym).v != 0
    ensures !OwnDefaults(c, d)
    ensures Scratch(c, u, Node(i, Selection)) != Scratch(c, u', Node(i, Selection)) == Pick(d.defaults[0].sym)
  {
    hide Ranked, GoodUser, Scratch, Eval, ChoiceTri;
    ScratchIs(c, u, Node(i, Selection));
    ScratchIs(c, u', Node(i, Selection));
    SelectsVisible(c, u, Fresh(c, u), d, 0);
    assert d.defaults[0] in d.defaults;
  }

  /** In any configuration, a visible symbol that is the selection of a choice it
      does not mention changes from y to n when the selection moves away. */
  lemma BrokenLink(c: Config, u: User, u': User, i: nat, d: SymbolDef)
    requires Ranked(c) && GoodUser(c, u) && GoodUser(c, u') && Kind(c, i) == ASymbol(d) && d.choice >= 0 && Logical(d.ty)
    requires Scratch(c, u, Node(i, Vis)) == Scratch(c, u', Node(i, Vis)) == T(2)
    requires Scratch(c, u, Node(d.choice, Selection)) == Pick(i) != Scratch(c, u', Node(d.choice, Selection))
    requires d.choice !in Mentions(c, i)
    ensures !Linked(c, i, d)
    ensures Scratch(c, u, Node(i, TriVal)) == T(2) && Scratch(c, u', Node(i, TriVal)) == T(0)
  {
    if Silent(c, d) { SilentVis(c, u, i); }
    hide Ranked, GoodUser, Scratch;
    ScratchIs(c, u, Node(i, TriVal));
    ScratchIs(c, u', Node(i, TriVal));
  }

  lemma GoodAfter(c: Config, u: User, x: nat, value: Value)
    requires Formed(c) && GoodUser(c, u)
    ensures GoodUser(c, AfterSet(c, u, x, value))
  {
    hide Ranked, Accepted;
    if ChoiceOf(c, x) >= 0 { FormedInside(c, x); }
  }

  /** In any configuration: if a choice rests on a first default outside it, and an
      assignment that cannot reach the choice makes that symbol visible, then the
      selection read before the assignment is read again after it, although
      recomputing gives the default. */
  method StaleSelection(k: Kconf, x: nat, value: Value, i: nat, ghost d: ChoiceDef, ghost reach: set<nat>)
    returns (before: int, after: int)
    requires k.Inv() && !Kind(k.config, x).AChoice? && Kind(k.config, i) == AChoice(d) && i !in reach
    requires StartOf(k.config, x, value) in reach && DependentsWithin(k.config, reach)
    requires d.defaults != [] && d.defaults[0].sym !in d.syms
    requires OnDefault(k.config, k.user, i, d) && OnDefault(k.config, AfterSet(k.config, k.user, x, value), i, d)
    requires VisOf(k.config, Fresh(k.config, k.user), d.defaults[0].sym).v == 0
    requires VisOf(k.config, Fresh(k.config, AfterSet(k.config, k.user, x, value)), d.defaults[0].sym).v != 0
    modifies k
    ensures k.user == AfterSet(k.config, old(k.user), x, value) && after == before
    ensures Scratch(k.config, old(k.user), Node(i, Selection)) == Pick(before)
    ensures Scratch(k.config, k.user, Node(i, Selection)) == Pick(d.defaults[0].sym) != Pick(after)
  {
    hide Formed, Sound, GoodUser, Right, Scratch, DependentsWithin, AfterSet, StartOf, OnDefault;
    ghost var u := k.user;
    GoodAfter(k.config, u, x, value);
    Ranks(k.config);
    BrokenDefault(k.config, u, AfterSet(k.config, u, x, value), i, d);
    before := k.SelectionOf(i);
    KeepsValue(k, x, value, Node(i, Selection), reach);
    after := k.SelectionOf(i);
  }

  /** In any configuration: if a visible symbol is the selection of a choice that it
      does not mention, and an assignment that cannot reach the symbol moves the
      selection away, then the symbol is read as y before and after, although
      recomputing gives n. */
  method StaleValue(k: Kconf, x: nat, value: Value, i: nat, ghost d: SymbolDef, ghost reach: set<nat>)
    returns (before: Tri, after: Tri)
    requires k.Inv() && !Kind(k.config, x).AChoice? && Kind(k.config, i) == ASymbol(d) && i !in reach
    requires StartOf(k.config, x, value) in reach && DependentsWithin(k.config, reach)
    requires d.choice >= 0 && Logical(d.ty) && d.choice !in Mentions(k.config, i)
    requires Scratch(k.config, k.user, Node(i, Vis)) == T(2)
    requires Scratch(k.config, AfterSet(k.config, k.user, x, value), Node(i, Vis)) == T(2)
    requires Scratch(k.config, k.user, Node(d.choice, Selection)) == Pick(i)
    requires Scratch(k.config, AfterSet(k.config, k.user, x, value), Node(d.choice, Selection)) != Pick(i)
    modifies k
    ensures k.user == AfterSet(k.config, old(k.user), x, value) && before == after == 2
    ensures Scratch(k.config, old(k.user), Node(i, TriVal)) == T(2)
    ensures Scratch(k.config, k.user, Node(i, TriVal)) == T(0)
  {
    hide Formed, Sound, GoodUser, Right, Scratch, DependentsWithin, AfterSet, StartOf, Mentions;
    ghost var u := k.user;
    GoodAfter(k.config, u, x, value);
    Ranks(k.config);
    BrokenLink(k.config, u, AfterSet(k.config, u, x, value), i, d);
    before := k.SymbolTriValue(i);
    KeepsValue(k, x, value, Node(i, TriVal), reach);
    after := k.SymbolTriValue(i);
  }

  lemma Ranks(c: Config)
    ensures Formed(c) ==> Ranked(c)
  {
  }

  // MODULES --------------------------------------------------------------------------

  /** MODULES as an option, and a tristate symbol. */
  const Toggle := Config(
    map[
      YES := Constant(true, 2, "y"), NO := Constant(true, 0, "n"), MODS := Simple(Sym(YES), Sym(YES), -1),
      FOO := ASymbol(SymbolDef(Tristate, [Sym(YES)], [], [], Sym(NO), Sym(NO), Sym(YES), -1))],
    MODS, (_, _) => NaN, (_, _) => "", (_, _) => 0, ToggleOrder)

  function ToggleOrder(n: Node): nat {
    match n.prop
    case Vis => if n.item == MODS then 0 else 2
    case TriVal => if n.item == MODS then 1 else 3
    case StrVal => 9
    case Selection => 9
  }

  lemma ToggleNodes(m: Node)
    ensures m !in ExprNodes(Toggle, Sym(YES)) && m !in ExprNodes(Toggle, Sym(NO))
    ensures m in SymbolNodes(Toggle, MODS) ==> m == Node(MODS, TriVal)
  {
  }

  lemma ToggleRankedAt(n: Node, m: Node)
    requires m in MayUse(Toggle, n)
    ensures ToggleOrder(m) < ToggleOrder(n)
  {
    ToggleNodes(m);
    if n.item == MODS || n.item == FOO {
      var d := Kind(Toggle, n.item).s;
      assert Conds(d.defaults) == [] && Values(d.defaults) == [];
      ShownNodes(d.prompts, m);
    }
  }

  lemma ShownNodes(es: seq<Expr>, m: Node)
    requires forall e :: e in es ==> e == Sym(YES)
    ensures m !in ExprsNodes(Toggle, es)
  {
    ToggleNodes(m);
  }

  /** A configuration in which MODULES can be set is sound. */
  lemma ToggleSound()
    ensures Sound(Toggle) && Formed(Toggle) && Ranked(Toggle) && Kind(Toggle, Toggle.modules).ASymbol?
  {
    assert Ranked(Toggle) by {
      hide MayUse;
      forall n, m | m in MayUse(Toggle, n) ensures Toggle.rank(m) < Toggle.rank(n) { ToggleRankedAt(n, m); }
    }
    hide Ranked;
  }

  lemma ModulesValue(u: User)
    requires GoodUser(Toggle, u) && Ranked(Toggle) && (MODS in u.tri ==> u.tri[MODS] == 2)
    ensures Scratch(Toggle, u, Node(MODS, TriVal)) == T(if MODS in u.tri then 2 else 0)
  {
    hide Scratch, Ranked;
    MaxOfOne(Toggle, u, Fresh(Toggle, u), Sym(YES));
    ScratchIs(Toggle, u, Node(MODS, Vis));
    ScratchIs(Toggle, u, Node(MODS, TriVal));
  }

  /** m of a tristate symbol is m with MODULES and y without. */
  lemma ToggleValue(u: User)
    requires GoodUser(Toggle, u) && Ranked(Toggle) && FOO in u.tri && u.tri[FOO] == 1 && (MODS in u.tri ==> u.tri[MODS] == 2)
    ensures Scratch(Toggle, u, Node(FOO, TriVal)) == T(if MODS in u.tri then 1 else 2)
  {
    hide Scratch, Ranked;
    ModulesValue(u);
    MaxOfOne(Toggle, u, Fresh(Toggle, u), Sym(YES));
    ScratchIs(Toggle, u, Node(FOO, Vis));
    assert Scratch(Toggle, u, Node(FOO, Vis)) == T(2);
    ScratchIs(Toggle, u, Node(FOO, TriVal));
  }

  /** Setting MODULES drops every cached value, so the next read is right. */
  method ToggleRun() returns (k: Kconf, without: Tri, with: Tri)
    ensures without == 2 && with == 1 && fresh(k) && k.config == Toggle && k.Inv()
  {
    hide Ranked, Formed, Right, Scratch, AfterSet;
    ToggleSound();
    ghost var u := AfterSet(Toggle, Nobody, FOO, Tri3(1));
    ToggleSets();
    ToggleValue(u);
    ToggleValue(AfterSet(Toggle, u, MODS, Tri3(2)));
    k := new Kconf(Toggle);
    var _ := k.SetSymbol(FOO, Tri3(1));
    without := k.SymbolTriValue(FOO);
    var _ := k.SetSymbol(MODS, Tri3(2));
    with := k.SymbolTriValue(FOO);
  }

  lemma ToggleSets()
    ensures
      var u := AfterSet(Toggle, Nobody, FOO, Tri3(1));
      u == User(map[FOO := 1], map[], map[]) && AfterSet(Toggle, u, MODS, Tri3(2)) == User(map[FOO := 1, MODS := 2], map[], map[])
  {
  }
}
