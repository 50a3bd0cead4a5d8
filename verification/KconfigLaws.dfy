/** The laws of the values of symbols and choices. */
module KconfigLaws {
  import opened KconfigExpr
  import opened KconfigValues
  import opened KconfigScratch
  import opened KconfigCache
  import opened KconfigMeaning

  // Bool and tristate symbols --------------------------------------------------------------

  /** A bool or tristate symbol of a parsed configuration, outside choices. */
  ghost predicate Plain(c: Config, u: User, i: nat, d: SymbolDef) {
    Formed(c) && GoodUser(c, u) && Kind(c, i) == ASymbol(d) && d.choice < 0 && Logical(d.ty)
  }

  /** Default `k` is the first whose condition is not n. */
  ghost predicate InForce(c: Config, u: User, ds: seq<Default>, k: nat) {
    k < |ds| && Now(c, u, ds[k].cond) != 0 && forall j :: 0 <= j < k ==> Now(c, u, ds[j].cond) == 0
  }

  ghost predicate NoneInForce(c: Config, u: User, ds: seq<Default>) {
    forall j :: 0 <= j < |ds| ==> Now(c, u, ds[j].cond) == 0
  }

  lemma {:induction false} FirstIs(c: Config, u: User, ds: seq<Default>, k: nat)
    requires k <= |ds|
    ensures var r := FirstDefault(c, u, Fresh(c, u), ds, k).v;
      && k <= r <= |ds| && (forall j :: k <= j < r ==> Now(c, u, ds[j].cond) == 0) && (r < |ds| ==> Now(c, u, ds[r].cond) != 0)
    decreases |ds| - k
  {
    hide Eval, Fresh;
    if k < |ds| && Now(c, u, ds[k].cond) == 0 { FirstIs(c, u, ds, k + 1); }
  }

  /** `w` is what defaults and imply give. */
  ghost predicate Defaulted(c: Config, u: User, d: SymbolDef, w: Tri) {
    exists v: Tri :: DefaultIs(c, u, d.defaults, v) && ImpliedTo(c, u, d, v, w)
  }

  /** The first default in force, limited by its condition; n without one. */
  ghost predicate DefaultIs(c: Config, u: User, ds: seq<Default>, v: Tri) {
    && (NoneInForce(c, u, ds) ==> v == 0)
    && forall k: nat :: InForce(c, u, ds, k) ==>
         && v <= Now(c, u, ds[k].value) && v <= Now(c, u, ds[k].cond)
         && (v == Now(c, u, ds[k].value) || v == Now(c, u, ds[k].cond))
  }

  /** An imply raises it, if the direct dependencies are met. */
  ghost predicate ImpliedTo(c: Config, u: User, d: SymbolDef, v: Tri, w: Tri) {
    if Now(c, u, d.directDep) == 0 || Now(c, u, d.weakRevDep) <= v then w == v else w == Now(c, u, d.weakRevDep)
  }

  /** `w` is what the symbol would be without select and promotion: what the user
      gave, if the symbol is visible, limited by the visibility; else the default. */
  ghost predicate Unselected(c: Config, u: User, i: nat, d: SymbolDef, w: Tri) {
    if VisNow(c, u, i) != 0 && i in u.tri then w == (if u.tri[i] <= VisNow(c, u, i) then u.tri[i] else VisNow(c, u, i))
    else Defaulted(c, u, d, w)
  }

  /** m is y for what cannot be m now, and for what an imply of y asks for. */
  ghost function Promoted(c: Config, u: User, d: SymbolDef, w: Tri): Tri {
    if w == 1 && (!CanBeM(c, u, d) || Now(c, u, d.weakRevDep) == 2) then 2 else w
  }

  lemma DefaultTriIs(c: Config, u: User, d: SymbolDef)
    ensures Defaulted(c, u, d, DefaultTri(c, u, Fresh(c, u), d).v)
  {
    hide Eval, Fresh, FirstDefault;
    FirstIs(c, u, d.defaults, 0);
    var k := FirstDefault(c, u, Fresh(c, u), d.defaults, 0).v;
    var v: Tri := if k == |d.defaults| then 0 else Min(Now(c, u, d.defaults[k].value), Now(c, u, d.defaults[k].cond));
    assert DefaultIs(c, u, d.defaults, v);
    assert ImpliedTo(c, u, d, v, DefaultTri(c, u, Fresh(c, u), d).v);
  }

  /** Only one value is what defaults and imply give. */
  lemma DefaultedOnce(c: Config, u: User, d: SymbolDef, w: Tri, w': Tri)
    requires Defaulted(c, u, d, w) && Defaulted(c, u, d, w')
    ensures w == w'
  {
    hide Now;
    FirstIs(c, u, d.defaults, 0);
    var k := FirstDefault(c, u, Fresh(c, u), d.defaults, 0).v;
    assert k < |d.defaults| ==> InForce(c, u, d.defaults, k);
    assert k == |d.defaults| ==> NoneInForce(c, u, d.defaults);
  }

  /** The value of a symbol: the larger of what it is without select and of what
      selects it, promoted. */
  lemma ValueIs(c: Config, u: User, i: nat, d: SymbolDef, w: Tri)
    requires Plain(c, u, i, d) && Unselected(c, u, i, d, w)
    ensures TriOf(c, u, i) == Promoted(c, u, d, if w <= Now(c, u, d.revDep) then Now(c, u, d.revDep) else w)
  {
    hide Eval, Fresh, Ranked, GoodUser, DefaultTri, SymbolVis, Scratch, Defaulted, StaysTristate;
    SymbolEq(c, u, i, d);
    TristateNow(c, u, d);
    DefaultTriIs(c, u, d);
    if !(VisNow(c, u, i) != 0 && i in u.tri) { DefaultedOnce(c, u, d, w, DefaultTri(c, u, Fresh(c, u), d).v); }
  }

  lemma UnselectedExists(c: Config, u: User, i: nat, d: SymbolDef) returns (w: Tri)
    ensures Unselected(c, u, i, d, w)
  {
    DefaultTriIs(c, u, d);
    w := if VisNow(c, u, i) != 0 && i in u.tri then (if u.tri[i] <= VisNow(c, u, i) then u.tri[i] else VisNow(c, u, i))
         else DefaultTri(c, u, Fresh(c, u), d).v;
  }

  /** A select is a lower bound, whatever the user says. */
  lemma SelectIsLowerBound(c: Config, u: User, i: nat, d: SymbolDef)
    requires Plain(c, u, i, d)
    ensures Now(c, u, d.revDep) <= TriOf(c, u, i)
  {
    hide Now, TriOf, Unselected, Plain;
    var w := UnselectedExists(c, u, i, d);
    ValueIs(c, u, i, d, w);
  }

  /** Without select and imply, a visible symbol is no more than its visibility
      once the user set it. */
  lemma VisibilityIsUpperBound(c: Config, u: User, i: nat, d: SymbolDef)
    requires Plain(c, u, i, d) && VisNow(c, u, i) != 0 && i in u.tri
    requires Now(c, u, d.revDep) == 0 && Now(c, u, d.weakRevDep) != 2
    ensures TriOf(c, u, i) <= VisNow(c, u, i)
  {
    hide Now, TriOf, VisNow, CanBeM, Ranked, GoodUser, Formed;
    var w := UnselectedExists(c, u, i, d);
    ValueIs(c, u, i, d, w);
    Visible(c, u, i, d);
  }

  /** An imply is a lower bound where the user has no say. */
  lemma ImplyIsLowerBound(c: Config, u: User, i: nat, d: SymbolDef)
    requires Plain(c, u, i, d) && !(VisNow(c, u, i) != 0 && i in u.tri) && Now(c, u, d.directDep) != 0
    ensures Now(c, u, d.weakRevDep) <= TriOf(c, u, i)
  {
    hide Now, TriOf, VisNow, CanBeM, Plain, DefaultIs;
    var w := UnselectedExists(c, u, i, d);
    ValueIs(c, u, i, d, w);
  }

  /** What cannot be m now, a bool above all, never reads m. */
  lemma NeverM(c: Config, u: User, i: nat, d: SymbolDef)
    requires Formed(c) && GoodUser(c, u) && Kind(c, i) == ASymbol(d) && Logical(d.ty) && !CanBeM(c, u, d)
    ensures TriOf(c, u, i) != 1 && VisNow(c, u, i) != 1
  {
    hide Ranked, GoodUser, Eval, Fresh, Scratch, MaxOf;
    FormedInside(c, i);
    if d.choice < 0 {
      Visible(c, u, i, d);
      var w := UnselectedExists(c, u, i, d);
      ValueIs(c, u, i, d, w);
    } else {
      SymbolEq(c, u, i, d);
      TristateNow(c, u, d);
    }
  }

  // Choices -----------------------------------------------------------------------------

  ghost predicate IsChoice(c: Config, u: User, i: nat, d: ChoiceDef) {
    Formed(c) && GoodUser(c, u) && Kind(c, i) == AChoice(d)
  }

  /** What choices may be m now. */
  ghost predicate ModeCanBeM(c: Config, u: User, d: ChoiceDef) {
    d.tristate && TriOf(c, u, c.modules) != 0
  }

  /** A choice is visible exactly if one of its prompts is. */
  lemma ChoiceVisible(c: Config, u: User, i: nat, d: ChoiceDef)
    requires IsChoice(c, u, i, d)
    ensures VisNow(c, u, i) == 0 <==> forall p :: p in d.prompts ==> Now(c, u, p) == 0
    ensures forall p :: p in d.prompts ==> Now(c, u, p) <= VisNow(c, u, i)
    ensures !ModeCanBeM(c, u, d) ==> VisNow(c, u, i) != 1
  {
    hide Ranked, GoodUser, MaxOf, Scratch;
    ChoiceEq(c, u, i, d);
    MaxIs(c, u, d.prompts);
  }

  /** The mode of a choice: within its visibility, n only if it is optional or
      invisible, m only where m can be, what the user asked for where that is
      possible, and otherwise the least that is. */
  lemma ModeIs(c: Config, u: User, i: nat, d: ChoiceDef)
    requires IsChoice(c, u, i, d)
    ensures TriOf(c, u, i) <= VisNow(c, u, i)
    ensures TriOf(c, u, i) == 0 ==> d.optional || VisNow(c, u, i) == 0
    ensures TriOf(c, u, i) == 1 ==> ModeCanBeM(c, u, d)
    ensures i in u.tri && u.tri[i] <= VisNow(c, u, i) && (u.tri[i] == 0 ==> d.optional) && (u.tri[i] == 1 ==> ModeCanBeM(c, u, d)) ==>
              TriOf(c, u, i) == u.tri[i]
    ensures i !in u.tri && d.optional ==> TriOf(c, u, i) == 0
    ensures i !in u.tri && !d.optional && ModeCanBeM(c, u, d) ==> TriOf(c, u, i) <= 1
  {
    hide Ranked, GoodUser, MaxOf, ChoiceVis, Scratch;
    ChoiceVisible(c, u, i, d);
  }

  /** A bool or tristate symbol of the choice `ch`. */
  ghost predicate IsMember(c: Config, ch: nat, j: nat) {
    Kind(c, j).ASymbol? && Kind(c, j).s.choice == ch && Logical(Kind(c, j).s.ty)
  }

  ghost predicate Members(c: Config, ch: nat, d: ChoiceDef) {
    OwnDefaults(c, d) && forall j :: j in d.syms ==> IsMember(c, ch, j)
  }

  ghost function SelectionNow(c: Config, u: User, ch: nat): int {
    var v := Scratch(c, u, Node(ch, Selection));
    if v.Pick? then v.sym else -1
  }

  /** In a choice that is y a symbol is invisible or fully visible, and y exactly
      if it is the selection; in another choice none is y. */
  lemma MemberIs(c: Config, u: User, ch: nat, d: ChoiceDef, j: nat)
    requires IsChoice(c, u, ch, d) && j in d.syms && IsMember(c, ch, j)
    ensures TriOf(c, u, j) == 2 <==> VisNow(c, u, j) == 2 && SelectionNow(c, u, ch) == j
    ensures TriOf(c, u, ch) != 2 ==> SelectionNow(c, u, ch) < 0
    ensures TriOf(c, u, ch) == 2 ==> VisNow(c, u, j) != 1 && TriOf(c, u, j) != 1
  {
    hide Ranked, GoodUser, Eval, MaxOf, StaysTristate, Select, Scratch;
    SymbolEq(c, u, j, Kind(c, j).s);
    ChoiceEq(c, u, ch, d);
    SelectionIs(c, u, ch, d);
  }

  lemma SelectionIs(c: Config, u: User, ch: nat, d: ChoiceDef)
    requires IsChoice(c, u, ch, d)
    ensures SelectionNow(c, u, ch) == Select(c, u, Fresh(c, u), ch, d).v
    ensures TriOf(c, u, ch) != 2 ==> SelectionNow(c, u, ch) == -1
  {
    hide Ranked, GoodUser, Eval, Fresh, SelectDefault, UserPick, Scratch;
    ChoiceEq(c, u, ch, d);
  }

  lemma {:induction false} FirstVisibleIs(c: Config, u: User, syms: seq<nat>, k: nat)
    requires k <= |syms|
    ensures var r := FirstVisible(c, Fresh(c, u), syms, k).v;
      if forall j :: k <= j < |syms| ==> VisNow(c, u, syms[j]) == 0 then r == -1
      else exists j :: IsFirstVisible(c, u, syms, j, k) && r == syms[j]
    decreases |syms| - k
  {
    hide Fresh, VisOf;
    if k < |syms| {
      if VisNow(c, u, syms[k]) == 0 {
        FirstVisibleIs(c, u, syms, k + 1);
        if j :| IsFirstVisible(c, u, syms, j, k + 1) && FirstVisible(c, Fresh(c, u), syms, k + 1).v == syms[j] {
          assert IsFirstVisible(c, u, syms, j, k);
        }
      } else {
        assert IsFirstVisible(c, u, syms, k, k);
      }
    }
  }

  /** Symbol `j` is visible and none from `k` on is before it. */
  ghost predicate IsFirstVisible(c: Config, u: User, syms: seq<nat>, j: int, k: nat) {
    k <= j < |syms| && VisNow(c, u, syms[j]) != 0 && forall l :: k <= l < j ==> VisNow(c, u, syms[l]) == 0
  }

  /** Default `k` of a choice may be selected. */
  ghost predicate Offers(c: Config, u: User, d: ChoiceDef, k: nat) {
    k < |d.defaults| && Now(c, u, d.defaults[k].cond) != 0 && VisNow(c, u, d.defaults[k].sym) != 0
  }

  lemma {:induction false} SelectDefaultIs(c: Config, u: User, d: ChoiceDef, k: nat)
    requires k <= |d.defaults|
    ensures var r := SelectDefault(c, u, Fresh(c, u), d, k).v;
      && (forall j: nat :: k <= j && Offers(c, u, d, j) && (forall l: nat :: k <= l < j ==> !Offers(c, u, d, l)) ==> r == d.defaults[j].sym)
      && ((forall j: nat :: k <= j ==> !Offers(c, u, d, j)) ==> r == FirstVisible(c, Fresh(c, u), d.syms, 0).v)
    decreases |d.defaults| - k
  {
    hide Fresh, VisOf, Eval, FirstVisible;
    if k < |d.defaults| {
      SelectDefaultIs(c, u, d, k + 1);
      if Offers(c, u, d, k) {
        assert SelectDefault(c, u, Fresh(c, u), d, k).v == d.defaults[k].sym;
      } else {
        assert SelectDefault(c, u, Fresh(c, u), d, k).v == SelectDefault(c, u, Fresh(c, u), d, k + 1).v;
      }
    }
  }

  lemma LeastOffer(c: Config, u: User, d: ChoiceDef, j: nat) returns (l: nat)
    requires Offers(c, u, d, j)
    ensures Offers(c, u, d, l) && forall i: nat :: i < l ==> !Offers(c, u, d, i)
    decreases j
  {
    hide Offers;
    if i: nat :| i < j && Offers(c, u, d, i) { l := LeastOffer(c, u, d, i); } else { l := j; }
  }

  /** What is selected in a choice that is y: the user's pick if it is visible; else
      the first default that is offered; else the first visible symbol. */
  lemma SelectionRule(c: Config, u: User, ch: nat, d: ChoiceDef)
    requires IsChoice(c, u, ch, d) && TriOf(c, u, ch) == 2
    ensures var s := SelectionNow(c, u, ch);
      && (Picked(c, u, ch) ==> s == u.selection[ch])
      && (!Picked(c, u, ch) ==> forall k: nat :: Offers(c, u, d, k) && (forall l: nat :: l < k ==> !Offers(c, u, d, l)) ==> s == d.defaults[k].sym)
      && (!Picked(c, u, ch) && (forall k: nat :: !Offers(c, u, d, k)) ==>
            if forall j :: 0 <= j < |d.syms| ==> VisNow(c, u, d.syms[j]) == 0 then s == -1
            else exists j :: IsFirstVisible(c, u, d.syms, j, 0) && s == d.syms[j])
  {
    hide Ranked, GoodUser, Eval, Fresh, SelectDefault, VisOf, FirstVisible, Offers, IsFirstVisible, Scratch;
    SelectionIs(c, u, ch, d);
    SelectDefaultIs(c, u, d, 0);
    FirstVisibleIs(c, u, d.syms, 0);
  }

  /** The user's pick in a choice is visible. */
  ghost predicate Picked(c: Config, u: User, ch: nat) {
    ch in u.selection && VisNow(c, u, u.selection[ch]) != 0
  }

  /** Something visible is selected as soon as a symbol is visible. */
  lemma SelectionVisible(c: Config, u: User, ch: nat, d: ChoiceDef)
    requires IsChoice(c, u, ch, d) && OwnDefaults(c, d) && TriOf(c, u, ch) == 2
    requires exists j :: j in d.syms && VisNow(c, u, j) != 0
    ensures SelectionNow(c, u, ch) in d.syms && VisNow(c, u, SelectionNow(c, u, ch)) != 0
  {
    hide Ranked, Fresh, Scratch, Eval;
    SelectionRule(c, u, ch, d);
    if !Picked(c, u, ch) {
      if k: nat :| Offers(c, u, d, k) {
        var l := LeastOffer(c, u, d, k);
        assert d.defaults[l] in d.defaults;
      } else {
        var j :| j in d.syms && VisNow(c, u, j) != 0;
        var i :| 0 <= i < |d.syms| && d.syms[i] == j;
      }
    }
  }

  /** In a choice that is y exactly one symbol is y and the others are n, as soon as
      one is visible; a choice that is not y has no symbol that is y. */
  lemma ExactlyOne(c: Config, u: User, ch: nat, d: ChoiceDef)
    requires IsChoice(c, u, ch, d) && Members(c, ch, d)
    ensures TriOf(c, u, ch) == 2 && (exists j :: j in d.syms && VisNow(c, u, j) != 0) ==>
      exists i :: i in d.syms && TriOf(c, u, i) == 2 && forall j :: j in d.syms && j != i ==> TriOf(c, u, j) == 0
    ensures TriOf(c, u, ch) == 2 && (forall j :: j in d.syms ==> VisNow(c, u, j) == 0) ==> forall j :: j in d.syms ==> TriOf(c, u, j) == 0
    ensures TriOf(c, u, ch) != 2 ==> forall j :: j in d.syms ==> TriOf(c, u, j) != 2
  {
    hide IsChoice, TriOf, VisNow, SelectionNow, OwnDefaults;
    forall j | j in d.syms
      ensures TriOf(c, u, j) == 2 <==> VisNow(c, u, j) == 2 && SelectionNow(c, u, ch) == j
      ensures TriOf(c, u, ch) != 2 ==> SelectionNow(c, u, ch) < 0
      ensures TriOf(c, u, ch) == 2 ==> VisNow(c, u, j) != 1 && TriOf(c, u, j) != 1
    {
      MemberIs(c, u, ch, d, j);
    }
    if TriOf(c, u, ch) == 2 && exists j :: j in d.syms && VisNow(c, u, j) != 0 {
      SelectionVisible(c, u, ch, d);
      assert TriOf(c, u, SelectionNow(c, u, ch)) == 2;
    }
  }

  /** The user's pick is granted as soon as it is visible and the choice is y. */
  lemma PickGranted(c: Config, u: User, ch: nat, d: ChoiceDef)
    requires IsChoice(c, u, ch, d) && Members(c, ch, d) && TriOf(c, u, ch) == 2 && Picked(c, u, ch)
    ensures TriOf(c, u, u.selection[ch]) == 2
  {
    hide Ranked, Fresh, Scratch, Eval, TriOf, VisNow, SelectionNow;
    SelectionRule(c, u, ch, d);
    MemberIs(c, u, ch, d, u.selection[ch]);
  }

  // Texts ---------------------------------------------------------------------------------

  ghost predicate IsSymbol(c: Config, u: User, i: nat, d: SymbolDef) {
    Formed(c) && GoodUser(c, u) && Kind(c, i) == ASymbol(d)
  }

  /** The number in a text; what is no number counts as 0. */
  function Reads(c: Config, ty: Type, text: string): int {
    match c.parse(ty, text)
    case Num(n) => n
    case NaN => 0
  }

  /** Printing a number and reading it gives the number. */
  ghost predicate PrintsWell(c: Config) {
    forall ty: Type, n :: ty.Int? || ty.Hex? ==> c.parse(ty, c.render(ty, n)) == Num(n)
  }

  /** `t` is the text of the first default in force, or nothing. */
  ghost predicate DefaultTextIs(c: Config, u: User, ds: seq<Default>, t: string) {
    && (NoneInForce(c, u, ds) ==> t == "")
    && forall k: nat :: InForce(c, u, ds, k) ==> t == if ds[k].value.Sym? then TextOf(c, u, ds[k].value.sym) else ""
  }

  lemma DefaultTextHolds(c: Config, u: User, d: SymbolDef)
    ensures DefaultTextIs(c, u, d.defaults, DefaultText(c, u, Fresh(c, u), d).v)
  {
    hide Eval, Fresh, FirstDefault, ItemText;
    FirstIs(c, u, d.defaults, 0);
  }

  lemma DefaultTextOnce(c: Config, u: User, ds: seq<Default>, t: string, t': string)
    requires DefaultTextIs(c, u, ds, t) && DefaultTextIs(c, u, ds, t')
    ensures t == t'
  {
    hide Now;
    FirstIs(c, u, ds, 0);
    var k := FirstDefault(c, u, Fresh(c, u), ds, 0).v;
    assert k < |ds| ==> InForce(c, u, ds, k);
    assert k == |ds| ==> NoneInForce(c, u, ds);
  }

  /** The text of a bool or tristate symbol names its value; that of a string is
      what the user gave, if it is visible, and its default otherwise. */
  lemma TextIs(c: Config, u: User, i: nat, d: SymbolDef, t: string)
    requires IsSymbol(c, u, i, d) && DefaultTextIs(c, u, d.defaults, t)
    ensures Logical(d.ty) ==> TextOf(c, u, i) == (if TriOf(c, u, i) == 0 then "n" else if TriOf(c, u, i) == 1 then "m" else "y")
    ensures d.ty.Str? ==> TextOf(c, u, i) == if VisNow(c, u, i) != 0 && i in u.text then u.text[i] else t
  {
    hide Eval, Ranked, GoodUser, Fresh, Scratch, DefaultText, SymbolTriOf, NumberText;
    SymbolEq(c, u, i, d);
    DefaultTextHolds(c, u, d);
    DefaultTextOnce(c, u, d.defaults, t, DefaultText(c, u, Fresh(c, u), d).v);
  }

  /** Range `k` is the first whose condition is not n. */
  ghost predicate RangeInForce(c: Config, u: User, rs: seq<Range>, k: nat) {
    k < |rs| && Now(c, u, rs[k].cond) != 0 && forall j :: 0 <= j < k ==> Now(c, u, rs[j].cond) == 0
  }

  lemma {:induction false} FirstRangeIs(c: Config, u: User, rs: seq<Range>, k: nat)
    requires k <= |rs|
    ensures var r := FirstRange(c, u, Fresh(c, u), rs, k).v;
      && k <= r <= |rs| && (forall j :: k <= j < r ==> Now(c, u, rs[j].cond) == 0) && (r < |rs| ==> Now(c, u, rs[r].cond) != 0)
    decreases |rs| - k
  {
    hide Eval, Fresh;
    if k < |rs| && Now(c, u, rs[k].cond) == 0 { FirstRangeIs(c, u, rs, k + 1); }
  }

  lemma BoundsAre(c: Config, u: User, d: SymbolDef)
    ensures var b := BoundsOf(c, u, Fresh(c, u), d).v;
      && (forall k: nat :: RangeInForce(c, u, d.ranges, k) ==>
            b == Bounded(Reads(c, d.ty, TextOf(c, u, d.ranges[k].low)), Reads(c, d.ty, TextOf(c, u, d.ranges[k].high))))
      && ((forall k: nat :: !RangeInForce(c, u, d.ranges, k)) ==> b == Unbounded)
  {
    hide Eval, Fresh, FirstRange, ItemText;
    FirstRangeIs(c, u, d.ranges, 0);
    var r := FirstRange(c, u, Fresh(c, u), d.ranges, 0).v;
    assert r < |d.ranges| ==> RangeInForce(c, u, d.ranges, r);
  }

  /** An int or hex symbol whose range in force is ordered reads a number in it: the
      user's text as it stands, if the symbol is visible and the number is in range;
      otherwise the default's, moved to the nearer end if it is outside. */
  lemma RangeKept(c: Config, u: User, i: nat, d: SymbolDef, k: nat, t: string)
    requires IsSymbol(c, u, i, d) && (d.ty.Int? || d.ty.Hex?) && PrintsWell(c) && DefaultTextIs(c, u, d.defaults, t)
    requires RangeInForce(c, u, d.ranges, k)
    ensures var low, high := Reads(c, d.ty, TextOf(c, u, d.ranges[k].low)), Reads(c, d.ty, TextOf(c, u, d.ranges[k].high));
      var n := Reads(c, d.ty, TextOf(c, u, i));
      && (low <= high ==> low <= n <= high)
      && (if VisNow(c, u, i) != 0 && i in u.text && u.text[i] != "" && low <= Reads(c, d.ty, u.text[i]) <= high then TextOf(c, u, i) == u.text[i]
          else if Reads(c, d.ty, t) < low then n == low
          else if Reads(c, d.ty, t) > high then n == high
          else TextOf(c, u, i) == t)
  {
    hide Eval, Ranked, GoodUser, Fresh, Scratch, DefaultText, BoundsOf, RangeInForce;
    SymbolEq(c, u, i, d);
    DefaultTextHolds(c, u, d);
    DefaultTextOnce(c, u, d.defaults, t, DefaultText(c, u, Fresh(c, u), d).v);
    BoundsAre(c, u, d);
  }

  /** Without a range in force the user's text counts as soon as the symbol is
      visible, and else the default's. */
  lemma NoRange(c: Config, u: User, i: nat, d: SymbolDef, t: string)
    requires IsSymbol(c, u, i, d) && (d.ty.Int? || d.ty.Hex?) && DefaultTextIs(c, u, d.defaults, t)
    requires forall k: nat :: !RangeInForce(c, u, d.ranges, k)
    ensures TextOf(c, u, i) == if VisNow(c, u, i) != 0 && i in u.text && u.text[i] != "" then u.text[i] else t
  {
    hide Eval, Ranked, GoodUser, Fresh, Scratch, DefaultText, BoundsOf, RangeInForce;
    SymbolEq(c, u, i, d);
    DefaultTextHolds(c, u, d);
    DefaultTextOnce(c, u, d.defaults, t, DefaultText(c, u, Fresh(c, u), d).v);
    BoundsAre(c, u, d);
  }

  // Setting values ---------------------------------------------------------------------------

  /** Which values `set_value` accepts, type by type. */
  lemma AcceptedValues(c: Config, i: nat, v: Value)
    ensures var ty := TypeCode(c, i);
      && (Typed(c, i) && ty.Bool? ==> (Accepted(c, i, v) <==> v in {Tri3(0), Tri3(2), Text("n"), Text("y")}))
      && (Typed(c, i) && ty.Tristate? ==> (Accepted(c, i, v) <==> v in {Tri3(0), Tri3(1), Tri3(2), Text("n"), Text("m"), Text("y")}))
      && (Typed(c, i) && ty.Str? ==> (Accepted(c, i, v) <==> v.Text?))
      && (Typed(c, i) && ty.Int? ==> (Accepted(c, i, v) <==> v.Text? && exists n :: c.parse(Int, v.s) == Num(n)))
      && (Typed(c, i) && ty.Hex? ==> (Accepted(c, i, v) <==> v.Text? && exists n :: n >= 0 && c.parse(Hex, v.s) == Num(n)))
      && (!Typed(c, i) ==> !Accepted(c, i, v))
  {
    assert v.Text? && c.parse(Int, v.s).Num? ==> c.parse(Int, v.s) == Num(c.parse(Int, v.s).n);
    assert v.Text? && c.parse(Hex, v.s).Num? ==> c.parse(Hex, v.s) == Num(c.parse(Hex, v.s).n);
  }

  /** A symbol outside choices that is set reads as it was set, as soon as it is
      visible to that value, nothing selects it, and m is possible if it is m. */
  lemma SetThenRead(c: Config, u: User, i: nat, d: SymbolDef, t: Tri)
    requires Plain(c, u, i, d) && Accepted(c, i, Tri3(t))
    ensures var u' := AfterCall(c, u, Set(i, Tri3(t)));
      && Plain(c, u', i, d)
      && (0 < VisNow(c, u', i) && t <= VisNow(c, u', i) && Now(c, u', d.revDep) <= t
          && (t == 1 ==> CanBeM(c, u', d) && Now(c, u', d.weakRevDep) != 2) ==>
          FreshResult(c, u', ReadTri(i)) == T(t))
  {
    hide Ranked, TriOf, VisNow, CanBeM, Now;
    var u' := AfterCall(c, u, Set(i, Tri3(t)));
    assert u' == u.(tri := u.tri[i := t]);
    if VisNow(c, u', i) != 0 && t <= VisNow(c, u', i) { ValueIs(c, u', i, d, t); }
    Answered(c, u', i, Sym(i));
  }

  /** The names n, m and y set what 0, 1 and 2 set. */
  lemma NamesAreValues(c: Config, u: User, i: nat, t: Tri)
    requires Typed(c, i) && Logical(TypeCode(c, i))
    ensures var name := if t == 0 then "n" else if t == 1 then "m" else "y";
      && AfterCall(c, u, Set(i, Text(name))) == AfterCall(c, u, Set(i, Tri3(t)))
      && FreshResult(c, u, Set(i, Text(name))) == FreshResult(c, u, Set(i, Tri3(t)))
  {
    assert "n" != "m" && "m" != "y" && "n" != "y" by {
      assert "n"[0] != "m"[0] && "m"[0] != "y"[0] && "n"[0] != "y"[0];
    }
  }

  /** A string symbol that is set reads the text, and an int or hex symbol does if
      no range is in force, as soon as it is visible. */
  lemma SetTextThenRead(c: Config, u: User, i: nat, d: SymbolDef, s: string)
    requires IsSymbol(c, u, i, d) && !Logical(d.ty) && Accepted(c, i, Text(s)) && s != ""
    ensures var u' := AfterCall(c, u, Set(i, Text(s)));
      && IsSymbol(c, u', i, d)
      && (VisNow(c, u', i) != 0 && (d.ty.Str? || forall k: nat :: !RangeInForce(c, u', d.ranges, k)) ==>
          FreshResult(c, u', ReadText(i)) == S(s))
  {
    hide Ranked, TextOf, VisNow, RangeInForce, DefaultTextIs;
    var u' := AfterCall(c, u, Set(i, Text(s)));
    assert u' == u.(text := u.text[i := s]);
    DefaultTextHolds(c, u', d);
    var t := DefaultText(c, u', Fresh(c, u'), d).v;
    if d.ty.Str? {
      TextIs(c, u', i, d, t);
    } else if forall k: nat :: !RangeInForce(c, u', d.ranges, k) {
      NoRange(c, u', i, d, t);
    }
    Answered(c, u', i, Sym(i));
  }

  /** A symbol that is unset reads as its defaults and what selects it have it. */
  lemma UnsetThenRead(c: Config, u: User, i: nat, d: SymbolDef, w: Tri)
    requires Plain(c, u, i, d)
    ensures var u' := AfterCall(c, u, Unset(i));
      && Plain(c, u', i, d) && i !in u'.text
      && (Defaulted(c, u', d, w) ==>
          FreshResult(c, u', ReadTri(i)) == T(Promoted(c, u', d, if w <= Now(c, u', d.revDep) then Now(c, u', d.revDep) else w)))
  {
    hide Ranked, TriOf, VisNow, Defaulted, Promoted, Now;
    var u' := AfterCall(c, u, Unset(i));
    if Defaulted(c, u', d, w) { ValueIs(c, u', i, d, w); }
    Answered(c, u', i, Sym(i));
  }

  /** What is set or unset is a setting of this item, or the selection of its
      choice; a value that is not accepted is not remembered. */
  lemma OnlyItsOwn(c: Config, u: User, call: Call, j: nat)
    requires call.Set? || call.Unset?
    ensures var u' := AfterCall(c, u, call);
      && (j != call.i ==> (j in u'.tri <==> j in u.tri) && (j in u'.text <==> j in u.text))
      && (j != call.i && j in u.tri ==> u'.tri[j] == u.tri[j])
      && (j != call.i && j in u.text ==> u'.text[j] == u.text[j])
      && (!(Kind(c, call.i).ASymbol? && Kind(c, call.i).s.choice == j) && j != call.i ==> (j in u'.selection <==> j in u.selection))
      && (!(Kind(c, call.i).ASymbol? && Kind(c, call.i).s.choice == j) && j in u'.selection ==> j in u.selection && u'.selection[j] == u.selection[j])
      && (call.Set? && !Accepted(c, call.i, call.value) ==> u' == u)
      && (call.Unset? && Kind(c, j).AChoice? && j == call.i ==> j !in u'.tri && j !in u'.selection)
  {
  }

  /** Setting a symbol of a choice to y makes it the one that is y, as soon as it is
      visible and the choice is y. */
  lemma SetInChoice(c: Config, u: User, ch: nat, d: ChoiceDef, j: nat)
    requires IsChoice(c, u, ch, d) && Members(c, ch, d) && j in d.syms
    ensures var u' := AfterCall(c, u, Set(j, Tri3(2)));
      && IsChoice(c, u', ch, d)
      && (TriOf(c, u', ch) == 2 && VisNow(c, u', j) != 0 ==>
          FreshResult(c, u', ReadTri(j)) == T(2) && forall k :: k in d.syms && k != j ==> FreshResult(c, u', ReadTri(k)) == T(0))
  {
    hide Ranked, TriOf, VisNow, OwnDefaults;
    var u' := AfterCall(c, u, Set(j, Tri3(2)));
    assert IsMember(c, ch, j);
    assert ch in u'.selection && u'.selection[ch] == j;
    if TriOf(c, u', ch) == 2 && VisNow(c, u', j) != 0 {
      PickGranted(c, u', ch, d);
      ExactlyOne(c, u', ch, d);
      forall k ensures FreshResult(c, u', ReadTri(k)) == T(TriOf(c, u', k)) { Answered(c, u', k, Sym(k)); }
    }
  }

  /** Nothing the user can do leaves the laws. */
  lemma {:induction false} GoodAfterAll(c: Config, u: User, calls: seq<Call>)
    requires Formed(c) && GoodUser(c, u)
    ensures GoodUser(c, AfterAll(c, u, calls))
    decreases |calls|
  {
    hide Ranked;
    if calls != [] {
      var k := |calls| - 1;
      GoodAfterAll(c, u, calls[..k]);
      if calls[k].Set? && Kind(c, calls[k].i).ASymbol? { FormedInside(c, calls[k].i); }
    }
  }

  /** The answer to call `k` is that of recomputation after the calls before it. */
  lemma {:induction false} AnswerAt(c: Config, u: User, calls: seq<Call>, k: nat)
    requires k < |calls|
    ensures |FreshResults(c, u, calls)| == |calls|
    ensures FreshResults(c, u, calls)[k] == FreshResult(c, AfterAll(c, u, calls[..k]), calls[k])
    decreases |calls|
  {
    hide FreshResult, AfterAll;
    var n := |calls| - 1;
    if k < n {
      AnswerAt(c, u, calls[..n], k);
      assert calls[..n][..k] == calls[..k];
    } else if n > 0 {
      AnswerAt(c, u, calls[..n], 0);
    }
  }
}
