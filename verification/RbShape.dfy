/** Red-black trees and their zippers as values: a tree with a hole, seen from
    the hole, is how the parent-pointer algorithms see a tree. */
module RbShape {
  import opened Arithmetic

  datatype Tree<E> = Leaf | Node(left: Tree<E>, elem: E, red: bool, right: Tree<E>)

  /** A tree with a hole. `InLeft(up, e, c, sib)`: the hole is the left child of
      `e`, whose right child is `sib`; the rest of the tree is above. */
  datatype Ctx<E> =
    | Top
    | InLeft(up: Ctx<E>, elem: E, red: bool, sib: Tree<E>)
    | InRight(up: Ctx<E>, sib: Tree<E>, elem: E, red: bool)

  function Plug<E>(c: Ctx<E>, t: Tree<E>): Tree<E> {
    match c
    case Top => t
    case InLeft(up, e, red, sib) => Plug(up, Node(t, e, red, sib))
    case InRight(up, sib, e, red) => Plug(up, Node(sib, e, red, t))
  }

  // In-order contents ------------------------------------------------------

  function InOrder<E>(t: Tree<E>): seq<E> {
    match t
    case Leaf => []
    case Node(l, e, _, r) => InOrder(l) + [e] + InOrder(r)
  }

  /** What precedes and follows the hole. */
  function Before<E>(c: Ctx<E>): seq<E> {
    match c
    case Top => []
    case InLeft(up, _, _, _) => Before(up)
    case InRight(up, sib, e, _) => Before(up) + InOrder(sib) + [e]
  }

  function After<E>(c: Ctx<E>): seq<E> {
    match c
    case Top => []
    case InLeft(up, e, _, sib) => [e] + InOrder(sib) + After(up)
    case InRight(up, _, _, _) => After(up)
  }

  lemma Regroup<E>(a: seq<E>, b: seq<E>, c: seq<E>, d: seq<E>, e: seq<E>)
    ensures a + (b + c + d) + e == a + b + (c + d + e) == (a + b + c) + d + e
  {
    assert a + (b + c + d) == a + b + c + d;
    assert a + b + (c + d + e) == a + b + c + d + e;
  }

  lemma {:induction false} InOrderPlug<E>(c: Ctx<E>, t: Tree<E>)
    ensures InOrder(Plug(c, t)) == Before(c) + InOrder(t) + After(c)
  {
    match c
    case Top =>
    case InLeft(up, e, red, sib) =>
      InOrderPlug(up, Node(t, e, red, sib));
      Regroup(Before(up), InOrder(t), [e], InOrder(sib), After(up));
    case InRight(up, sib, e, red) =>
      InOrderPlug(up, Node(sib, e, red, t));
      Regroup(Before(up), InOrder(sib), [e], InOrder(t), After(up));
  }

  // Balance ----------------------------------------------------------------

  predicate IsRed<E>(t: Tree<E>) {
    t.Node? && t.red
  }

  /** The number of black nodes down the left spine. */
  function BlackHeight<E>(t: Tree<E>): nat {
    match t
    case Leaf => 0
    case Node(l, _, red, _) => BlackHeight(l) + (if red then 0 else 1)
  }

  /** No red node has a red child, and all paths have the same black height. */
  predicate Balanced<E>(t: Tree<E>) {
    match t
    case Leaf => true
    case Node(l, _, red, r) =>
      && Balanced(l) && Balanced(r) && BlackHeight(l) == BlackHeight(r)
      && (red ==> !IsRed(l) && !IsRed(r))
  }

  /** A red-black tree: balanced with a black root. */
  predicate RedBlack<E>(t: Tree<E>) {
    Balanced(t) && !IsRed(t)
  }

  predicate CtxRed<E>(c: Ctx<E>) {
    !c.Top? && c.red
  }

  /** A balanced tree of black height `h` in the hole makes the whole balanced,
      as far as the colour of its root allows. */
  predicate Fits<E>(c: Ctx<E>, h: nat) {
    match c
    case Top => true
    case InLeft(up, _, red, sib) =>
      && Balanced(sib) && BlackHeight(sib) == h && (red ==> !IsRed(sib) && !CtxRed(up) && !up.Top?)
      && Fits(up, h + if red then 0 else 1)
    case InRight(up, sib, _, red) =>
      && Balanced(sib) && BlackHeight(sib) == h && (red ==> !IsRed(sib) && !CtxRed(up) && !up.Top?)
      && Fits(up, h + if red then 0 else 1)
  }

  lemma {:induction false} PlugBalanced<E>(c: Ctx<E>, t: Tree<E>)
    requires Balanced(t) && Fits(c, BlackHeight(t))
    requires IsRed(t) ==> !CtxRed(c)
    ensures Balanced(Plug(c, t))
    ensures !c.Top? || !IsRed(t) ==> !IsRed(Plug(c, t))
  {
    match c
    case Top =>
    case InLeft(up, e, red, sib) => PlugBalanced(up, Node(t, e, red, sib));
    case InRight(up, sib, e, red) => PlugBalanced(up, Node(sib, e, red, t));
  }

  lemma {:induction false} UnplugBalanced<E>(c: Ctx<E>, t: Tree<E>)
    requires RedBlack(Plug(c, t))
    ensures Balanced(t) && Fits(c, BlackHeight(t))
    ensures IsRed(t) ==> !CtxRed(c) && !c.Top?
  {
    match c
    case Top =>
    case InLeft(up, e, red, sib) => UnplugBalanced(up, Node(t, e, red, sib));
    case InRight(up, sib, e, red) => UnplugBalanced(up, Node(sib, e, red, t));
  }

  function Blacken<E>(t: Tree<E>): Tree<E> {
    if t.Leaf? then t else t.(red := false)
  }

  lemma BlackenBalanced<E>(t: Tree<E>)
    requires Balanced(t)
    ensures RedBlack(Blacken(t)) && InOrder(Blacken(t)) == InOrder(t)
  {
  }

  // Height -----------------------------------------------------------------

  function Height<E>(t: Tree<E>): nat {
    match t
    case Leaf => 0
    case Node(l, _, _, r) => 1 + if Height(l) < Height(r) then Height(r) else Height(l)
  }

  lemma {:induction false} HeightBound<E>(t: Tree<E>)
    requires Balanced(t)
    ensures Height(t) <= 2 * BlackHeight(t) + (if IsRed(t) then 1 else 0)
    ensures Pow2(BlackHeight(t)) <= |InOrder(t)| + 1
  {
    if t.Node? {
      HeightBound(t.left);
      HeightBound(t.right);
    }
  }

  lemma {:induction false} Pow2Monotone(a: nat, b: nat)
    requires a <= b
    ensures Pow2(a) <= Pow2(b)
  {
    if a < b { Pow2Monotone(a, b - 1); }
  }

  /** Height is at most twice the binary logarithm of size plus one. */
  lemma LogarithmicHeight<E>(t: Tree<E>)
    requires RedBlack(t)
    ensures Pow2((Height(t) + 1) / 2) <= |InOrder(t)| + 1
  {
    HeightBound(t);
    Pow2Monotone((Height(t) + 1) / 2, BlackHeight(t));
  }

  function PlugOne<E>(c: Ctx<E>, t: Tree<E>): Tree<E>
    requires !c.Top?
  {
    match c
    case InLeft(_, e, red, sib) => Node(t, e, red, sib)
    case InRight(_, sib, e, red) => Node(sib, e, red, t)
  }

  function WithSibling<E>(c: Ctx<E>, sib: Tree<E>): Ctx<E>
    requires !c.Top?
  {
    match c
    case InLeft(up, e, red, _) => InLeft(up, e, red, sib)
    case InRight(up, _, e, red) => InRight(up, sib, e, red)
  }

  function Depth<E>(c: Ctx<E>): nat {
    match c
    case Top => 0
    case InLeft(up, _, _, _) => 1 + Depth(up)
    case InRight(up, _, _, _) => 1 + Depth(up)
  }

  function RotatedLeft<E>(t: Tree<E>): Tree<E>
    requires t.Node? && t.right.Node?
  {
    var Node(a, x, cx, r) := t;
    var Node(b, y, cy, d) := r;
    Node(Node(a, x, cx, b), y, cy, d)
  }

  function RotatedRight<E>(t: Tree<E>): Tree<E>
    requires t.Node? && t.left.Node?
  {
    var Node(l, x, cx, d) := t;
    var Node(a, y, cy, b) := l;
    Node(a, y, cy, Node(b, x, cx, d))
  }

  lemma RotatedOrder<E>(a: Tree<E>, x: E, cx: bool, b: Tree<E>, y: E, cy: bool, d: Tree<E>)
    ensures InOrder(Node(a, x, cx, Node(b, y, cy, d))) == InOrder(Node(Node(a, x, cx, b), y, cy, d))
  {
    assert InOrder(a) + [x] + (InOrder(b) + [y] + InOrder(d)) == InOrder(a) + [x] + InOrder(b) + [y] + InOrder(d);
  }

  lemma SameOrder<E>(c: Ctx<E>, t: Tree<E>, t': Tree<E>)
    requires InOrder(t) == InOrder(t')
    ensures InOrder(Plug(c, t)) == InOrder(Plug(c, t'))
  {
    InOrderPlug(c, t);
    InOrderPlug(c, t');
  }

  // Insertion --------------------------------------------------------------

  /** A balanced tree but for its red root, perhaps under a red parent. */
  predicate Unsettled<E>(c: Ctx<E>, t: Tree<E>) {
    IsRed(t) && Balanced(t) && Fits(c, BlackHeight(t))
  }

  /** Root red, children black. */
  function Flipped<E>(t: Tree<E>): Tree<E>
    requires t.Node? && t.left.Node? && t.right.Node?
  {
    Node(t.left.(red := false), t.elem, true, t.right.(red := false))
  }

  lemma ParentRed<E>(c: Ctx<E>, t: Tree<E>)
    requires Unsettled(c, t) && CtxRed(c)
    ensures !c.up.Top? && !CtxRed(c.up) && !IsRed(c.sib) && Balanced(c.sib) && BlackHeight(c.sib) == BlackHeight(t)
    ensures Balanced(c.up.sib) && BlackHeight(c.up.sib) == BlackHeight(t) && Fits(c.up, BlackHeight(t))
  {
    assert Fits(c.up, BlackHeight(t));
  }

  /** Red uncle: push the redness up to the grandparent. */
  lemma RecolourOk<E>(c: Ctx<E>, t: Tree<E>)
    requires Unsettled(c, t) && CtxRed(c) && !c.up.Top? && IsRed(c.up.sib)
    ensures Unsettled(c.up.up, Flipped(PlugOne(c.up, PlugOne(c, t))))
    ensures InOrder(Plug(c.up.up, Flipped(PlugOne(c.up, PlugOne(c, t))))) == InOrder(Plug(c, t))
    ensures Depth(c.up.up) < Depth(c)
  {
    ParentRed(c, t);
    var p := PlugOne(c, t);
    var g := PlugOne(c.up, p);
    assert Balanced(p.(red := false)) && BlackHeight(p.(red := false)) == BlackHeight(t) + 1;
    assert Balanced(c.up.sib.(red := false)) && BlackHeight(c.up.sib.(red := false)) == BlackHeight(t) + 1;
    assert Balanced(Flipped(g)) && BlackHeight(Flipped(g)) == BlackHeight(t) + 1;
    assert Fits(c.up.up, BlackHeight(t) + 1);
    assert Plug(c, t) == Plug(c.up.up, g);
    assert InOrder(Flipped(g)) == InOrder(g);
    SameOrder(c.up.up, Flipped(g), g);
  }

  /** A red node with a red child on its outer side, under a black grandparent
      with a black other child. */
  predicate Outer<E>(up: Ctx<E>, t: Tree<E>) {
    && IsRed(t) && !up.Top? && !up.red && !IsRed(up.sib)
    && Balanced(t.left) && Balanced(t.right) && BlackHeight(t.left) == BlackHeight(t.right)
    && (if up.InLeft? then IsRed(t.left) && !IsRed(t.right) else IsRed(t.right) && !IsRed(t.left))
    && Fits(up, BlackHeight(t.left))
  }

  /** Black uncle: after rotating an inner red child outwards, the pair is Outer. */
  lemma StraightenOk<E>(c: Ctx<E>, t: Tree<E>)
    requires Unsettled(c, t) && CtxRed(c) && !c.up.Top? && !IsRed(c.up.sib)
    ensures c.InLeft? && c.up.InLeft? ==> Outer(c.up, PlugOne(c, t))
    ensures c.InRight? && c.up.InRight? ==> Outer(c.up, PlugOne(c, t))
    ensures c.InRight? && c.up.InLeft? ==> Outer(c.up, RotatedLeft(PlugOne(c, t)))
    ensures c.InLeft? && c.up.InRight? ==> Outer(c.up, RotatedRight(PlugOne(c, t)))
    ensures c.InRight? ==> InOrder(Plug(c.up, RotatedLeft(PlugOne(c, t)))) == InOrder(Plug(c, t))
    ensures c.InLeft? ==> InOrder(Plug(c.up, RotatedRight(PlugOne(c, t)))) == InOrder(Plug(c, t))
  {
    ParentRed(c, t);
    if c.InRight? {
      RotatedOrder(c.sib, c.elem, true, t.left, t.elem, true, t.right);
      SameOrder(c.up, RotatedLeft(PlugOne(c, t)), PlugOne(c, t));
    } else {
      RotatedOrder(t.left, t.elem, true, t.right, c.elem, true, c.sib);
      SameOrder(c.up, RotatedRight(PlugOne(c, t)), PlugOne(c, t));
    }
  }

  /** The red pair on the outside: colour and rotate at the grandparent. */
  lemma FinishOk<E>(up: Ctx<E>, t: Tree<E>)
    requires Outer(up, t)
    ensures up.InLeft? ==>
      var c := InLeft(up.up, t.elem, false, Node(t.right, up.elem, true, up.sib));
      Unsettled(c, t.left) && InOrder(Plug(c, t.left)) == InOrder(Plug(up, t))
    ensures up.InRight? ==>
      var c := InRight(up.up, Node(up.sib, up.elem, true, t.left), t.elem, false);
      Unsettled(c, t.right) && InOrder(Plug(c, t.right)) == InOrder(Plug(up, t))
  {
    var Node(l, p, _, r) := t;
    if up.InLeft? {
      RotatedOrder(l, p, false, r, up.elem, true, up.sib);
      SameOrder(up.up, Node(l, p, false, Node(r, up.elem, true, up.sib)), Node(t, up.elem, false, up.sib));
    } else {
      RotatedOrder(up.sib, up.elem, true, l, p, false, r);
      SameOrder(up.up, Node(Node(up.sib, up.elem, true, l), p, false, r), Node(up.sib, up.elem, false, t));
    }
  }

  // Removal ----------------------------------------------------------------

  /** The tree in the hole is one black node too low; balanced, but for a red
      root with a red child. */
  predicate Short<E>(c: Ctx<E>, t: Tree<E>) {
    Balanced(Blacken(t)) && Fits(c, BlackHeight(t) + 1)
  }

  /** Once the root of the tree in the hole is black, the whole is red-black. */
  predicate Settled<E>(c: Ctx<E>, t: Tree<E>) {
    Balanced(Blacken(t)) && Fits(c, BlackHeight(Blacken(t)))
  }

  lemma SettledBlack<E>(c: Ctx<E>, t: Tree<E>)
    requires Settled(c, t)
    ensures RedBlack(Plug(c, Blacken(t))) && InOrder(Plug(c, Blacken(t))) == InOrder(Plug(c, t))
  {
    PlugBalanced(c, Blacken(t));
    SameOrder(c, Blacken(t), t);
  }

  /** Short of a red root, or at the top: blackening the root repairs the tree. */
  lemma ShortDone<E>(c: Ctx<E>, t: Tree<E>)
    requires Short(c, t) && (IsRed(t) || c.Top?)
    ensures Settled(c, t)
  {
  }

  /** The sibling of a tree that is short is a node. */
  lemma ShortSibling<E>(c: Ctx<E>, t: Tree<E>)
    requires Short(c, t) && !c.Top? && !IsRed(t)
    ensures c.sib.Node? && Balanced(c.sib) && BlackHeight(c.sib) == BlackHeight(t) + 1 && Balanced(t)
    ensures c.sib.red ==> c.sib.left.Node? && c.sib.right.Node? && !c.sib.left.red && !c.sib.right.red && !c.red
  {
  }

  /** A red sibling rotated above the parent leaves a black sibling. */
  lemma RedSiblingOk<E>(c: Ctx<E>, t: Tree<E>)
    requires Short(c, t) && !c.Top? && !IsRed(t) && IsRed(c.sib)
    ensures c.InLeft? ==>
      var c' := InLeft(InLeft(c.up, c.sib.elem, false, c.sib.right), c.elem, true, c.sib.left);
      Short(c', t) && !IsRed(c'.sib) && InOrder(Plug(c', t)) == InOrder(Plug(c, t))
    ensures c.InRight? ==>
      var c' := InRight(InRight(c.up, c.sib.left, c.sib.elem, false), c.sib.right, c.elem, true);
      Short(c', t) && !IsRed(c'.sib) && InOrder(Plug(c', t)) == InOrder(Plug(c, t))
  {
    ShortSibling(c, t);
    var Node(l, s, _, r) := c.sib;
    if c.InLeft? {
      RotatedOrder(t, c.elem, true, l, s, false, r);
      SameOrder(c.up, Node(Node(t, c.elem, true, l), s, false, r), Node(t, c.elem, false, c.sib));
    } else {
      RotatedOrder(l, s, false, r, c.elem, true, t);
      SameOrder(c.up, Node(l, s, false, Node(r, c.elem, true, t)), Node(c.sib, c.elem, false, t));
    }
  }

  /** Black nephews: a red sibling makes the whole subtree short instead. */
  lemma RedSiblingUp<E>(c: Ctx<E>, t: Tree<E>)
    requires Short(c, t) && !c.Top? && !IsRed(t) && !IsRed(c.sib)
    ensures c.sib.Node?
    ensures !IsRed(c.sib.left) && !IsRed(c.sib.right) ==>
      var t' := PlugOne(WithSibling(c, c.sib.(red := true)), t);
      Short(c.up, t') && InOrder(Plug(c.up, t')) == InOrder(Plug(c, t))
  {
    ShortSibling(c, t);
    if !IsRed(c.sib.left) && !IsRed(c.sib.right) {
      SameOrder(c.up, PlugOne(WithSibling(c, c.sib.(red := true)), t), PlugOne(c, t));
    }
  }

  /** The sibling is black, its child far from the hole red. */
  predicate FarRed<E>(c: Ctx<E>, t: Tree<E>) {
    && Short(c, t) && !c.Top? && !IsRed(t) && c.sib.Node? && !c.sib.red
    && IsRed(if c.InLeft? then c.sib.right else c.sib.left)
  }

  /** Only the near nephew red: rotated above the sibling it makes the far one red. */
  lemma NearRedOk<E>(c: Ctx<E>, t: Tree<E>)
    requires Short(c, t) && !c.Top? && !IsRed(t) && c.sib.Node? && !c.sib.red
    requires var (near, far) := if c.InLeft? then (c.sib.left, c.sib.right) else (c.sib.right, c.sib.left);
      IsRed(near) && !IsRed(far)
    ensures c.InLeft? ==>
      var s := c.sib.(red := true, left := c.sib.left.(red := false));
      FarRed(WithSibling(c, RotatedRight(s)), t) && InOrder(Plug(WithSibling(c, RotatedRight(s)), t)) == InOrder(Plug(c, t))
    ensures c.InRight? ==>
      var s := c.sib.(red := true, right := c.sib.right.(red := false));
      FarRed(WithSibling(c, RotatedLeft(s)), t) && InOrder(Plug(WithSibling(c, RotatedLeft(s)), t)) == InOrder(Plug(c, t))
  {
    ShortSibling(c, t);
    var Node(l, s, _, r) := c.sib;
    if c.InLeft? {
      RotatedOrder(l.left, l.elem, false, l.right, s, true, r);
      var sib := RotatedRight(c.sib.(red := true, left := l.(red := false)));
      assert InOrder(sib) == InOrder(c.sib);
      SameOrder(c.up, Node(t, c.elem, c.red, sib), Node(t, c.elem, c.red, c.sib));
    } else {
      RotatedOrder(l, s, true, r.left, r.elem, false, r.right);
      var sib := RotatedLeft(c.sib.(red := true, right := r.(red := false)));
      assert InOrder(sib) == InOrder(c.sib);
      SameOrder(c.up, Node(sib, c.elem, c.red, t), Node(c.sib, c.elem, c.red, t));
    }
  }

  /** Red far nephew: one more rotation at the parent settles everything. */
  lemma FarRedOk<E>(c: Ctx<E>, t: Tree<E>)
    requires FarRed(c, t)
    ensures c.InLeft? ==>
      var t' := Node(Node(t, c.elem, false, c.sib.left), c.sib.elem, c.red, c.sib.right.(red := false));
      RedBlack(Plug(c.up, t')) && InOrder(Plug(c.up, t')) == InOrder(Plug(c, t))
    ensures c.InRight? ==>
      var t' := Node(c.sib.left.(red := false), c.sib.elem, c.red, Node(c.sib.right, c.elem, false, t));
      RedBlack(Plug(c.up, t')) && InOrder(Plug(c.up, t')) == InOrder(Plug(c, t))
  {
    ShortSibling(c, t);
    var Node(l, s, _, r) := c.sib;
    if c.InLeft? {
      var t' := Node(Node(t, c.elem, false, l), s, c.red, r.(red := false));
      assert InOrder(r.(red := false)) == InOrder(r);
      RotatedOrder(t, c.elem, false, l, s, c.red, r.(red := false));
      SameOrder(c.up, t', Node(t, c.elem, c.red, c.sib));
      PlugBalanced(c.up, t');
    } else {
      var t' := Node(l.(red := false), s, c.red, Node(r, c.elem, false, t));
      assert InOrder(l.(red := false)) == InOrder(l);
      RotatedOrder(l.(red := false), s, c.red, r, c.elem, false, t);
      SameOrder(c.up, t', Node(c.sib, c.elem, c.red, t));
      PlugBalanced(c.up, t');
    }
  }

  lemma FarRedIs<E>(c: Ctx<E>, t: Tree<E>)
    requires Short(c, t) && !c.Top? && !IsRed(t) && c.sib.Node? && !c.sib.red
    ensures FarRed(c, t) <==> IsRed(if c.InLeft? then c.sib.right else c.sib.left)
  {
  }

  lemma TopSettled<E>(t: Tree<E>)
    requires RedBlack(t)
    ensures Settled(Top, t)
  {
  }

  /** How far a repair can still climb: not at all from a red root. */
  function Climb<E>(c: Ctx<E>, t: Tree<E>): nat {
    if IsRed(t) then 0 else Depth(c) + 1
  }

  /** The hole of `d` inside a tree that sits in the hole of `c`. */
  function Compose<E>(d: Ctx<E>, c: Ctx<E>): Ctx<E> {
    match d
    case Top => c
    case InLeft(up, e, red, sib) => InLeft(Compose(up, c), e, red, sib)
    case InRight(up, sib, e, red) => InRight(Compose(up, c), sib, e, red)
  }

  /** The hole is at the left end. */
  predicate Leftmost<E>(d: Ctx<E>) {
    d.Top? || (d.InLeft? && Leftmost(d.up))
  }

  lemma {:induction false} LeftmostBefore<E>(d: Ctx<E>)
    requires Leftmost(d)
    ensures Before(d) == []
    decreases d
  {
    if d.InLeft? { LeftmostBefore(d.up); }
  }

  lemma {:induction false} PlugCompose<E>(d: Ctx<E>, c: Ctx<E>, t: Tree<E>)
    ensures Plug(Compose(d, c), t) == Plug(c, Plug(d, t))
    decreases d
  {
    match d
    case Top =>
    case InLeft(up, e, red, sib) => PlugCompose(up, c, Node(t, e, red, sib));
    case InRight(up, sib, e, red) => PlugCompose(up, c, Node(sib, e, red, t));
  }

  /** Balance does not look at the elements. */
  lemma {:induction false} FitsOther<E>(d: Ctx<E>, c: Ctx<E>, sib: Tree<E>, e: E, e': E, red: bool, h: nat)
    requires Fits(Compose(d, InRight(c, sib, e, red)), h)
    ensures Fits(Compose(d, InRight(c, sib, e', red)), h)
    ensures CtxRed(Compose(d, InRight(c, sib, e', red))) == CtxRed(Compose(d, InRight(c, sib, e, red)))
    decreases d
  {
    if !d.Top? {
      FitsOther(d.up, c, sib, e, e', red, h + if d.red then 0 else 1);
    }
  }

  /** What is left of a node with at most one child. */
  function Remains<E>(t: Tree<E>): Tree<E>
    requires t.Node?
  {
    if t.left.Leaf? then t.right else t.left
  }

  /** Unlinking a node with at most one child: nothing is lost if it was red,
      otherwise its place is short. */
  lemma UnlinkOk<E>(c: Ctx<E>, t: Tree<E>)
    requires RedBlack(Plug(c, t)) && t.Node? && (t.left.Leaf? || t.right.Leaf?)
    ensures Balanced(Remains(t)) && Fits(c, BlackHeight(Remains(t)) + if t.red then 0 else 1)
    ensures t.red ==> !IsRed(Remains(t))
  {
    UnplugBalanced(c, t);
  }

  /** The contents once the root of the tree in the hole is gone. */
  function Without<E>(c: Ctx<E>, t: Tree<E>): seq<E>
    requires t.Node?
  {
    Before(c) + InOrder(t.left) + (InOrder(t.right) + After(c))
  }

  lemma UnlinkOrder<E>(c: Ctx<E>, t: Tree<E>)
    requires t.Node? && (t.left.Leaf? || t.right.Leaf?)
    ensures InOrder(Plug(c, Remains(t))) == Without(c, t)
  {
    InOrderPlug(c, Remains(t));
    var b, s, a := Before(c), InOrder(Remains(t)), After(c);
    if t.left.Leaf? {
      assert b + s + a == b + [] + (s + a);
    } else {
      assert b + s + a == b + s + ([] + a);
    }
  }

  /** Removing the successor `m` of `e` from below it and putting it in the
      place of `e` removes `e`. */
  lemma SuccessorOrder<E>(d: Ctx<E>, c: Ctx<E>, t: Tree<E>, u: Tree<E>)
    requires t.Node? && u.Node? && u.left.Leaf? && Leftmost(d) && t.right == Plug(d, u)
    ensures InOrder(Plug(Compose(d, InRight(c, t.left, u.elem, t.red)), u.right)) == Without(c, t)
  {
    hide InOrder, Before, After, Plug, Compose;
    LeftEnd(d, u);
    PlugCompose(d, InRight(c, t.left, u.elem, t.red), u.right);
    var t' := Node(t.left, u.elem, t.red, Plug(d, u.right));
    PlugRight(c, t.left, u.elem, t.red, Plug(d, u.right));
    InOrderPlug(c, t');
    NodeOrder(t');
    Regroup'(Before(c), InOrder(t.left), u.elem, InOrder(u.right) + After(d), After(c));
  }

  lemma PlugRight<E>(c: Ctx<E>, sib: Tree<E>, e: E, red: bool, t: Tree<E>)
    ensures Plug(InRight(c, sib, e, red), t) == Plug(c, Node(sib, e, red, t))
  {
  }

  lemma LeftEnd<E>(d: Ctx<E>, u: Tree<E>)
    requires u.Node? && u.left.Leaf? && Leftmost(d)
    ensures InOrder(Plug(d, u.right)) == InOrder(u.right) + After(d)
    ensures InOrder(Plug(d, u)) == [u.elem] + (InOrder(u.right) + After(d))
  {
    hide InOrder, Before, After, Plug;
    LeftmostBefore(d);
    InOrderPlug(d, u);
    InOrderPlug(d, u.right);
    NodeOrder(u);
    LeafOrder(u.left);
    Prepend(u.elem, InOrder(u.right), After(d));
  }

  lemma LeafOrder<E>(t: Tree<E>)
    ensures t.Leaf? ==> InOrder(t) == []
  {
  }

  lemma Prepend<E>(e: E, r: seq<E>, a: seq<E>)
    ensures [] + ([] + [e] + r) + a == [e] + (r + a) && [] + r + a == r + a
  {
  }

  lemma WithoutIs<E>(c: Ctx<E>, t: Tree<E>)
    requires t.Node?
    ensures var order, i := InOrder(Plug(c, t)), |Before(c)| + |InOrder(t.left)|;
            0 <= i < |order| && order[i] == t.elem && Without(c, t) == order[..i] + order[i + 1..]
  {
    hide InOrder, Before, After, Plug;
    InOrderPlug(c, t);
    NodeOrder(t);
    var b, l, r, a := Before(c), InOrder(t.left), InOrder(t.right), After(c);
    Regroup'(b, l, t.elem, r, a);
    SplitAt(b + l, t.elem, r + a);
  }

  lemma NodeOrder<E>(t: Tree<E>)
    requires t.Node?
    ensures InOrder(t) == InOrder(t.left) + [t.elem] + InOrder(t.right)
    ensures Without(Top, t) == InOrder(t.left) + InOrder(t.right)
  {
  }

  lemma Regroup'<E>(b: seq<E>, l: seq<E>, e: E, r: seq<E>, a: seq<E>)
    ensures b + (l + [e] + r) + a == (b + l) + [e] + (r + a) == b + l + ([e] + r + a)
  {
    assert b + (l + [e] + r) == b + l + [e] + r;
  }

  lemma SplitAt<E>(x: seq<E>, e: E, y: seq<E>)
    ensures var s := x + [e] + y;
            |x| < |s| && s[|x|] == e && s[..|x|] == x && s[|x| + 1..] == y
  {
  }

  lemma Removed<E>(c: Ctx<E>, t: Tree<E>, red: bool)
    requires Balanced(t) && Fits(c, BlackHeight(t) + if red then 0 else 1) && (red ==> !IsRed(t))
    ensures if red then RedBlack(Plug(c, t)) else Short(c, t)
  {
    if red { PlugBalanced(c, t); }
  }

  lemma SuccessorBalance<E>(d: Ctx<E>, c: Ctx<E>, t: Tree<E>, u: Tree<E>)
    requires RedBlack(Plug(c, t)) && t.Node? && u.Node? && u.left.Leaf? && t.right == Plug(d, u)
    ensures Balanced(u.right) && (u.red ==> !IsRed(u.right))
    ensures Fits(Compose(d, InRight(c, t.left, u.elem, t.red)), BlackHeight(u.right) + if u.red then 0 else 1)
  {
    hide Fits;
    var k := InRight(c, t.left, t.elem, t.red);
    PlugCompose(d, k, u);
    UnlinkOk(Compose(d, k), u);
    FitsOther(d, c, t.left, t.elem, u.elem, t.red, BlackHeight(u.right) + if u.red then 0 else 1);
  }
}
