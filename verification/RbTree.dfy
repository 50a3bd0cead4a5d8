/** The parent-pointer red-black tree of the kernel, on heap nodes. */
module RbTree {
  import opened RbShape

  class RbEntry {
    const key: int
    var left: RbEntry?
    var right: RbEntry?
    var parent: RbEntry?
    var red: bool

    constructor (key: int)
      ensures this.key == key
    {
      this.key := key;
      left, right, parent, red := null, null, null, false;
    }
  }

  type Shape = Tree<RbEntry>
  type Hole = Ctx<RbEntry>

  ghost function Nodes(t: Shape): set<RbEntry> {
    match t
    case Leaf => {}
    case Node(l, e, _, r) => Nodes(l) + {e} + Nodes(r)
  }

  ghost function HoleNodes(c: Hole): set<RbEntry> {
    match c
    case Top => {}
    case InLeft(up, e, _, sib) => HoleNodes(up) + {e} + Nodes(sib)
    case InRight(up, sib, e, _) => HoleNodes(up) + {e} + Nodes(sib)
  }

  /** No node occurs twice. */
  ghost predicate Apart(t: Shape) {
    match t
    case Leaf => true
    case Node(l, e, _, r) =>
      Apart(l) && Apart(r) && e !in Nodes(l) && e !in Nodes(r) && Nodes(l) !! Nodes(r)
  }

  ghost predicate HoleApart(c: Hole) {
    match c
    case Top => true
    case InLeft(up, e, _, sib) =>
      HoleApart(up) && Apart(sib) && e !in HoleNodes(up) && e !in Nodes(sib) && HoleNodes(up) !! Nodes(sib)
    case InRight(up, sib, e, _) =>
      HoleApart(up) && Apart(sib) && e !in HoleNodes(up) && e !in Nodes(sib) && HoleNodes(up) !! Nodes(sib)
  }

  /** The heap below `n`, whose parent is `p`, has the shape `t`. */
  ghost predicate Rep(t: Shape, n: RbEntry?, p: RbEntry?)
    reads Nodes(t)
  {
    match t
    case Leaf => n == null
    case Node(l, e, red, r) =>
      n == e && e.parent == p && e.red == red && Rep(l, e.left, e) && Rep(r, e.right, e)
  }

  /** The heap around child `n` of `p` has the shape `c`, up to `root`, whose
      parent is `above`. */
  ghost predicate HoleRep(c: Hole, n: RbEntry?, p: RbEntry?, root: RbEntry?, above: RbEntry?)
    reads HoleNodes(c)
  {
    match c
    case Top => n == root && p == above
    case InLeft(up, e, red, sib) =>
      p == e && e.left == n && e.red == red && Rep(sib, e.right, e) && HoleRep(up, e, e.parent, root, above)
    case InRight(up, sib, e, red) =>
      p == e && e.right == n && e.red == red && Rep(sib, e.left, e) && HoleRep(up, e, e.parent, root, above)
  }

  /** The whole tree, seen from subtree `t` at node `n` with parent `p`. */
  ghost predicate At(c: Hole, t: Shape, n: RbEntry?, p: RbEntry?, root: RbEntry?)
    reads HoleNodes(c), Nodes(t)
  {
    && HoleRep(c, n, p, root, null) && Rep(t, n, p)
    && HoleApart(c) && Apart(t) && HoleNodes(c) !! Nodes(t)
  }

  class RbRoot {
    var root: RbEntry?
    ghost var shape: Shape  // the tree the pointers form

    ghost predicate Valid()
      reads this, Nodes(shape)
    {
      At(Top, shape, root, null, root) && RedBlack(shape) && Sorted(InOrder(shape))
    }

    /** The nodes of the tree in key order. */
    ghost function Order(): seq<RbEntry>
      reads this
    {
      InOrder(shape)
    }

    constructor ()
      ensures Valid() && Order() == []
    {
      root := null;
      shape := Leaf;
    }

    /** Point the child pointer of `parent` (or the root) that holds `x` at `y`. */
    method ReplaceChild(parent: RbEntry?, x: RbEntry, y: RbEntry?, ghost c: Hole)
      requires HoleRep(c, x, parent, root, null) && HoleApart(c) && x !in HoleNodes(c)
      modifies this`root, if parent == null then {} else {parent}
      ensures HoleRep(c, y, parent, root, null)
      ensures parent != null ==> root == old(root) && parent.parent == old(parent.parent) && parent.red == old(parent.red)
    {
      if parent != null {
        ghost var up := c.up;
        SiblingNotHole(c, x, parent, root, null);
        if x == parent.left {
          parent.left := y;
        } else {
          parent.right := y;
        }
      } else {
        TopHole(c, x, root);
        root := y;
      }
    }

    /** The first half of a rotation: node `y` moves up into the place of its
        parent `x`, whose child it stops being. */
    method MoveUp(y: RbEntry, x: RbEntry, ghost c: Hole)
      requires HoleRep(c, x, x.parent, root, null) && HoleApart(c) && x !in HoleNodes(c) && y !in HoleNodes(c) && y != x
      modifies this`root, y`parent, if x.parent == null then {} else {x.parent}
      ensures HoleRep(c, y, x.parent, root, null) && y.parent == x.parent == old(x.parent)
      ensures x.left == old(x.left) && x.right == old(x.right) && x.red == old(x.red)
      ensures y.left == old(y.left) && y.right == old(y.right) && y.red == old(y.red)
    {
      ghost var s := HoleNodeSet(c);
      ParentInHole(c, x, x.parent, root);
      var parent := x.parent;
      y.parent := parent;
      ReplaceChild(parent, x, y, c);
    }

    /** `rbe_rotate_left`, with the shape around it. */
    method RotateLeft(x: RbEntry, ghost c: Hole, ghost t: Shape)
      requires t.Node? && t.elem == x && t.right.Node?
      requires At(c, t, x, x.parent, root)
      modifies this`root, HoleNodes(c), Nodes(t)
      ensures At(c, RotatedLeft(t), t.right.elem, old(x.parent), root)
      ensures Nodes(RotatedLeft(t)) == Nodes(t)
    {
      hide HoleApart;
      ghost var Node(a, _, cx, Node(b, y, cy, d)) := t;
      assert Rep(t.right, x.right, x);
      ParentInHole(c, x, x.parent, root);
      RotateFrame(a, x, cx, b, y, cy, d, HoleNodes(c), x.parent);
      RotatedApart(a, x, cx, b, y, cy, d);
      BelowRoot(b, y.left, y);
      assert x.parent != null ==> x.parent in HoleNodes(c);
      LinkLeft(x, c, a, b, y, d);
      assert Rep(Node(a, x, cx, b), x, y);
    }

    /** `rbe_rotate_left`: the pointer updates. */
    method LinkLeft(x: RbEntry, ghost c: Hole, ghost a: Shape, ghost b: Shape, ghost y: RbEntry, ghost d: Shape)
      requires x.right == y && HoleRep(c, x, x.parent, root, null) && HoleApart(c)
      requires Rep(a, x.left, x) && Rep(b, y.left, y) && Rep(d, y.right, y)
      requires Separate(a, x, b, y, d, HoleNodes(c), x.parent)
      modifies this`root, x, y, if x.parent == null then {} else {x.parent}, if y.left == null then {} else {y.left}
      ensures HoleRep(c, y, old(x.parent), root, null)
      ensures Rep(a, x.left, x) && Rep(b, x.right, x) && Rep(d, y.right, y)
      ensures x.parent == y && y.left == x && y.parent == old(x.parent) && x.red == old(x.red) && y.red == old(y.red)
    {
      hide Rep, HoleRep, Nodes, HoleNodes, Apart, HoleApart, Separate;
      var tmp := x.right;
      TakeInner(x, tmp, c, a, b, d);
      Lift(x, tmp, c, a, b, d);
    }

    /** The right child of `x` becomes the left child of `tmp`. */
    method TakeInner(x: RbEntry, tmp: RbEntry, ghost c: Hole, ghost a: Shape, ghost b: Shape, ghost d: Shape)
      requires HoleRep(c, x, x.parent, root, null)
      requires Rep(a, x.left, x) && Rep(b, tmp.left, tmp) && Rep(d, tmp.right, tmp)
      requires Separate(a, x, b, tmp, d, HoleNodes(c), x.parent)
      modifies x, if tmp.left == null then {} else {tmp.left}
      ensures HoleRep(c, x, x.parent, root, null)
      ensures Rep(a, x.left, x) && Rep(b, x.right, x) && Rep(d, tmp.right, tmp)
      ensures x.parent == old(x.parent) && x.red == old(x.red) && tmp.red == old(tmp.red)
    {
      ghost var sa := NodeSet(a);
      ghost var sd := NodeSet(d);
      ghost var sc := HoleNodeSet(c);
      BelowRoot(b, tmp.left, tmp);
      hide Rep, HoleRep, Nodes, HoleNodes, Apart, HoleApart;
      x.right := tmp.left;
      if x.right != null {
        SetParent(tmp.left, x, b);
      }
    }

    /** `tmp` takes the place of `x`, and `x` becomes its left child. */
    method Lift(x: RbEntry, tmp: RbEntry, ghost c: Hole, ghost a: Shape, ghost b: Shape, ghost d: Shape)
      requires HoleRep(c, x, x.parent, root, null) && HoleApart(c)
      requires Rep(a, x.left, x) && Rep(b, x.right, x) && Rep(d, tmp.right, tmp)
      requires Separate(a, x, b, tmp, d, HoleNodes(c), x.parent)
      modifies this`root, tmp, x, if x.parent == null then {} else {x.parent}
      ensures HoleRep(c, tmp, old(x.parent), root, null) && tmp.parent == old(x.parent)
      ensures Rep(a, x.left, x) && Rep(b, x.right, x) && Rep(d, tmp.right, tmp)
      ensures x.parent == tmp && tmp.left == x && x.red == old(x.red) && tmp.red == old(tmp.red)
    {
      ghost var sa := NodeSet(a);
      ghost var sb := NodeSet(b);
      ghost var sd := NodeSet(d);
      ghost var sc := HoleNodeSet(c);
      hide Rep, HoleRep, Nodes, HoleNodes, Apart, HoleApart;
      MoveUp(tmp, x, c);
      tmp.left := x;
      x.parent := tmp;
    }

    /** `rbe_rotate_right`, with the shape around it. */
    method RotateRight(x: RbEntry, ghost c: Hole, ghost t: Shape)
      requires t.Node? && t.elem == x && t.left.Node?
      requires At(c, t, x, x.parent, root)
      modifies this`root, HoleNodes(c), Nodes(t)
      ensures At(c, RotatedRight(t), t.left.elem, old(x.parent), root)
      ensures Nodes(RotatedRight(t)) == Nodes(t)
    {
      hide HoleApart;
      ghost var Node(Node(a, y, cy, b), _, cx, d) := t;
      assert Rep(t.left, x.left, x);
      ParentInHole(c, x, x.parent, root);
      RotatedApart(a, y, cy, b, x, cx, d);
      RotateFrame'(a, y, cy, b, x, cx, d, HoleNodes(c), x.parent);
      BelowRoot(b, y.right, y);
      assert x.parent != null ==> x.parent in HoleNodes(c);
      LinkRight(x, c, a, b, y, d);
      assert Rep(Node(b, x, cx, d), x, y);
    }

    /** `rbe_rotate_right`: the pointer updates. */
    method LinkRight(x: RbEntry, ghost c: Hole, ghost a: Shape, ghost b: Shape, ghost y: RbEntry, ghost d: Shape)
      requires x.left == y && HoleRep(c, x, x.parent, root, null) && HoleApart(c)
      requires Rep(d, x.right, x) && Rep(b, y.right, y) && Rep(a, y.left, y)
      requires Separate(d, x, b, y, a, HoleNodes(c), x.parent)
      modifies this`root, x, y, if x.parent == null then {} else {x.parent}, if y.right == null then {} else {y.right}
      ensures HoleRep(c, y, old(x.parent), root, null)
      ensures Rep(d, x.right, x) && Rep(b, x.left, x) && Rep(a, y.left, y)
      ensures x.parent == y && y.right == x && y.parent == old(x.parent) && x.red == old(x.red) && y.red == old(y.red)
    {
      hide Rep, HoleRep, Nodes, HoleNodes, Apart, HoleApart, Separate;
      var tmp := x.left;
      TakeInnerRight(x, tmp, c, a, b, d);
      LiftRight(x, tmp, c, a, b, d);
    }

    /** The left child of `x` becomes the right child of `tmp`. */
    method TakeInnerRight(x: RbEntry, tmp: RbEntry, ghost c: Hole, ghost a: Shape, ghost b: Shape, ghost d: Shape)
      requires HoleRep(c, x, x.parent, root, null)
      requires Rep(d, x.right, x) && Rep(b, tmp.right, tmp) && Rep(a, tmp.left, tmp)
      requires Separate(d, x, b, tmp, a, HoleNodes(c), x.parent)
      modifies x, if tmp.right == null then {} else {tmp.right}
      ensures HoleRep(c, x, x.parent, root, null)
      ensures Rep(d, x.right, x) && Rep(b, x.left, x) && Rep(a, tmp.left, tmp)
      ensures x.parent == old(x.parent) && x.red == old(x.red) && tmp.red == old(tmp.red)
    {
      ghost var sa := NodeSet(a);
      ghost var sd := NodeSet(d);
      ghost var sc := HoleNodeSet(c);
      BelowRoot(b, tmp.right, tmp);
      hide Rep, HoleRep, Nodes, HoleNodes, Apart, HoleApart;
      x.left := tmp.right;
      if x.left != null {
        SetParent(tmp.right, x, b);
      }
    }

    /** `tmp` takes the place of `x`, and `x` becomes its right child. */
    method LiftRight(x: RbEntry, tmp: RbEntry, ghost c: Hole, ghost a: Shape, ghost b: Shape, ghost d: Shape)
      requires HoleRep(c, x, x.parent, root, null) && HoleApart(c)
      requires Rep(d, x.right, x) && Rep(b, x.left, x) && Rep(a, tmp.left, tmp)
      requires Separate(d, x, b, tmp, a, HoleNodes(c), x.parent)
      modifies this`root, tmp, x, if x.parent == null then {} else {x.parent}
      ensures HoleRep(c, tmp, old(x.parent), root, null) && tmp.parent == old(x.parent)
      ensures Rep(d, x.right, x) && Rep(b, x.left, x) && Rep(a, tmp.left, tmp)
      ensures x.parent == tmp && tmp.right == x && x.red == old(x.red) && tmp.red == old(tmp.red)
    {
      ghost var sa := NodeSet(a);
      ghost var sb := NodeSet(b);
      ghost var sd := NodeSet(d);
      ghost var sc := HoleNodeSet(c);
      hide Rep, HoleRep, Nodes, HoleNodes, Apart, HoleApart;
      MoveUp(tmp, x, c);
      tmp.right := x;
      x.parent := tmp;
    }

    // Insertion ------------------------------------------------------------

    /** Colour the node in focus. */
    method Paint(n: RbEntry, red: bool, ghost c: Hole, ghost t: Shape)
      requires t.Node? && t.elem == n && At(c, t, n, n.parent, root)
      modifies n`red
      ensures At(c, t.(red := red), n, n.parent, root) && Nodes(t.(red := red)) == Nodes(t)
    {
      n.red := red;
    }

    /** Colour the parent of the focus. */
    method PaintParent(p: RbEntry, red: bool, ghost n: RbEntry?, ghost c: Hole, ghost t: Shape)
      requires At(c, t, n, p, root)
      modifies p`red
      ensures !c.Top? && At(c.(red := red), t, n, p, root) && HoleNodes(c.(red := red)) == HoleNodes(c)
    {
      p.red := red;
    }

    /** Red uncle on the right: parent and uncle become black, the grandparent
        `g` red. */
    method RecolourRight(g: RbEntry, uncle: RbEntry, parent: RbEntry, ghost c: Hole, ghost t: Shape)
      requires At(c, t, g, g.parent, root) && t.Node? && t.left.Node? && t.right.Node?
      requires uncle == g.right && parent == g.left
      modifies g`red, uncle`red, parent`red
      ensures At(c, Flipped(t), g, g.parent, root) && Nodes(Flipped(t)) == Nodes(t)
    {
      ghost var s := Flipped(t);
      FocusRight(c, t, g, g.parent, root);
      BelowRoot(t.right, uncle, g);
      ghost var up := InRight(c, t.left, g, t.red);
      hide At;
      Paint(uncle, false, up, t.right);
      FocusUp(up, s.right, uncle, g, root);
      FocusLeft(c, Node(t.left, g, t.red, s.right), g, g.parent, root);
      up := InLeft(c, g, t.red, s.right);
      Paint(parent, false, up, t.left);
      FocusUp(up, s.left, parent, g, root);
      Paint(g, true, c, Node(s.left, g, t.red, s.right));
    }

    /** Red uncle on the left. */
    method RecolourLeft(g: RbEntry, uncle: RbEntry, parent: RbEntry, ghost c: Hole, ghost t: Shape)
      requires At(c, t, g, g.parent, root) && t.Node? && t.left.Node? && t.right.Node?
      requires uncle == g.left && parent == g.right
      modifies g`red, uncle`red, parent`red
      ensures At(c, Flipped(t), g, g.parent, root) && Nodes(Flipped(t)) == Nodes(t)
    {
      ghost var s := Flipped(t);
      FocusLeft(c, t, g, g.parent, root);
      BelowRoot(t.left, uncle, g);
      ghost var up := InLeft(c, g, t.red, t.right);
      hide At;
      Paint(uncle, false, up, t.left);
      FocusUp(up, s.left, uncle, g, root);
      FocusRight(c, Node(s.left, g, t.red, t.right), g, g.parent, root);
      up := InRight(c, s.left, g, t.red);
      Paint(parent, false, up, t.right);
      FocusUp(up, s.right, parent, g, root);
      Paint(g, true, c, Node(s.left, g, t.red, s.right));
    }

    /** Black uncle on the right, the red pair on the outside: colour and rotate. */
    method FinishLeft(parent: RbEntry, g: RbEntry, ghost up: Hole, ghost t: Shape)
      requires up.InLeft? && t.Node? && At(up, t, parent, g, root)
      modifies this`root, HoleNodes(up), Nodes(t)
      ensures At(up.up, Node(t.left, parent, false, Node(t.right, g, true, up.sib)), parent, parent.parent, root)
      ensures HoleNodes(up.up) + Nodes(Node(t.left, parent, false, Node(t.right, g, true, up.sib))) == HoleNodes(up) + Nodes(t)
    {
      FocusUp(up, t, parent, g, root);
      BelowRoot(t, parent, g);
      ghost var t1 := t.(red := false);
      hide At;
      Paint(parent, false, up, t);
      FocusUp(up, t1, parent, g, root);
      Paint(g, true, up.up, Node(t1, g, up.red, up.sib));
      RotateRight(g, up.up, Node(t1, g, true, up.sib));
    }

    method FinishRight(parent: RbEntry, g: RbEntry, ghost up: Hole, ghost t: Shape)
      requires up.InRight? && t.Node? && At(up, t, parent, g, root)
      modifies this`root, HoleNodes(up), Nodes(t)
      ensures At(up.up, Node(Node(up.sib, g, true, t.left), parent, false, t.right), parent, parent.parent, root)
      ensures HoleNodes(up.up) + Nodes(Node(Node(up.sib, g, true, t.left), parent, false, t.right)) == HoleNodes(up) + Nodes(t)
    {
      FocusUp(up, t, parent, g, root);
      BelowRoot(t, parent, g);
      ghost var t1 := t.(red := false);
      hide At;
      Paint(parent, false, up, t);
      FocusUp(up, t1, parent, g, root);
      Paint(g, true, up.up, Node(up.sib, g, up.red, t1));
      RotateLeft(g, up.up, Node(up.sib, g, true, t1));
    }

    /** One turn of `rbe_insert_color` with the parent a left child. */
    method InsertLeft(n: RbEntry, p: RbEntry, g: RbEntry, ghost c: Hole, ghost t: Shape)
      returns (rbe: RbEntry, ghost c': Hole, ghost t': Shape)
      requires At(c, t, n, p, root) && Unsettled(c, t) && CtxRed(c) && c.up.InLeft? && p.parent == g
      modifies this`root, HoleNodes(c), Nodes(t)
      ensures At(c', t', rbe, rbe.parent, root) && HoleNodes(c') + Nodes(t') == HoleNodes(c) + Nodes(t)
      ensures Unsettled(c', t') && Depth(c') < Depth(c)
      ensures InOrder(Plug(c', t')) == InOrder(Plug(c, t))
    {
      ghost var up, pt := c.up, PlugOne(c, t);
      FocusUp(c, t, n, p, root);
      FocusUp(up, pt, p, g, root);
      UncleOf(up, pt, p, g, root);
      hide Unsettled, Fits, Balanced, BlackHeight, At, Nodes, HoleNodes;
      var tmp := g.right;
      if tmp != null && tmp.red {
        RecolourOk(c, t);
        RecolourRight(g, tmp, p, up.up, PlugOne(up, pt));
        rbe, c', t' := g, up.up, Flipped(PlugOne(up, pt));
      } else {
        rbe, c', t' := InsertRotateLeft(n, p, g, c, t);
      }
    }

    method InsertRotateLeft(n: RbEntry, p: RbEntry, g: RbEntry, ghost c: Hole, ghost t: Shape)
      returns (rbe: RbEntry, ghost c': Hole, ghost t': Shape)
      requires At(c, t, n, p, root) && Unsettled(c, t) && CtxRed(c) && c.up.InLeft? && p.parent == g && !IsRed(c.up.sib)
      modifies this`root, HoleNodes(c), Nodes(t)
      ensures At(c', t', rbe, rbe.parent, root) && HoleNodes(c') + Nodes(t') == HoleNodes(c) + Nodes(t)
      ensures Unsettled(c', t') && Depth(c') < Depth(c)
      ensures InOrder(Plug(c', t')) == InOrder(Plug(c, t))
    {
      ghost var up, pt := c.up, PlugOne(c, t);
      StraightenOk(c, t);
      ChildSide(c, t, n, p, root);
      FocusUp(c, t, n, p, root);
      hide Unsettled, Fits, Balanced, BlackHeight, At, Nodes, HoleNodes;
      var parent := p;
      rbe := n;
      if parent.right == rbe {
        RotateLeft(parent, up, pt);
        pt := RotatedLeft(pt);
        parent, rbe := rbe, parent;
      }
      FinishOk(up, pt);
      FinishLeft(parent, g, up, pt);
      ghost var whole := Node(pt.left, parent, false, Node(pt.right, g, true, up.sib));
      FocusLeft(up.up, whole, parent, parent.parent, root);
      c', t' := InLeft(up.up, parent, false, whole.right), pt.left;
      RootAt(c', t', parent.left, parent, root);
    }

    /** One turn of `rbe_insert_color` with the parent a right child. */
    method InsertRight(n: RbEntry, p: RbEntry, g: RbEntry, ghost c: Hole, ghost t: Shape)
      returns (rbe: RbEntry, ghost c': Hole, ghost t': Shape)
      requires At(c, t, n, p, root) && Unsettled(c, t) && CtxRed(c) && c.up.InRight? && p.parent == g
      modifies this`root, HoleNodes(c), Nodes(t)
      ensures At(c', t', rbe, rbe.parent, root) && HoleNodes(c') + Nodes(t') == HoleNodes(c) + Nodes(t)
      ensures Unsettled(c', t') && Depth(c') < Depth(c)
      ensures InOrder(Plug(c', t')) == InOrder(Plug(c, t))
    {
      ghost var up, pt := c.up, PlugOne(c, t);
      FocusUp(c, t, n, p, root);
      FocusUp(up, pt, p, g, root);
      UncleOf(up, pt, p, g, root);
      hide Unsettled, Fits, Balanced, BlackHeight, At, Nodes, HoleNodes;
      var tmp := g.left;
      if tmp != null && tmp.red {
        RecolourOk(c, t);
        RecolourLeft(g, tmp, p, up.up, PlugOne(up, pt));
        rbe, c', t' := g, up.up, Flipped(PlugOne(up, pt));
      } else {
        rbe, c', t' := InsertRotateRight(n, p, g, c, t);
      }
    }

    method InsertRotateRight(n: RbEntry, p: RbEntry, g: RbEntry, ghost c: Hole, ghost t: Shape)
      returns (rbe: RbEntry, ghost c': Hole, ghost t': Shape)
      requires At(c, t, n, p, root) && Unsettled(c, t) && CtxRed(c) && c.up.InRight? && p.parent == g && !IsRed(c.up.sib)
      modifies this`root, HoleNodes(c), Nodes(t)
      ensures At(c', t', rbe, rbe.parent, root) && HoleNodes(c') + Nodes(t') == HoleNodes(c) + Nodes(t)
      ensures Unsettled(c', t') && Depth(c') < Depth(c)
      ensures InOrder(Plug(c', t')) == InOrder(Plug(c, t))
    {
      ghost var up, pt := c.up, PlugOne(c, t);
      StraightenOk(c, t);
      ChildSide(c, t, n, p, root);
      FocusUp(c, t, n, p, root);
      hide Unsettled, Fits, Balanced, BlackHeight, At, Nodes, HoleNodes;
      var parent := p;
      rbe := n;
      if parent.left == rbe {
        RotateRight(parent, up, pt);
        pt := RotatedRight(pt);
        parent, rbe := rbe, parent;
      }
      FinishOk(up, pt);
      FinishRight(parent, g, up, pt);
      ghost var whole := Node(Node(up.sib, g, true, pt.left), parent, false, pt.right);
      FocusRight(up.up, whole, parent, parent.parent, root);
      c', t' := InRight(up.up, whole.left, parent, false), pt.right;
      RootAt(c', t', parent.right, parent, root);
    }

    /** `rbe_insert_color`: repair the tree after the red node `n` was linked in. */
    method InsertColor(n: RbEntry, ghost c0: Hole, ghost t0: Shape) returns (ghost shape: Shape)
      requires At(c0, t0, n, n.parent, root) && Unsettled(c0, t0)
      modifies this`root, HoleNodes(c0), Nodes(t0)
      ensures At(Top, shape, root, null, root) && Nodes(shape) == HoleNodes(c0) + Nodes(t0)
      ensures RedBlack(shape) && InOrder(shape) == InOrder(Plug(c0, t0))
    {
      ghost var all := HoleNodes(c0) + Nodes(t0);
      var rbe := n;
      ghost var c, t := c0, t0;
      while rbe.parent != null && rbe.parent.red
        invariant At(c, t, rbe, rbe.parent, root) && Unsettled(c, t)
        invariant HoleNodes(c) + Nodes(t) == all
        invariant InOrder(Plug(c, t)) == InOrder(Plug(c0, t0))
        decreases Depth(c)
      {
        hide Unsettled, At, Nodes, HoleNodes;
        var parent := rbe.parent;
        RootAt(c, t, rbe, parent, root);
        ParentRed(c, t);
        FocusUp(c, t, rbe, parent, root);
        var gparent := parent.parent;
        RootAt(c.up, PlugOne(c, t), parent, gparent, root);
        ChildSide(c.up, PlugOne(c, t), parent, gparent, root);
        if parent == gparent.left {
          rbe, c, t := InsertLeft(rbe, parent, gparent, c, t);
        } else {
          rbe, c, t := InsertRight(rbe, parent, gparent, c, t);
        }
      }
      RootAt(c, t, rbe, rbe.parent, root);
      PlugBalanced(c, t);
      PlugNode(c, t);
      shape := PaintRoot(rbe, c, t);
    }

    /** The root becomes black. */
    method PaintRoot(ghost n: RbEntry?, ghost c: Hole, ghost t: Shape) returns (ghost shape: Shape)
      requires At(c, t, n, if n == null then null else n.parent, root) && Plug(c, t).Node?
      requires Balanced(Plug(c, t))
      modifies HoleNodes(c), Nodes(t)
      ensures At(Top, shape, root, null, root) && Nodes(shape) == HoleNodes(c) + Nodes(t)
      ensures RedBlack(shape) && InOrder(shape) == InOrder(Plug(c, t))
    {
      ghost var whole := Plug(c, t);
      FocusTop(c, t, n, if n == null then null else n.parent, root);
      RootAt(Top, whole, root, null, root);
      BlackenBalanced(whole);
      Paint(root, false, Top, whole);
      shape := Blacken(whole);
    }

    /** `_rb_insert`: link `elm` in unless its key is present. */
    method Insert(elm: RbEntry) returns (r: RbEntry?)
      requires Valid() && elm !in Nodes(shape)
      modifies this, elm, Nodes(shape)
      ensures Valid()
      ensures r != null ==> r in old(Order()) && r.key == elm.key && shape == old(shape)
      ensures r == null ==> Nodes(shape) == old(Nodes(shape)) + {elm}
      ensures r == null ==> exists i :: 0 <= i <= |old(Order())| && Order() == old(Order())[..i] + [elm] + old(Order())[i..]
      ensures forall e :: e in Order() <==> e in Nodes(shape)
    {
      hide Sorted, Below, Above, InOrder, Before, After;
      ghost var s := NodeSet(shape);
      ghost var order := Order();
      ghost var c, t;
      var parent;
      r, parent, c, t := Descend(elm.key);
      if r != null {
        InOrderNodes(shape);
        return;
      }
      FocusTop(c, t, null, parent, root);
      InsertedOrder(order, c, elm);
      shape := InsertAt(elm, parent, c);
      InOrderNodes(shape);
    }

    /** Linking `elm` in at an empty place, and the repair. */
    method InsertAt(elm: RbEntry, parent: RbEntry?, ghost c: Hole) returns (ghost shape: Shape)
      requires At(c, Leaf, null, parent, root) && elm !in HoleNodes(c) && RedBlack(Plug(c, Leaf))
      requires parent != null ==> (c.InLeft? <==> elm.key < parent.key)
      modifies this`root, elm, HoleNodes(c)
      ensures At(Top, shape, root, null, root) && Nodes(shape) == HoleNodes(c) + {elm}
      ensures RedBlack(shape) && InOrder(shape) == InOrder(Plug(c, Node(Leaf, elm, true, Leaf)))
    {
      hide InOrder;
      UnplugBalanced(c, Leaf);
      RootAt(c, Leaf, null, parent, root);
      LinkChild(elm, parent, c);
      shape := InsertColor(elm, c, Node(Leaf, elm, true, Leaf));
    }

    /** The walk down of `_rb_insert` and `_rb_find`: to the node with the key,
        or to the empty place where it belongs. */
    method Descend(key: int) returns (tmp: RbEntry?, parent: RbEntry?, ghost c: Hole, ghost t: Shape)
      requires Valid()
      ensures At(c, t, tmp, parent, root) && Plug(c, t) == shape
      ensures Below(Before(c), key) && Above(After(c), key)
      ensures tmp == null ==> t == Leaf && (parent != null ==> (c.InLeft? <==> key < parent.key))
      ensures tmp != null ==> tmp.key == key && tmp in Order()
    {
      tmp, parent := root, null;
      c, t := Top, shape;
      while tmp != null
        invariant At(c, t, tmp, parent, root) && Plug(c, t) == shape
        invariant Below(Before(c), key) && Above(After(c), key)
        invariant parent != null ==> !c.Top? && (c.InLeft? <==> key < parent.key)
        decreases t
      {
        hide At, RedBlack;
        RootAt(c, t, tmp, parent, root);
        DescentKeys(c, t, key);
        if key < tmp.key {
          FocusLeft(c, t, tmp, parent, root);
          c, t := InLeft(c, tmp, t.red, t.right), t.left;
          parent, tmp := tmp, tmp.left;
        } else if key > tmp.key {
          FocusRight(c, t, tmp, parent, root);
          c, t := InRight(c, t.left, tmp, t.red), t.right;
          parent, tmp := tmp, tmp.right;
        } else {
          InOrderPlug(c, t);
          return;
        }
      }
      RootAt(c, t, tmp, parent, root);
    }

    /** `_rb_find`. */
    method Find(key: int) returns (r: RbEntry?)
      requires Valid()
      ensures r != null ==> r in Order() && r.key == key
      ensures r == null ==> forall e :: e in Order() ==> e.key != key
    {
      ghost var parent, c, t;
      r, parent, c, t := Descend(key);
      if r == null { InOrderPlug(c, t); }
    }

    // Removal --------------------------------------------------------------

    /** Colour the sibling of the focus. */
    method PaintSibling(tmp: RbEntry, red: bool, ghost n: RbEntry?, ghost p: RbEntry, ghost c: Hole, ghost t: Shape)
      requires At(c, t, n, p, root) && !c.Top? && c.sib.Node? && tmp == c.sib.elem
      modifies tmp`red
      ensures var c' := WithSibling(c, c.sib.(red := red));
              At(c', t, n, p, root) && HoleNodes(c') == HoleNodes(c)
    {
      tmp.red := red;
    }

    /** Blacken a child of the sibling of the focus. */
    method BlackenNephew(m: RbEntry, ghost left: bool, ghost n: RbEntry?, ghost p: RbEntry, ghost c: Hole, ghost t: Shape)
      requires At(c, t, n, p, root) && !c.Top? && c.sib.Node?
      requires var sub := if left then c.sib.left else c.sib.right; sub.Node? && m == sub.elem
      modifies m`red
      ensures var sib' := if left then c.sib.(left := c.sib.left.(red := false)) else c.sib.(right := c.sib.right.(red := false));
              At(WithSibling(c, sib'), t, n, p, root) && HoleNodes(WithSibling(c, sib')) == HoleNodes(c)
    {
      hide At, Nodes, HoleNodes;
      RootAt(c, t, n, p, root);
      FocusAcross(c, t, n, p, root);
      ghost var sib := c.sib;
      ghost var k := if c.InLeft? then InRight(c.up, t, p, c.red) else InLeft(c.up, p, c.red, t);
      RootAt(k, sib, if c.InLeft? then p.right else p.left, p, root);
      ghost var tmp := sib.elem;
      FocusLeft(k, sib, tmp, p, root);
      FocusRight(k, sib, tmp, p, root);
      ghost var k1 := if left then InLeft(k, tmp, sib.red, sib.right) else InRight(k, sib.left, tmp, sib.red);
      ghost var sub := if left then sib.left else sib.right;
      RootAt(k1, sub, if left then tmp.left else tmp.right, tmp, root);
      Paint(m, false, k1, sub);
      ghost var sib' := if left then sib.(left := sub.(red := false)) else sib.(right := sub.(red := false));
      FocusUp(k1, sub.(red := false), m, tmp, root);
      RootAt(k, sib', tmp, p, root);
      FocusAcross(k, sib', tmp, p, root);
      RootAt(WithSibling(c, sib'), t, if c.InLeft? then p.left else p.right, p, root);
      WithSiblingNodes(c, sib');
    }

    /** The sibling is red: colour, rotate it above the parent. */
    method RedSiblingLeft(tmp: RbEntry, p: RbEntry, ghost n: RbEntry?, ghost c: Hole, ghost t: Shape)
      requires At(c, t, n, p, root) && c.InLeft? && c.sib.Node? && tmp == c.sib.elem
      modifies this`root, HoleNodes(c), Nodes(t)
      ensures var c' := InLeft(InLeft(c.up, tmp, false, c.sib.right), p, true, c.sib.left);
              At(c', t, n, p, root) && HoleNodes(c') + Nodes(t) == HoleNodes(c) + Nodes(t)
    {
      RootAt(c, t, n, p, root);
      SiblingIn(c);
      hide At, Nodes, HoleNodes;
      PaintSibling(tmp, false, n, p, c, t);
      ghost var sib := c.sib.(red := false);
      PaintParent(p, true, n, WithSibling(c, sib), t);
      FocusUp(InLeft(c.up, p, true, sib), t, n, p, root);
      RotateLeft(p, c.up, Node(t, p, true, sib));
      ghost var low := Node(t, p, true, sib.left);
      FocusLeft(c.up, Node(low, tmp, false, sib.right), tmp, tmp.parent, root);
      FocusLeft(InLeft(c.up, tmp, false, sib.right), low, p, tmp, root);
      RootAt(InLeft(InLeft(c.up, tmp, false, sib.right), p, true, sib.left), t, p.left, p, root);
    }

    /** Only the near nephew is red: colour, rotate it above the sibling. */
    method NearRedLeft(tmp: RbEntry, oleft: RbEntry, ghost n: RbEntry?, ghost p: RbEntry, ghost c: Hole, ghost t: Shape)
      requires At(c, t, n, p, root) && c.InLeft? && c.sib.Node? && tmp == c.sib.elem
      requires c.sib.left.Node? && oleft == c.sib.left.elem
      modifies this`root, HoleNodes(c), Nodes(t)
      ensures var c' := WithSibling(c, RotatedRight(c.sib.(red := true, left := c.sib.left.(red := false))));
              At(c', t, n, p, root) && HoleNodes(c') == HoleNodes(c)
    {
      RootAt(c, t, n, p, root);
      SiblingIn(c);
      hide At, Nodes, HoleNodes;
      BlackenNephew(oleft, true, n, p, c, t);
      ghost var sib := c.sib.(left := c.sib.left.(red := false));
      PaintSibling(tmp, true, n, p, WithSibling(c, sib), t);
      sib := sib.(red := true);
      FocusAcross(WithSibling(c, sib), t, n, p, root);
      RootAt(InRight(c.up, t, p, c.red), sib, p.right, p, root);
      RotateRight(tmp, InRight(c.up, t, p, c.red), sib);
      FocusAcross(InRight(c.up, t, p, c.red), RotatedRight(sib), oleft, p, root);
      RootAt(WithSibling(c, RotatedRight(sib)), t, p.left, p, root);
    }

    /** The far nephew is red: colour, rotate the sibling above the parent. */
    method FarRedLeft(tmp: RbEntry, p: RbEntry, ghost n: RbEntry?, ghost c: Hole, ghost t: Shape)
      requires At(c, t, n, p, root) && c.InLeft? && c.sib.Node? && tmp == c.sib.elem && c.sib.right.Node?
      modifies this`root, HoleNodes(c), Nodes(t)
      ensures var t' := Node(Node(t, p, false, c.sib.left), tmp, c.red, c.sib.right.(red := false));
              At(c.up, t', tmp, tmp.parent, root) && HoleNodes(c.up) + Nodes(t') == HoleNodes(c) + Nodes(t)
    {
      Nephews(c, t, n, p, root);
      SiblingIn(c);
      hide At, Nodes, HoleNodes;
      PaintSibling(tmp, p.red, n, p, c, t);
      ghost var sib := c.sib.(red := c.red);
      PaintParent(p, false, n, WithSibling(c, sib), t);
      if tmp.right != null {
        BlackenNephew(tmp.right, false, n, p, InLeft(c.up, p, false, sib), t);
      }
      sib := sib.(right := sib.right.(red := false));
      FocusUp(InLeft(c.up, p, false, sib), t, n, p, root);
      RotateLeft(p, c.up, Node(t, p, false, sib));
    }

    /** A nephew is red: one or two rotations settle the tree. */
    method SettleLeft(sib: RbEntry, n: RbEntry?, p: RbEntry, ghost c: Hole, ghost t: Shape) returns (ghost t': Shape)
      requires At(c, t, n, p, root) && Short(c, t) && c.InLeft? && !IsRed(t) && !IsRed(c.sib) && p.right == sib
      requires c.sib.Node? && (IsRed(c.sib.left) || IsRed(c.sib.right))
      modifies this`root, HoleNodes(c), Nodes(t)
      ensures At(Top, t', root, null, root) && Nodes(t') == HoleNodes(c) + Nodes(t)
      ensures RedBlack(t') && InOrder(t') == InOrder(Plug(c, t))
    {
      var tmp := sib;
      Nephews(c, t, n, p, root);
      hide At, Short, Fits, Balanced, Nodes, HoleNodes, Plug;
      ghost var k := c;
      if tmp.right == null || !tmp.right.red {
        var oleft := tmp.left;
        NearRedOk(c, t);
        NearRedLeft(tmp, oleft, n, p, c, t);
        k := WithSibling(c, RotatedRight(c.sib.(red := true, left := c.sib.left.(red := false))));
        Nephews(k, t, n, p, root);
        tmp := p.right;
      } else {
        FarRedIs(c, t);
      }
      FarRedOk(k, t);
      FarRedLeft(tmp, p, n, k, t);
      t' := Node(Node(t, p, false, k.sib.left), tmp, k.red, k.sib.right.(red := false));
      FocusTop(k.up, t', tmp, tmp.parent, root);
      t' := Plug(k.up, t');
    }

    /** One turn of `rbe_remove_color` with the focus a left child and the
        sibling `sib` black. */
    method RemoveBlackLeft(sib: RbEntry, n: RbEntry?, p: RbEntry, ghost c: Hole, ghost t: Shape)
      returns (rbe: RbEntry?, parent: RbEntry?, done: bool, ghost c': Hole, ghost t': Shape)
      requires At(c, t, n, p, root) && Short(c, t) && c.InLeft? && !IsRed(t) && !IsRed(c.sib) && p.right == sib
      modifies this`root, HoleNodes(c), Nodes(t)
      ensures At(c', t', rbe, parent, root) && HoleNodes(c') + Nodes(t') == HoleNodes(c) + Nodes(t)
      ensures InOrder(Plug(c', t')) == InOrder(Plug(c, t))
      ensures if done then rbe == root && Settled(c', t') else Short(c', t') && c' == c.up && IsRed(t') == c.red
    {
      RedSiblingUp(c, t);
      Nephews(c, t, n, p, root);
      SiblingIn(c);
      assert HoleNodes(Top) == {};
      hide At, Short, Fits, Balanced, Nodes, HoleNodes;
      if (sib.left == null || !sib.left.red) && (sib.right == null || !sib.right.red) {
        PaintSibling(sib, true, n, p, c, t);
        FocusUp(WithSibling(c, c.sib.(red := true)), t, n, p, root);
        rbe := p;
        parent := p.parent;
        done, c', t' := false, c.up, PlugOne(WithSibling(c, c.sib.(red := true)), t);
      } else {
        t' := SettleLeft(sib, n, p, c, t);
        TopSettled(t');
        rbe, parent, done, c' := root, null, true, Top;
      }
    }

    method RemoveLeft(n: RbEntry?, p: RbEntry, ghost c: Hole, ghost t: Shape)
      returns (rbe: RbEntry?, parent: RbEntry?, done: bool, ghost c': Hole, ghost t': Shape)
      requires At(c, t, n, p, root) && Short(c, t) && c.InLeft? && !IsRed(t)
      modifies this`root, HoleNodes(c), Nodes(t)
      ensures At(c', t', rbe, parent, root) && HoleNodes(c') + Nodes(t') == HoleNodes(c) + Nodes(t)
      ensures InOrder(Plug(c', t')) == InOrder(Plug(c, t))
      ensures if done then rbe == root && Settled(c', t') else Short(c', t') && Climb(c', t') < Climb(c, t)
    {
      ShortSibling(c, t);
      Nephews(c, t, n, p, root);
      hide At, Short, Fits, Balanced, Nodes, HoleNodes, Plug;
      var tmp := p.right;
      ghost var k := c;
      if tmp.red {
        RedSiblingOk(c, t);
        RedSiblingLeft(tmp, p, n, c, t);
        k := InLeft(InLeft(c.up, tmp, false, c.sib.right), p, true, c.sib.left);
        ShortSibling(k, t);
        Nephews(k, t, n, p, root);
        tmp := p.right;
      }
      rbe, parent, done, c', t' := RemoveBlackLeft(tmp, n, p, k, t);
    }

    // The mirror images, for a focus that is a right child.

    method RedSiblingRight(tmp: RbEntry, p: RbEntry, ghost n: RbEntry?, ghost c: Hole, ghost t: Shape)
      requires At(c, t, n, p, root) && c.InRight? && c.sib.Node? && tmp == c.sib.elem
      modifies this`root, HoleNodes(c), Nodes(t)
      ensures var c' := InRight(InRight(c.up, c.sib.left, tmp, false), c.sib.right, p, true);
              At(c', t, n, p, root) && HoleNodes(c') + Nodes(t) == HoleNodes(c) + Nodes(t)
    {
      RootAt(c, t, n, p, root);
      SiblingIn(c);
      hide At, Nodes, HoleNodes;
      PaintSibling(tmp, false, n, p, c, t);
      ghost var sib := c.sib.(red := false);
      PaintParent(p, true, n, WithSibling(c, sib), t);
      FocusUp(InRight(c.up, sib, p, true), t, n, p, root);
      RotateRight(p, c.up, Node(sib, p, true, t));
      ghost var low := Node(sib.right, p, true, t);
      FocusRight(c.up, Node(sib.left, tmp, false, low), tmp, tmp.parent, root);
      FocusRight(InRight(c.up, sib.left, tmp, false), low, p, tmp, root);
      RootAt(InRight(InRight(c.up, sib.left, tmp, false), sib.right, p, true), t, p.right, p, root);
    }

    method NearRedRight(tmp: RbEntry, oright: RbEntry, ghost n: RbEntry?, ghost p: RbEntry, ghost c: Hole, ghost t: Shape)
      requires At(c, t, n, p, root) && c.InRight? && c.sib.Node? && tmp == c.sib.elem
      requires c.sib.right.Node? && oright == c.sib.right.elem
      modifies this`root, HoleNodes(c), Nodes(t)
      ensures var c' := WithSibling(c, RotatedLeft(c.sib.(red := true, right := c.sib.right.(red := false))));
              At(c', t, n, p, root) && HoleNodes(c') == HoleNodes(c)
    {
      RootAt(c, t, n, p, root);
      SiblingIn(c);
      hide At, Nodes, HoleNodes;
      BlackenNephew(oright, false, n, p, c, t);
      ghost var sib := c.sib.(right := c.sib.right.(red := false));
      PaintSibling(tmp, true, n, p, WithSibling(c, sib), t);
      sib := sib.(red := true);
      FocusAcross(WithSibling(c, sib), t, n, p, root);
      RootAt(InLeft(c.up, p, c.red, t), sib, p.left, p, root);
      RotateLeft(tmp, InLeft(c.up, p, c.red, t), sib);
      FocusAcross(InLeft(c.up, p, c.red, t), RotatedLeft(sib), oright, p, root);
      RootAt(WithSibling(c, RotatedLeft(sib)), t, p.right, p, root);
    }

    method FarRedRight(tmp: RbEntry, p: RbEntry, ghost n: RbEntry?, ghost c: Hole, ghost t: Shape)
      requires At(c, t, n, p, root) && c.InRight? && c.sib.Node? && tmp == c.sib.elem && c.sib.left.Node?
      modifies this`root, HoleNodes(c), Nodes(t)
      ensures var t' := Node(c.sib.left.(red := false), tmp, c.red, Node(c.sib.right, p, false, t));
              At(c.up, t', tmp, tmp.parent, root) && HoleNodes(c.up) + Nodes(t') == HoleNodes(c) + Nodes(t)
    {
      Nephews(c, t, n, p, root);
      SiblingIn(c);
      hide At, Nodes, HoleNodes;
      PaintSibling(tmp, p.red, n, p, c, t);
      ghost var sib := c.sib.(red := c.red);
      PaintParent(p, false, n, WithSibling(c, sib), t);
      if tmp.left != null {
        BlackenNephew(tmp.left, true, n, p, InRight(c.up, sib, p, false), t);
      }
      sib := sib.(left := sib.left.(red := false));
      FocusUp(InRight(c.up, sib, p, false), t, n, p, root);
      RotateRight(p, c.up, Node(sib, p, false, t));
    }

    method SettleRight(sib: RbEntry, n: RbEntry?, p: RbEntry, ghost c: Hole, ghost t: Shape) returns (ghost t': Shape)
      requires At(c, t, n, p, root) && Short(c, t) && c.InRight? && !IsRed(t) && !IsRed(c.sib) && p.left == sib
      requires c.sib.Node? && (IsRed(c.sib.left) || IsRed(c.sib.right))
      modifies this`root, HoleNodes(c), Nodes(t)
      ensures At(Top, t', root, null, root) && Nodes(t') == HoleNodes(c) + Nodes(t)
      ensures RedBlack(t') && InOrder(t') == InOrder(Plug(c, t))
    {
      var tmp := sib;
      Nephews(c, t, n, p, root);
      hide At, Short, Fits, Balanced, Nodes, HoleNodes, Plug;
      ghost var k := c;
      if tmp.left == null || !tmp.left.red {
        var oright := tmp.right;
        NearRedOk(c, t);
        NearRedRight(tmp, oright, n, p, c, t);
        k := WithSibling(c, RotatedLeft(c.sib.(red := true, right := c.sib.right.(red := false))));
        Nephews(k, t, n, p, root);
        tmp := p.left;
      } else {
        FarRedIs(c, t);
      }
      FarRedOk(k, t);
      FarRedRight(tmp, p, n, k, t);
      t' := Node(k.sib.left.(red := false), tmp, k.red, Node(k.sib.right, p, false, t));
      FocusTop(k.up, t', tmp, tmp.parent, root);
      t' := Plug(k.up, t');
    }

    method RemoveBlackRight(sib: RbEntry, n: RbEntry?, p: RbEntry, ghost c: Hole, ghost t: Shape)
      returns (rbe: RbEntry?, parent: RbEntry?, done: bool, ghost c': Hole, ghost t': Shape)
      requires At(c, t, n, p, root) && Short(c, t) && c.InRight? && !IsRed(t) && !IsRed(c.sib) && p.left == sib
      modifies this`root, HoleNodes(c), Nodes(t)
      ensures At(c', t', rbe, parent, root) && HoleNodes(c') + Nodes(t') == HoleNodes(c) + Nodes(t)
      ensures InOrder(Plug(c', t')) == InOrder(Plug(c, t))
      ensures if done then rbe == root && Settled(c', t') else Short(c', t') && c' == c.up && IsRed(t') == c.red
    {
      RedSiblingUp(c, t);
      Nephews(c, t, n, p, root);
      SiblingIn(c);
      assert HoleNodes(Top) == {};
      hide At, Short, Fits, Balanced, Nodes, HoleNodes;
      if (sib.left == null || !sib.left.red) && (sib.right == null || !sib.right.red) {
        PaintSibling(sib, true, n, p, c, t);
        FocusUp(WithSibling(c, c.sib.(red := true)), t, n, p, root);
        rbe := p;
        parent := p.parent;
        done, c', t' := false, c.up, PlugOne(WithSibling(c, c.sib.(red := true)), t);
      } else {
        t' := SettleRight(sib, n, p, c, t);
        TopSettled(t');
        rbe, parent, done, c' := root, null, true, Top;
      }
    }

    method RemoveRight(n: RbEntry?, p: RbEntry, ghost c: Hole, ghost t: Shape)
      returns (rbe: RbEntry?, parent: RbEntry?, done: bool, ghost c': Hole, ghost t': Shape)
      requires At(c, t, n, p, root) && Short(c, t) && c.InRight? && !IsRed(t)
      modifies this`root, HoleNodes(c), Nodes(t)
      ensures At(c', t', rbe, parent, root) && HoleNodes(c') + Nodes(t') == HoleNodes(c) + Nodes(t)
      ensures InOrder(Plug(c', t')) == InOrder(Plug(c, t))
      ensures if done then rbe == root && Settled(c', t') else Short(c', t') && Climb(c', t') < Climb(c, t)
    {
      ShortSibling(c, t);
      Nephews(c, t, n, p, root);
      hide At, Short, Fits, Balanced, Nodes, HoleNodes, Plug;
      var tmp := p.left;
      ghost var k := c;
      if tmp.red {
        RedSiblingOk(c, t);
        RedSiblingRight(tmp, p, n, c, t);
        k := InRight(InRight(c.up, c.sib.left, tmp, false), c.sib.right, p, true);
        ShortSibling(k, t);
        Nephews(k, t, n, p, root);
        tmp := p.left;
      }
      rbe, parent, done, c', t' := RemoveBlackRight(tmp, n, p, k, t);
    }

    /** `rbe_remove_color`: repair the tree after a black node above `n` was
        unlinked. */
    method RemoveColor(p: RbEntry?, n: RbEntry?, ghost c0: Hole, ghost t0: Shape) returns (ghost shape: Shape)
      requires At(c0, t0, n, p, root) && Short(c0, t0)
      modifies this`root, HoleNodes(c0), Nodes(t0)
      ensures At(Top, shape, root, null, root) && Nodes(shape) == HoleNodes(c0) + Nodes(t0)
      ensures RedBlack(shape) && InOrder(shape) == InOrder(Plug(c0, t0))
    {
      ghost var all := HoleNodes(c0) + Nodes(t0);
      var rbe, parent, done := n, p, false;
      ghost var c, t := c0, t0;
      while !done && (rbe == null || !rbe.red) && rbe != root
        invariant At(c, t, rbe, parent, root)
        invariant HoleNodes(c) + Nodes(t) == all
        invariant InOrder(Plug(c, t)) == InOrder(Plug(c0, t0))
        invariant if done then rbe == root && Settled(c, t) else Short(c, t)
        decreases !done, Climb(c, t)
      {
        hide Short, At, Nodes, HoleNodes, Settled;
        RootAt(c, t, rbe, parent, root);
        ShortSibling(c, t);
        Nephews(c, t, rbe, parent, root);
        if parent.left == rbe {
          rbe, parent, done, c, t := RemoveLeft(rbe, parent, c, t);
        } else {
          rbe, parent, done, c, t := RemoveRight(rbe, parent, c, t);
        }
      }
      RootAt(c, t, rbe, parent, root);
      if !done {
        RootIsTop(c, t, rbe, parent, root);
        ShortDone(c, t);
      }
      shape := BlackenFocus(rbe, parent, c, t);
    }

    /** The end of `rbe_remove_color`. */
    method BlackenFocus(rbe: RbEntry?, ghost parent: RbEntry?, ghost c: Hole, ghost t: Shape) returns (ghost shape: Shape)
      requires At(c, t, rbe, parent, root) && Settled(c, t)
      modifies HoleNodes(c), Nodes(t)
      ensures At(Top, shape, root, null, root) && Nodes(shape) == HoleNodes(c) + Nodes(t)
      ensures RedBlack(shape) && InOrder(shape) == InOrder(Plug(c, t))
    {
      RootAt(c, t, rbe, parent, root);
      SettledBlack(c, t);
      if rbe != null {
        Paint(rbe, false, c, t);
      }
      FocusTop(c, Blacken(t), rbe, parent, root);
      shape := Plug(c, Blacken(t));
    }

    /** Cut out `rbe`, which has at most the one child `child`. */
    method Unlink(rbe: RbEntry, child: RbEntry?, parent: RbEntry?, ghost c: Hole, ghost t: Shape)
      requires At(c, t, rbe, parent, root) && t.Node? && (t.left.Leaf? || t.right.Leaf?)
      requires child == if rbe.left == null then rbe.right else rbe.left
      modifies this`root, HoleNodes(c), Nodes(t) - {rbe}
      ensures At(c, Remains(t), child, parent, root)
    {
      ghost var sc := HoleNodeSet(c);
      ghost var st := NodeSet(Remains(t));
      RemainsAt(c, t, rbe, parent, root);
      if child != null {
        SetParent(child, parent, Remains(t));
      }
      ReplaceChild(parent, rbe, child, c);
    }

    /** `m` takes over the fields of `old_` and its place in the tree. */
    method TakePlace(old_: RbEntry, m: RbEntry, ghost c: Hole, ghost t: Shape)
      requires At(c, t, old_, old_.parent, root) && t.Node? && t.left.Node? && m !in HoleNodes(c) + Nodes(t)
      modifies this`root, m, HoleNodes(c), Nodes(t) - {old_}
      ensures At(c, t.(elem := m), m, m.parent, root)
      ensures HoleNodes(c) + Nodes(t.(elem := m)) == HoleNodes(c) + Nodes(t) - {old_} + {m}
    {
      PlaceFacts(c, t, old_, m, root);
      CopyInto(old_, m, c, t.left, t.right);
    }

    method CopyInto(old_: RbEntry, m: RbEntry, ghost c: Hole, ghost l: Shape, ghost r: Shape)
      requires HoleRep(c, old_, old_.parent, root, null) && HoleApart(c) && old_ !in HoleNodes(c)
      requires Rep(l, old_.left, old_) && Rep(r, old_.right, old_) && Apart(l) && Apart(r) && old_.left != null
      requires old_.left in Nodes(l) && (old_.right != null ==> old_.right in Nodes(r))
      requires old_.left.parent == old_ && (old_.right != null ==> old_.right.parent == old_)
      requires HoleNodes(c) !! Nodes(l) && HoleNodes(c) !! Nodes(r) && Nodes(l) !! Nodes(r)
      requires old_ !in Nodes(l) && old_ !in Nodes(r) && m !in HoleNodes(c) && m !in Nodes(l) && m !in Nodes(r) && m != old_
      requires old_.parent != null ==> old_.parent in HoleNodes(c)
      modifies this`root, m, HoleNodes(c), old_.left`parent
      modifies if old_.right == null then {} else {old_.right}
      ensures HoleRep(c, m, m.parent, root, null)
      ensures Rep(l, m.left, m) && Rep(r, m.right, m) && m.red == old_.red
    {
      ghost var sc := HoleNodeSet(c);
      ghost var sl := NodeSet(l);
      ghost var sr := NodeSet(r);
      hide Rep, HoleRep, Nodes, HoleNodes, Apart, HoleApart;
      m.left, m.right, m.parent, m.red := old_.left, old_.right, old_.parent, old_.red;
      ReplaceChild(old_.parent, old_, m, c);
      SetParent(old_.left, m, l);
      if old_.right != null {
        SetParent(old_.right, m, r);
      } else {
        NoChild(r, old_.right, old_, m);
      }
    }

    /** The successor of a node with a right child: the left end below it. */
    method Successor(old_: RbEntry, ghost k: Hole, ghost t: Shape) returns (rbe: RbEntry, ghost d: Hole, ghost u: Shape)
      requires At(k, t, old_.right, old_, root) && t.Node?
      ensures At(Compose(d, k), u, rbe, rbe.parent, root) && u.Node? && u.elem == rbe && u.left.Leaf? && rbe.left == null
      ensures Plug(d, u) == t && Leftmost(d)
      ensures HoleNodes(Compose(d, k)) + Nodes(u) == HoleNodes(k) + Nodes(t)
    {
      hide At, HoleNodes, Nodes;
      RootAt(k, t, old_.right, old_, root);
      rbe, d, u := old_.right, Top, t;
      FocusLeft(Compose(d, k), u, rbe, rbe.parent, root);
      RootAt(InLeft(Compose(d, k), rbe, u.red, u.right), u.left, rbe.left, rbe, root);
      while rbe.left != null
        invariant At(Compose(d, k), u, rbe, rbe.parent, root) && u.Node? && u.elem == rbe
        invariant rbe.left != null <==> u.left.Node?
        invariant At(InLeft(Compose(d, k), rbe, u.red, u.right), u.left, rbe.left, rbe, root)
        invariant HoleNodes(InLeft(Compose(d, k), rbe, u.red, u.right)) + Nodes(u.left) == HoleNodes(k) + Nodes(t)
        invariant Plug(d, u) == t && Leftmost(d)
        invariant HoleNodes(Compose(d, k)) + Nodes(u) == HoleNodes(k) + Nodes(t)
        decreases u
      {
        d, u := InLeft(d, rbe, u.red, u.right), u.left;
        RootAt(Compose(d, k), u, rbe.left, rbe, root);
        rbe := rbe.left;
        FocusLeft(Compose(d, k), u, rbe, rbe.parent, root);
        RootAt(InLeft(Compose(d, k), rbe, u.red, u.right), u.left, rbe.left, rbe, root);
      }
    }

    /** `rbe_remove` of a node with at most one child. */
    method RemoveSingle(old_: RbEntry, child_: RbEntry?, ghost c: Hole, ghost t: Shape)
      returns (child: RbEntry?, parent: RbEntry?, red: bool, ghost c': Hole, ghost t': Shape)
      requires At(c, t, old_, old_.parent, root) && t.Node? && (t.left.Leaf? || t.right.Leaf?) && RedBlack(Plug(c, t))
      requires child_ == if old_.left == null then old_.right else old_.left
      modifies this`root, HoleNodes(c), Nodes(t)
      ensures At(c', t', child, parent, root) && HoleNodes(c') + Nodes(t') == HoleNodes(c) + Nodes(t) - {old_}
      ensures InOrder(Plug(c', t')) == Without(c, t)
      ensures if red then RedBlack(Plug(c', t')) else Short(c', t')
    {
      hide Plug, InOrder, Before, After, Without;
      RootAt(c, t, old_, old_.parent, root);
      RemainsAt(c, t, old_, old_.parent, root);
      UnlinkOk(c, t);
      UnlinkOrder(c, t);
      child, parent, red := child_, old_.parent, old_.red;
      Unlink(old_, child, parent, c, t);
      c', t' := c, Remains(t);
      Removed(c', t', red);
    }

    /** `rbe_remove` of a node with two children: unlink its successor and put
        that in its place. */
    method RemoveDouble(old_: RbEntry, ghost c: Hole, ghost t: Shape)
      returns (child: RbEntry?, parent: RbEntry?, red: bool, ghost c': Hole, ghost t': Shape)
      requires At(c, t, old_, old_.parent, root) && t.Node? && t.left.Node? && t.right.Node? && RedBlack(Plug(c, t))
      modifies this`root, HoleNodes(c), Nodes(t)
      ensures At(c', t', child, parent, root) && HoleNodes(c') + Nodes(t') == HoleNodes(c) + Nodes(t) - {old_}
      ensures InOrder(Plug(c', t')) == Without(c, t)
      ensures if red then RedBlack(Plug(c', t')) else Short(c', t')
    {
      hide At, HoleNodes, Nodes, Plug, InOrder, Before, After, Without;
      RootAt(c, t, old_, old_.parent, root);
      FocusRight(c, t, old_, old_.parent, root);
      ghost var k := InRight(c, t.left, old_, t.red);
      ghost var d, u;
      var rbe;
      rbe, d, u := Successor(old_, k, t.right);
      RootAt(Compose(d, k), u, rbe, rbe.parent, root);
      SuccessorBalance(d, c, t, u);
      SuccessorOrder(d, c, t, u);
      child, parent, red := rbe.right, rbe.parent, rbe.red;
      parent, c' := SwapIn(rbe, old_, child, parent, c, t, d, u);
      t' := u.right;
      Removed(c', t', red);
    }

    /** Unlink the successor `rbe` of `old_` and let it take over. */
    method SwapIn(rbe: RbEntry, old_: RbEntry, child: RbEntry?, parent_: RbEntry?, ghost c: Hole, ghost t: Shape, ghost d: Hole, ghost u: Shape)
      returns (parent: RbEntry?, ghost c': Hole)
      requires t.Node? && t.left.Node? && u.Node? && u.left.Leaf?
      requires At(Compose(d, InRight(c, t.left, old_, t.red)), u, rbe, rbe.parent, root)
      requires child == rbe.right && parent_ == rbe.parent && rbe.left == null
      modifies this`root, HoleNodes(Compose(d, InRight(c, t.left, old_, t.red))), Nodes(u)
      ensures c' == Compose(d, InRight(c, t.left, rbe, t.red)) && At(c', u.right, child, parent, root)
      ensures HoleNodes(c') + Nodes(u.right) == HoleNodes(Compose(d, InRight(c, t.left, old_, t.red))) + Nodes(u) - {old_}
    {
      hide At, HoleNodes, Nodes, HoleApart, Apart, HoleRep, Rep;
      ghost var k := InRight(c, t.left, old_, t.red);
      ghost var all := HoleNodes(Compose(d, k)) + Nodes(u);
      RemainsAt(Compose(d, k), u, rbe, parent_, root);
      ComposeNodes(d, k);
      Unlink(rbe, child, parent_, Compose(d, k), u);
      parent := parent_;
      if rbe.parent == old_ {
        parent := rbe;
      }
      RootAt(Compose(d, k), u.right, child, parent_, root);
      FocusOut(d, k, u.right, child, parent_, root);
      ghost var hole := Node(t.left, old_, t.red, Plug(d, u.right));
      assert HoleNodes(c) + Nodes(hole) == all - {rbe};
      TakePlace(old_, rbe, c, hole);
      c' := Compose(d, InRight(c, t.left, rbe, t.red));
      ghost var n, p := FocusBack(d, c, hole.(elem := rbe), u.right, rbe, root);
      RootAt(c', u.right, n, p, root);
    }

    /** `_rb_remove`. */
    method Remove(elm: RbEntry) returns (r: RbEntry)
      requires Valid() && elm in Nodes(shape)
      modifies this, Nodes(shape)
      ensures Valid() && r == elm && Nodes(shape) == old(Nodes(shape)) - {elm}
      ensures exists i :: 0 <= i < |old(Order())| && old(Order())[i] == elm && Order() == old(Order())[..i] + old(Order())[i + 1..]
      ensures forall e :: e in Order() <==> e in Nodes(shape)
    {
      hide Sorted, At, HoleNodes, Nodes, Short, InOrder, Before, Without;
      ghost var order := Order();
      ghost var n, p, c, t := Locate(Top, shape, root, null, root, elm);
      RootAt(c, t, n, p, root);
      WithoutIs(c, t);
      RemovedSorted(order, |Before(c)| + |InOrder(t.left)|);
      Children(c, t, elm, root);
      TopNodes(shape);
      ghost var c', t';
      var child, parent, red;
      if elm.left == null {
        child, parent, red, c', t' := RemoveSingle(elm, elm.right, c, t);
      } else if elm.right == null {
        child, parent, red, c', t' := RemoveSingle(elm, elm.left, c, t);
      } else {
        child, parent, red, c', t' := RemoveDouble(elm, c, t);
      }
      if !red {
        shape := RemoveColor(parent, child, c', t');
      } else {
        FocusTop(c', t', child, parent, root);
        shape := Plug(c', t');
      }
      InOrderNodes(shape);
      r := elm;
    }

    /** `_rb_nfind`: the first node with a key of at least `key`. */
    method NFind(key: int) returns (res: RbEntry?)
      requires Valid()
      ensures res == null ==> Below(Order(), key)
      ensures res != null ==> exists i :: 0 <= i < |Order()| && Order()[i] == res && key <= res.key && Below(Order()[..i], key)
    {
      var tmp := root;
      res := null;
      ghost var parent: RbEntry?, c, t := null, Top, shape;
      while tmp != null
        invariant At(c, t, tmp, parent, root) && Plug(c, t) == shape
        invariant Below(Before(c), key) && Above(After(c), key)
        invariant if res == null then After(c) == [] else After(c) != [] && After(c)[0] == res
        decreases t
      {
        hide At, RedBlack, Below, Above, Sorted, InOrder;
        RootAt(c, t, tmp, parent, root);
        DescentKeys(c, t, key);
        if key < tmp.key {
          FocusLeft(c, t, tmp, parent, root);
          c, t := InLeft(c, tmp, t.red, t.right), t.left;
          res := tmp;
          parent, tmp := tmp, tmp.left;
        } else if key > tmp.key {
          FocusRight(c, t, tmp, parent, root);
          c, t := InRight(c, t.left, tmp, t.red), t.right;
          parent, tmp := tmp, tmp.right;
        } else {
          FoundAt(c, t);
          ghost var i := |Before(c)| + |InOrder(t.left)|;
          assert Order()[i] == tmp && key <= tmp.key && Below(Order()[..i], key);
          return tmp;
        }
      }
      RootAt(c, t, tmp, parent, root);
      InOrderPlug(c, t);
      if res != null {
        assert Order()[|Before(c)|] == res;
      }
    }

    /** `_rb_next`: the node that follows `elm` in key order. */
    method Next(elm: RbEntry) returns (r: RbEntry?)
      requires Valid() && elm in Nodes(shape)
      ensures exists i :: Follows(Order(), i, elm, r)
    {
      hide At, HoleNodes, Nodes, RedBlack, Sorted, InOrder, After, Before;
      ghost var n, p, c, t := Locate(Top, shape, root, null, root, elm);
      RootAt(c, t, n, p, root);
      Children(c, t, elm, root);
      SplitOrder(c, t);
      ghost var rest := InOrder(t.right) + After(c);
      if elm.right != null {
        FocusRight(c, t, elm, elm.parent, root);
        ghost var d, u;
        r, d, u := Successor(elm, InRight(c, t.left, elm, t.red), t.right);
        LeftEnd(d, u);
        assert rest[0] == r;
      } else {
        LeafOrder(t.right);
        r := NextAbove(elm, c, t);
        assert rest == After(c);
      }
      ghost var i := |Before(c)| + |InOrder(t.left)|;
      assert Order()[i] == elm && Order()[i + 1..] == rest;
      assert r == if rest == [] then null else rest[0];
      assert i + 1 < |Order()| ==> Order()[i + 1] == rest[0];
      assert Follows(Order(), i, elm, r);
    }

    /** `_rb_next` without a right child: climb to the first ancestor from the left. */
    method NextAbove(elm: RbEntry, ghost c0: Hole, ghost t0: Shape) returns (r: RbEntry?)
      requires At(c0, t0, elm, elm.parent, root)
      ensures r == if After(c0) == [] then null else After(c0)[0]
    {
      hide At, InOrder;
      var rbe: RbEntry := elm;
      ghost var c, t := c0, t0;
      RootAt(c, t, rbe, rbe.parent, root);
      if rbe.parent != null {
        ChildSide(c, t, rbe, rbe.parent, root);
      }
      if rbe.parent != null && rbe == rbe.parent.left {
        return rbe.parent;
      }
      while rbe.parent != null && rbe == rbe.parent.right
        invariant At(c, t, rbe, rbe.parent, root) && After(c) == After(c0)
        decreases c
      {
        var parent := rbe.parent;
        RootAt(c, t, rbe, parent, root);
        ChildSide(c, t, rbe, parent, root);
        FocusUp(c, t, rbe, parent, root);
        c, t := c.up, PlugOne(c, t);
        rbe := parent;
      }
      RootAt(c, t, rbe, rbe.parent, root);
      if rbe.parent != null {
        ChildSide(c, t, rbe, rbe.parent, root);
      }
      return rbe.parent;
    }

    /** The predecessor of a node with a left child: the right end below it. */
    method Predecessor(elm: RbEntry, ghost k: Hole, ghost t: Shape) returns (rbe: RbEntry)
      requires At(k, t, elm.left, elm, root) && t.Node?
      ensures InOrder(t) != [] && rbe == InOrder(t)[|InOrder(t)| - 1]
    {
      hide At;
      RootAt(k, t, elm.left, elm, root);
      rbe := elm.left;
      ghost var c, u := k, t;
      Children(c, u, rbe, root);
      while rbe.right != null
        invariant At(c, u, rbe, rbe.parent, root) && u.Node? && u.elem == rbe
        invariant rbe.right == null <==> u.right.Leaf?
        invariant InOrder(t) != [] && InOrder(u) != [] && InOrder(t)[|InOrder(t)| - 1] == InOrder(u)[|InOrder(u)| - 1]
        decreases u
      {
        FocusRight(c, u, rbe, rbe.parent, root);
        c, u := InRight(c, u.left, rbe, u.red), u.right;
        RootAt(c, u, rbe.right, rbe, root);
        rbe := rbe.right;
        Children(c, u, rbe, root);
      }
    }

    /** `_rb_prev`: the node that precedes `elm` in key order. */
    method Prev(elm: RbEntry) returns (r: RbEntry?)
      requires Valid() && elm in Nodes(shape)
      ensures exists i :: Precedes(Order(), i, elm, r)
    {
      hide At, HoleNodes, Nodes, RedBlack, Sorted, InOrder, After, Before;
      ghost var n, p, c, t := Locate(Top, shape, root, null, root, elm);
      RootAt(c, t, n, p, root);
      Children(c, t, elm, root);
      SplitOrder(c, t);
      ghost var front := Before(c) + InOrder(t.left);
      if elm.left != null {
        FocusLeft(c, t, elm, elm.parent, root);
        r := Predecessor(elm, InLeft(c, elm, t.red, t.right), t.left);
        assert front[|front| - 1] == r;
      } else {
        LeafOrder(t.left);
        r := PrevAbove(elm, c, t);
        assert front == Before(c);
      }
      ghost var i := |front|;
      assert Order()[i] == elm && Order()[..i] == front;
      assert r == if front == [] then null else front[|front| - 1];
      assert i > 0 ==> Order()[i - 1] == front[i - 1];
      assert Precedes(Order(), i, elm, r);
    }

    /** `_rb_prev` without a left child: climb to the first ancestor from the right. */
    method PrevAbove(elm: RbEntry, ghost c0: Hole, ghost t0: Shape) returns (r: RbEntry?)
      requires At(c0, t0, elm, elm.parent, root)
      ensures r == if Before(c0) == [] then null else Before(c0)[|Before(c0)| - 1]
    {
      hide At, InOrder;
      var rbe: RbEntry := elm;
      ghost var c, t := c0, t0;
      RootAt(c, t, rbe, rbe.parent, root);
      if rbe.parent != null {
        ChildSide(c, t, rbe, rbe.parent, root);
      }
      if rbe.parent != null && rbe == rbe.parent.right {
        return rbe.parent;
      }
      while rbe.parent != null && rbe == rbe.parent.left
        invariant At(c, t, rbe, rbe.parent, root) && Before(c) == Before(c0)
        decreases c
      {
        var parent := rbe.parent;
        RootAt(c, t, rbe, parent, root);
        ChildSide(c, t, rbe, parent, root);
        FocusUp(c, t, rbe, parent, root);
        c, t := c.up, PlugOne(c, t);
        rbe := parent;
      }
      RootAt(c, t, rbe, rbe.parent, root);
      if rbe.parent != null {
        ChildSide(c, t, rbe, rbe.parent, root);
      }
      return rbe.parent;
    }

    /** `rbe_set`, and the pointer to the new node. */
    method LinkChild(elm: RbEntry, parent: RbEntry?, ghost c: Hole)
      requires At(c, Leaf, null, parent, root) && elm !in HoleNodes(c)
      requires parent != null ==> (c.InLeft? <==> elm.key < parent.key)
      modifies this`root, elm, if parent == null then {} else {parent}
      ensures At(c, Node(Leaf, elm, true, Leaf), elm, parent, root) && elm.parent == parent
    {
      ghost var s := HoleNodeSet(c);
      RootAt(c, Leaf, null, parent, root);
      elm.parent := parent;
      elm.left, elm.right := null, null;
      elm.red := true;
      if parent != null {
        if elm.key < parent.key {
          parent.left := elm;
        } else {
          parent.right := elm;
        }
      } else {
        root := elm;
      }
    }
  }

  /** Every key of the sequence is below (above) `key`. */
  ghost predicate Below(s: seq<RbEntry>, key: int) {
    forall i :: 0 <= i < |s| ==> s[i].key < key
  }

  ghost predicate Above(s: seq<RbEntry>, key: int) {
    forall i :: 0 <= i < |s| ==> key < s[i].key
  }

  ghost predicate Sorted(s: seq<RbEntry>) {
    forall i, j :: 0 <= i < j < |s| ==> s[i].key < s[j].key
  }

  /** `e` is at index `i`, and `next` (`prev`) is what comes after (before) it,
      null at the end. */
  ghost predicate Follows(s: seq<RbEntry>, i: int, e: RbEntry, next: RbEntry?) {
    0 <= i < |s| && s[i] == e && next == if i + 1 < |s| then s[i + 1] else null
  }

  ghost predicate Precedes(s: seq<RbEntry>, i: int, e: RbEntry, prev: RbEntry?) {
    0 <= i < |s| && s[i] == e && prev == if i == 0 then null else s[i - 1]
  }

  lemma SortedAround(x: seq<RbEntry>, e: RbEntry, y: seq<RbEntry>)
    requires Sorted(x + [e] + y)
    ensures Below(x, e.key) && Above(y, e.key)
  {
    var s := x + [e] + y;
    assert s[|x|] == e;
    forall i | 0 <= i < |x| ensures x[i].key < e.key { assert s[i] == x[i]; }
    forall i | 0 <= i < |y| ensures e.key < y[i].key { assert s[|x| + 1 + i] == y[i]; }
  }

  /** Keys before and after the hole, on the way down to `key`. */
  lemma DescentKeys(c: Hole, t: Shape, key: int)
    requires t.Node? && Sorted(InOrder(Plug(c, t))) && Below(Before(c), key) && Above(After(c), key)
    ensures key < t.elem.key ==> Above(After(InLeft(c, t.elem, t.red, t.right)), key)
    ensures t.elem.key < key ==> Below(Before(InRight(c, t.left, t.elem, t.red)), key)
  {
    hide Plug, Sorted, InOrder;
    SplitOrder(c, t);
    var x, y := Before(c) + InOrder(t.left), InOrder(t.right) + After(c);
    SortedAround(x, t.elem, y);
    assert [t.elem] + InOrder(t.right) + After(c) == [t.elem] + y;
    assert Before(c) + InOrder(t.left) + [t.elem] == x + [t.elem];
  }

  lemma RemovedSorted(order: seq<RbEntry>, i: int)
    requires 0 <= i < |order| && Sorted(order)
    ensures Sorted(order[..i] + order[i + 1..])
  {
  }

  lemma FoundAt(c: Hole, t: Shape)
    requires t.Node? && Sorted(InOrder(Plug(c, t)))
    ensures var order, i := InOrder(Plug(c, t)), |Before(c)| + |InOrder(t.left)|;
            0 <= i < |order| && order[i] == t.elem && Below(order[..i], t.elem.key)
  {
    SplitOrder(c, t);
  }

  lemma SplitOrder(c: Hole, t: Shape)
    requires t.Node?
    ensures InOrder(Plug(c, t)) == (Before(c) + InOrder(t.left)) + [t.elem] + (InOrder(t.right) + After(c))
    ensures InOrder(Plug(c, t))[|Before(c)| + |InOrder(t.left)|] == t.elem
  {
    hide InOrder, Before, After, Plug;
    InOrderPlug(c, t);
    NodeOrder(t);
    Regroup'(Before(c), InOrder(t.left), t.elem, InOrder(t.right), After(c));
    SplitAt(Before(c) + InOrder(t.left), t.elem, InOrder(t.right) + After(c));
  }

  lemma InsertedOrder(order: seq<RbEntry>, c: Hole, elm: RbEntry)
    requires order == InOrder(Plug(c, Leaf)) && Sorted(order) && Below(Before(c), elm.key) && Above(After(c), elm.key)
    ensures var order' := InOrder(Plug(c, Node(Leaf, elm, true, Leaf)));
            && |Before(c)| <= |order| && order' == order[..|Before(c)|] + [elm] + order[|Before(c)|..]
            && Sorted(order')
  {
    hide Plug, Before, After, Sorted, Below, Above;
    InOrderPlug(c, Leaf);
    InOrderPlug(c, Node(Leaf, elm, true, Leaf));
    var a, b := Before(c), After(c);
    assert order == a + b;
    assert InOrder(Node(Leaf, elm, true, Leaf)) == [elm];
    SortedBetween(a, elm, b);
    assert order[..|a|] == a && order[|a|..] == b;
  }

  lemma SortedBetween(a: seq<RbEntry>, elm: RbEntry, b: seq<RbEntry>)
    requires Sorted(a + b) && Below(a, elm.key) && Above(b, elm.key)
    ensures Sorted(a + [elm] + b)
  {
    var s, t := a + [elm] + b, a + b;
    assert forall i :: 0 <= i < |a| ==> s[i] == t[i] == a[i];
    assert forall i :: |a| < i < |s| ==> s[i] == t[i - 1] == b[i - |a| - 1];
  }

  lemma {:induction false} InOrderNodes(t: Shape)
    ensures forall e :: e in InOrder(t) <==> e in Nodes(t)
  {
    if t.Node? {
      InOrderNodes(t.left);
      InOrderNodes(t.right);
    }
  }

  /** The parts of a rotation do not overlap; `hole` is what is above. */
  ghost predicate Separate(a: Shape, x: RbEntry, b: Shape, y: RbEntry, d: Shape, hole: set<RbEntry>, p: RbEntry?) {
    && Apart(b) && x != y && p != x && p != y && x !in hole && y !in hole
    && x !in Nodes(a) && x !in Nodes(b) && x !in Nodes(d) && y !in Nodes(a) && y !in Nodes(b) && y !in Nodes(d)
    && (b.Node? ==> b.elem !in hole && b.elem !in Nodes(a) && b.elem !in Nodes(d) && b.elem != x && b.elem != y && b.elem != p)
    && (p != null ==> p !in Nodes(a) && p !in Nodes(b) && p !in Nodes(d))
  }

  /** The nodes of a shape exist in the heap. */
  lemma NodeSet(t: Shape) returns (s: set<RbEntry>)
    ensures s == Nodes(t)
  {
    s := Nodes(t);
  }

  lemma HoleNodeSet(c: Hole) returns (s: set<RbEntry>)
    ensures s == HoleNodes(c)
  {
    s := HoleNodes(c);
  }

  lemma RotateFrame(a: Shape, x: RbEntry, cx: bool, b: Shape, y: RbEntry, cy: bool, d: Shape, hole: set<RbEntry>, p: RbEntry?)
    requires Apart(Node(a, x, cx, Node(b, y, cy, d))) && hole !! Nodes(Node(a, x, cx, Node(b, y, cy, d)))
    requires p != null ==> p in hole
    ensures Separate(a, x, b, y, d, hole, p)
    ensures b.Node? ==> b.elem in Nodes(b)
  {
    hide Nodes, Apart;
    RotatedApart(a, x, cx, b, y, cy, d);
    if b.Node? { RootIn(b); }
  }

  lemma RotateFrame'(a: Shape, y: RbEntry, cy: bool, b: Shape, x: RbEntry, cx: bool, d: Shape, hole: set<RbEntry>, p: RbEntry?)
    requires Apart(Node(Node(a, y, cy, b), x, cx, d)) && hole !! Nodes(Node(Node(a, y, cy, b), x, cx, d))
    requires p != null ==> p in hole
    ensures Separate(d, x, b, y, a, hole, p)
    ensures b.Node? ==> b.elem in Nodes(b)
  {
    hide Nodes, Apart;
    RotatedApart(a, y, cy, b, x, cx, d);
    if b.Node? { RootIn(b); }
  }

  lemma RootIn(t: Shape)
    requires t.Node?
    ensures t.elem in Nodes(t)
  {
  }

  lemma ParentInHole(c: Hole, x: RbEntry?, p: RbEntry?, root: RbEntry?)
    requires HoleRep(c, x, p, root, null)
    ensures p != null ==> p in HoleNodes(c)
  {
  }

  /** Give the subtree `b` at `n` another parent. */
  method SetParent(n: RbEntry, p: RbEntry?, ghost b: Shape)
    requires Rep(b, n, n.parent) && Apart(b)
    modifies n`parent
    ensures Rep(b, n, p) && n.parent == p
  {
    n.parent := p;
  }

  lemma BelowRoot(t: Shape, n: RbEntry?, p: RbEntry?)
    requires Rep(t, n, p)
    ensures n != null <==> t.Node?
    ensures n != null ==> n == t.elem && n in Nodes(t) && n.parent == p && n.red == t.red
  {
  }

  lemma SiblingNotHole(c: Hole, x: RbEntry, p: RbEntry, root: RbEntry?, above: RbEntry?)
    requires HoleRep(c, x, p, root, above) && HoleApart(c) && x !in HoleNodes(c) && !c.Top?
    ensures c.InLeft? <==> p.left == x
    ensures c.InRight? <==> p.right == x
    ensures c.elem == p && c.red == p.red && Rep(c.sib, if c.InLeft? then p.right else p.left, p)
  {
  }

  lemma RootAt(c: Hole, t: Shape, n: RbEntry?, p: RbEntry?, root: RbEntry?)
    requires At(c, t, n, p, root)
    ensures n != null <==> t.Node?
    ensures n != null ==> n == t.elem && n.parent == p && n.red == t.red && n in Nodes(t)
    ensures p != null <==> !c.Top?
    ensures p != null ==> p == c.elem && p.red == c.red && p in HoleNodes(c)
    ensures c.Top? ==> n == root
  {
    BelowRoot(t, n, p);
  }

  lemma ChildSide(c: Hole, t: Shape, n: RbEntry, p: RbEntry, root: RbEntry?)
    requires At(c, t, n, p, root)
    ensures !c.Top? && (c.InLeft? <==> p.left == n) && (c.InRight? <==> p.right == n)
    ensures t.Node? && t.elem == n && c.elem == p && c.red == p.red && t.red == n.red
  {
    BelowRoot(t, n, p);
    SiblingNotHole(c, n, p, root, null);
  }

  lemma UncleOf(c: Hole, t: Shape, n: RbEntry, p: RbEntry, root: RbEntry?)
    requires At(c, t, n, p, root)
    ensures !c.Top? && (c.InLeft? <==> p.left == n) && (c.InRight? <==> p.right == n)
    ensures var u := if c.InLeft? then p.right else p.left;
            && (u != null <==> c.sib.Node?)
            && (u != null ==> c.sib.elem == u && c.sib.red == u.red)
  {
    BelowRoot(t, n, p);
    SiblingNotHole(c, n, p, root, null);
    BelowRoot(c.sib, if c.InLeft? then p.right else p.left, p);
  }

  lemma SiblingIn(c: Hole)
    ensures !c.Top? ==> c.elem in HoleNodes(c) && Nodes(c.sib) <= HoleNodes(c)
    ensures !c.Top? && c.sib.Node? ==> c.sib.elem in HoleNodes(c)
    ensures !c.Top? && c.sib.Node? && c.sib.left.Node? ==> c.sib.left.elem in HoleNodes(c)
    ensures !c.Top? && c.sib.Node? && c.sib.right.Node? ==> c.sib.right.elem in HoleNodes(c)
  {
  }

  lemma WithSiblingNodes(c: Hole, sib: Shape)
    requires !c.Top? && Nodes(sib) == Nodes(c.sib)
    ensures HoleNodes(WithSibling(c, sib)) == HoleNodes(c)
  {
  }

  /** The sibling and its children, seen through the parent. */
  lemma Nephews(c: Hole, t: Shape, n: RbEntry?, p: RbEntry, root: RbEntry?)
    requires At(c, t, n, p, root) && !c.Top? && c.sib.Node?
    ensures p == c.elem && p.red == c.red && (c.InLeft? <==> p.left == n) && (c.InRight? <==> p.right == n)
    ensures var s := if c.InLeft? then p.right else p.left;
      && s == c.sib.elem && s.red == c.sib.red
      && (s.left != null <==> c.sib.left.Node?) && (s.left != null ==> s.left == c.sib.left.elem && s.left.red == c.sib.left.red)
      && (s.right != null <==> c.sib.right.Node?) && (s.right != null ==> s.right == c.sib.right.elem && s.right.red == c.sib.right.red)
  {
    RootAt(c, t, n, p, root);
    SiblingIn(c);
    var s := if c.InLeft? then p.right else p.left;
    BelowRoot(c.sib, s, p);
    BelowRoot(c.sib.left, s.left, s);
    BelowRoot(c.sib.right, s.right, s);
  }

  lemma RootIsTop(c: Hole, t: Shape, n: RbEntry?, p: RbEntry?, root: RbEntry?)
    requires At(c, t, n, p, root)
    ensures n == root <==> c.Top?
  {
    RootAt(c, t, n, p, root);
    if !c.Top? { RootInHole(c, n, p, root); }
  }

  lemma {:induction false} RootInHole(c: Hole, n: RbEntry?, p: RbEntry?, root: RbEntry?)
    requires HoleRep(c, n, p, root, null) && !c.Top?
    ensures root != null && root in HoleNodes(c)
    decreases c
  {
    if !c.up.Top? { RootInHole(c.up, p, p.parent, root); }
  }

  lemma RemainsAt(c: Hole, t: Shape, n: RbEntry, p: RbEntry?, root: RbEntry?)
    requires At(c, t, n, p, root) && t.Node? && (t.left.Leaf? || t.right.Leaf?)
    ensures n == t.elem && n !in HoleNodes(c)
    ensures var child := if n.left == null then n.right else n.left;
      && Rep(Remains(t), child, n) && Apart(Remains(t)) && n !in Nodes(Remains(t))
      && (child != null ==> child in Nodes(Remains(t)))
      && Nodes(t) == Nodes(Remains(t)) + {n} && HoleNodes(c) !! Nodes(t)
    ensures HoleRep(c, n, p, root, null) && HoleApart(c) && (p != null ==> p in HoleNodes(c))
  {
    BelowRoot(t.left, n.left, n);
    BelowRoot(t.right, n.right, n);
  }

  lemma NoChild(t: Shape, n: RbEntry?, p: RbEntry?, p': RbEntry?)
    requires Rep(t, n, p) && n == null
    ensures Rep(t, n, p')
  {
  }

  lemma PlaceFacts(c: Hole, t: Shape, n: RbEntry, m: RbEntry, root: RbEntry?)
    requires At(c, t, n, n.parent, root) && t.Node? && t.left.Node? && m !in HoleNodes(c) + Nodes(t)
    ensures HoleRep(c, n, n.parent, root, null) && HoleApart(c) && n !in HoleNodes(c) && t.elem == n && t.red == n.red
    ensures Rep(t.left, n.left, n) && Rep(t.right, n.right, n) && Apart(t.left) && Apart(t.right) && n.left != null
    ensures n.left in Nodes(t.left) && (n.right != null ==> n.right in Nodes(t.right))
    ensures n.left.parent == n && (n.right != null ==> n.right.parent == n)
    ensures HoleNodes(c) !! Nodes(t.left) && HoleNodes(c) !! Nodes(t.right) && Nodes(t.left) !! Nodes(t.right)
    ensures n !in Nodes(t.left) && n !in Nodes(t.right) && m !in HoleNodes(c) && m !in Nodes(t.left) && m !in Nodes(t.right) && m != n
    ensures n.parent != null ==> n.parent in HoleNodes(c)
    ensures Nodes(t) == Nodes(t.left) + {n} + Nodes(t.right)
  {
    BelowRoot(t, n, n.parent);
    BelowRoot(t.left, n.left, n);
    BelowRoot(t.right, n.right, n);
    ParentInHole(c, n, n.parent, root);
  }

  /** The place of a node in the tree. */
  lemma {:induction false} Locate(c: Hole, t: Shape, n: RbEntry?, p: RbEntry?, root: RbEntry?, e: RbEntry)
    returns (n': RbEntry?, p': RbEntry?, c': Hole, t': Shape)
    requires At(c, t, n, p, root) && e in Nodes(t)
    ensures At(c', t', e, e.parent, root) && t'.Node? && t'.elem == e && n' == e && p' == e.parent
    ensures Plug(c', t') == Plug(c, t) && HoleNodes(c') + Nodes(t') == HoleNodes(c) + Nodes(t)
    decreases t
  {
    RootAt(c, t, n, p, root);
    if t.elem == e {
      n', p', c', t' := n, p, c, t;
    } else if e in Nodes(t.left) {
      FocusLeft(c, t, n, p, root);
      n', p', c', t' := Locate(InLeft(c, n, t.red, t.right), t.left, n.left, n, root, e);
    } else {
      FocusRight(c, t, n, p, root);
      n', p', c', t' := Locate(InRight(c, t.left, n, t.red), t.right, n.right, n, root, e);
    }
  }

  lemma Children(c: Hole, t: Shape, n: RbEntry, root: RbEntry?)
    requires At(c, t, n, n.parent, root) && t.Node?
    ensures (n.left == null <==> t.left.Leaf?) && (n.right == null <==> t.right.Leaf?)
  {
    BelowRoot(t.left, n.left, n);
    BelowRoot(t.right, n.right, n);
  }

  lemma TopNodes(t: Shape)
    ensures HoleNodes(Top) + Nodes(t) == Nodes(t)
  {
  }

  lemma TopHole(c: Hole, x: RbEntry?, root: RbEntry?)
    requires HoleRep(c, x, null, root, null)
    ensures c.Top?
  {
  }

  lemma RotatedApart(a: Shape, x: RbEntry, cx: bool, b: Shape, y: RbEntry, cy: bool, d: Shape)
    ensures var t, t' := Node(a, x, cx, Node(b, y, cy, d)), Node(Node(a, x, cx, b), y, cy, d);
            && Nodes(t) == Nodes(a) + {x} + Nodes(b) + {y} + Nodes(d) == Nodes(t')
            && (Apart(t) <==> Apart(t'))
            && (Apart(t) ==>
                  && Apart(a) && Apart(b) && Apart(d) && x != y
                  && x !in Nodes(a) + Nodes(b) + Nodes(d) && y !in Nodes(a) + Nodes(b) + Nodes(d)
                  && Nodes(a) !! Nodes(b) && Nodes(a) !! Nodes(d) && Nodes(b) !! Nodes(d))
  {
    assert Nodes(Node(b, y, cy, d)) == Nodes(b) + {y} + Nodes(d);
    assert Nodes(Node(a, x, cx, b)) == Nodes(a) + {x} + Nodes(b);
    assert Apart(Node(b, y, cy, d)) <==> Apart(b) && Apart(d) && y !in Nodes(b) && y !in Nodes(d) && Nodes(b) !! Nodes(d);
    assert Apart(Node(a, x, cx, b)) <==> Apart(a) && Apart(b) && x !in Nodes(a) && x !in Nodes(b) && Nodes(a) !! Nodes(b);
  }

  // Moving the focus -------------------------------------------------------

  lemma FocusUp(c: Hole, t: Shape, n: RbEntry?, p: RbEntry, root: RbEntry?)
    requires At(c, t, n, p, root) && !c.Top?
    ensures p == c.elem && At(c.up, PlugOne(c, t), p, p.parent, root)
    ensures HoleNodes(c.up) + Nodes(PlugOne(c, t)) == HoleNodes(c) + Nodes(t)
  {
  }

  /** The same tree seen from the sibling. */
  lemma FocusAcross(c: Hole, t: Shape, n: RbEntry?, p: RbEntry, root: RbEntry?)
    requires At(c, t, n, p, root) && !c.Top?
    ensures c.InLeft? ==>
      var c' := InRight(c.up, t, c.elem, c.red);
      At(c', c.sib, p.right, p, root) && HoleNodes(c') + Nodes(c.sib) == HoleNodes(c) + Nodes(t)
    ensures c.InRight? ==>
      var c' := InLeft(c.up, c.elem, c.red, t);
      At(c', c.sib, p.left, p, root) && HoleNodes(c') + Nodes(c.sib) == HoleNodes(c) + Nodes(t)
  {
    FocusUp(c, t, n, p, root);
    if c.InLeft? {
      FocusRight(c.up, PlugOne(c, t), p, p.parent, root);
    } else {
      FocusLeft(c.up, PlugOne(c, t), p, p.parent, root);
    }
  }

  lemma {:induction false} FocusTop(c: Hole, t: Shape, n: RbEntry?, p: RbEntry?, root: RbEntry?)
    requires At(c, t, n, p, root)
    ensures At(Top, Plug(c, t), root, null, root)
    ensures Nodes(Plug(c, t)) == HoleNodes(c) + Nodes(t)
    decreases c
  {
    if !c.Top? {
      FocusUp(c, t, n, p, root);
      FocusTop(c.up, PlugOne(c, t), p, p.parent, root);
    }
  }

  lemma {:induction false} PlugNode(c: Hole, t: Shape)
    ensures t.Node? || !c.Top? ==> Plug(c, t).Node?
    decreases c
  {
    if !c.Top? { PlugNode(c.up, PlugOne(c, t)); }
  }

  /** From inside a subtree out to the node of which it is the right child. */
  lemma {:induction false} FocusOut(d: Hole, k: Hole, t: Shape, n: RbEntry?, p: RbEntry?, root: RbEntry?)
    requires At(Compose(d, k), t, n, p, root) && k.InRight?
    ensures At(k.up, Node(k.sib, k.elem, k.red, Plug(d, t)), k.elem, k.elem.parent, root)
    ensures HoleNodes(k.up) + Nodes(Node(k.sib, k.elem, k.red, Plug(d, t))) == HoleNodes(Compose(d, k)) + Nodes(t)
    decreases d
  {
    RootAt(Compose(d, k), t, n, p, root);
    FocusUp(Compose(d, k), t, n, p, root);
    if !d.Top? {
      FocusOut(d.up, k, PlugOne(d, t), p, p.parent, root);
    }
  }

  /** And back in. */
  lemma {:induction false} FocusIn(d: Hole, k: Hole, t: Shape, n: RbEntry?, p: RbEntry?, root: RbEntry?)
    returns (n': RbEntry?, p': RbEntry?)
    requires At(k, Plug(d, t), n, p, root)
    ensures At(Compose(d, k), t, n', p', root)
    ensures HoleNodes(Compose(d, k)) + Nodes(t) == HoleNodes(k) + Nodes(Plug(d, t))
    decreases d
  {
    n', p' := n, p;
    if !d.Top? {
      n', p' := FocusIn(d.up, k, PlugOne(d, t), n, p, root);
      RootAt(Compose(d.up, k), PlugOne(d, t), n', p', root);
      if d.InLeft? {
        FocusLeft(Compose(d.up, k), PlugOne(d, t), n', p', root);
        n', p' := n'.left, n';
      } else {
        FocusRight(Compose(d.up, k), PlugOne(d, t), n', p', root);
        n', p' := n'.right, n';
      }
    }
  }

  lemma FocusBack(d: Hole, c: Hole, t: Shape, u: Shape, m: RbEntry, root: RbEntry?) returns (n: RbEntry?, p: RbEntry?)
    requires t.Node? && t.right == Plug(d, u) && At(c, t, m, m.parent, root)
    ensures At(Compose(d, InRight(c, t.left, m, t.red)), u, n, p, root)
    ensures HoleNodes(Compose(d, InRight(c, t.left, m, t.red))) + Nodes(u) == HoleNodes(c) + Nodes(t)
  {
    FocusRight(c, t, m, m.parent, root);
    n, p := FocusIn(d, InRight(c, t.left, m, t.red), u, m.right, m, root);
  }

  lemma {:induction false} ComposeNodes(d: Hole, k: Hole)
    ensures HoleNodes(k) <= HoleNodes(Compose(d, k))
    ensures HoleApart(Compose(d, k)) && !d.Top? ==> d.elem !in HoleNodes(k)
    ensures !k.Top? ==> k.elem in HoleNodes(k)
    decreases d
  {
    if !d.Top? { ComposeNodes(d.up, k); }
  }

  lemma FocusLeft(c: Hole, t: Shape, n: RbEntry, p: RbEntry?, root: RbEntry?)
    requires At(c, t, n, p, root) && t.Node?
    ensures t.elem == n && At(InLeft(c, n, t.red, t.right), t.left, n.left, n, root)
    ensures HoleNodes(InLeft(c, n, t.red, t.right)) + Nodes(t.left) == HoleNodes(c) + Nodes(t)
  {
  }

  lemma FocusRight(c: Hole, t: Shape, n: RbEntry, p: RbEntry?, root: RbEntry?)
    requires At(c, t, n, p, root) && t.Node?
    ensures t.elem == n && At(InRight(c, t.left, n, t.red), t.right, n.right, n, root)
    ensures HoleNodes(InRight(c, t.left, n, t.red)) + Nodes(t.right) == HoleNodes(c) + Nodes(t)
  {
  }
}
