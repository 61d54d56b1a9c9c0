// The nodes of iot_data_map_t and the fields they must have to form a given tree: every pointer change
// is described node by node. A row is what one node's fields hold; a tree gives every one of its nodes
// a row, and a rotation, a splice or a new leaf changes the rows of a few nodes and of no others.
module TreeLinks {
  import opened DataOrder
  import opened RedBlackTree

  class Node {
    var parent: Node?
    var left: Node?
    var right: Node?
    var key: Data
    var value: Data
    var colour: Colour

    /** iot_node_alloc: a red node without children. */
    constructor (parent: Node?, key: Data, value: Data)
      ensures this.parent == parent && left == null && right == null
      ensures this.key == key && this.value == value && colour == Red
    {
      this.parent, left, right := parent, null, null;
      this.key, this.value, colour := key, value, Red;
    }

    ghost function Fields(): Row
      reads this
    {
      Row(parent, left, right, colour, Entry(key, value))
    }
  }

  type Shape = Tree<Node, Entry>
  type Path = Context<Node, Entry>

  // ---------------------------------------------------------------- what the heap must hold

  /** The fields of one node. */
  datatype Row = Row(parent: Node?, left: Node?, right: Node?, colour: Colour, entry: Entry)

  ghost function Ptr(t: Shape): Node? {
    if t.Leaf? then null else t.node
  }

  /** The parent of whatever is in the hole. */
  ghost function Above(c: Path): Node? {
    if c.Top? then null else c.node
  }

  /** The fields node n of t must have when the root of t has parent p. */
  ghost function RowIn(t: Shape, p: Node?, n: Node): Row
    requires n in Ids(t)
  {
    if n == t.node then Row(p, Ptr(t.left), Ptr(t.right), t.colour, t.entry)
    else if n in Ids(t.left) then RowIn(t.left, t.node, n)
    else RowIn(t.right, t.node, n)
  }

  /** The fields of the innermost node of a context. */
  ghost function HoleRow(c: Path, hole: Node?): Row
    requires !c.Top?
  {
    if c.InLeft? then Row(Above(c.up), hole, Ptr(c.right), c.colour, c.entry)
    else Row(Above(c.up), Ptr(c.left), hole, c.colour, c.entry)
  }

  ghost function ContextRow(c: Path, hole: Node?, n: Node): Row
    requires n in ContextIds(c)
  {
    if n == c.node then HoleRow(c, hole)
    else if n in Ids(Other(c)) then RowIn(Other(c), c.node, n)
    else ContextRow(c.up, c.node, n)
  }

  /** The root of the tree obtained by putting `hole` in the hole. */
  ghost function RootOf(c: Path, hole: Node?): Node? {
    if c.Top? then hole else RootOf(c.up, c.node)
  }

  lemma {:induction false} RowPlug(c: Path, t: Shape, n: Node)
    requires Distinct(Plug(c, t)) && n in Ids(Plug(c, t))
    ensures n in Ids(t) || n in ContextIds(c)
    ensures RowIn(Plug(c, t), null, n) == if n in Ids(t) then RowIn(t, Above(c), n) else ContextRow(c, Ptr(t), n)
    decreases c
  {
    IdsPlug(c, t);
    match c
    case Top =>
    case InLeft(m, colour, e, right, up) =>
      var f := Fork(m, colour, e, t, right);
      IdsPlug(up, f);
      RowPlug(up, f, n);
    case InRight(m, colour, e, left, up) =>
      var f := Fork(m, colour, e, left, t);
      IdsPlug(up, f);
      RowPlug(up, f, n);
  }

  lemma {:induction false} RootPlug(c: Path, t: Shape)
    ensures Ptr(Plug(c, t)) == RootOf(c, Ptr(t))
    decreases c
  {
    match c
    case Top =>
    case InLeft(m, colour, e, right, up) => RootPlug(up, Fork(m, colour, e, t, right));
    case InRight(m, colour, e, left, up) => RootPlug(up, Fork(m, colour, e, left, t));
  }

  /** The row of n with the child link on the side of the hole replaced, if n is next to the hole. */
  ghost function Reholed(r: Row, c: Path, n: Node, child: Node?): Row {
    if n != Above(c) then r else if c.InLeft? then r.(left := child) else r.(right := child)
  }

  /** Replacing the subtree in the hole by one over the same or other free nodes changes, outside the
      subtree, only the child link of the innermost context node. */
  lemma Replace(c: Path, t: Shape, u: Shape, n: Node)
    requires Distinct(Plug(c, t)) && Distinct(u) && ContextIds(c) !! Ids(u)
    requires n in Ids(Plug(c, u))
    ensures Distinct(Plug(c, u))
    ensures n in Ids(u) ==> RowIn(Plug(c, u), null, n) == RowIn(u, Above(c), n)
    ensures n !in Ids(u) ==> n in Ids(Plug(c, t))
    ensures n !in Ids(u) ==> RowIn(Plug(c, u), null, n) == Reholed(RowIn(Plug(c, t), null, n), c, n, Ptr(u))
  {
    IdsPlug(c, t);
    IdsPlug(c, u);
    RowPlug(c, u, n);
    if n !in Ids(u) { RowPlug(c, t, n); }
  }

  // ---------------------------------------------------------------- rotations

  ghost function RotatedLeft(t: Shape): Shape
    requires t.Fork? && t.right.Fork?
  {
    var y := t.right;
    Fork(y.node, y.colour, y.entry, Fork(t.node, t.colour, t.entry, t.left, y.left), y.right)
  }

  ghost function RotatedRight(t: Shape): Shape
    requires t.Fork? && t.left.Fork?
  {
    var y := t.left;
    Fork(y.node, y.colour, y.entry, y.left, Fork(t.node, t.colour, t.entry, y.right, t.right))
  }

  lemma RotatedLeftIds(t: Shape)
    requires t.Fork? && t.right.Fork?
    ensures Ids(RotatedLeft(t)) == Ids(t)
    ensures Distinct(t) ==> Distinct(RotatedLeft(t))
  {
    var y := t.right;
    var x := Fork(t.node, t.colour, t.entry, t.left, y.left);
    assert Ids(x) == Ids(t.left) + {t.node} + Ids(y.left);
    assert Ids(y) == Ids(y.left) + {y.node} + Ids(y.right);
    if Distinct(t) {
      assert Distinct(y);
      assert Distinct(x);
      assert y.node !in Ids(x) && Ids(x) !! Ids(y.right);
    }
  }

  lemma RotatedLeftRow(t: Shape, p: Node?, n: Node)
    requires t.Fork? && t.right.Fork? && Distinct(t) && n in Ids(t)
    ensures n in Ids(RotatedLeft(t))
    ensures RowIn(RotatedLeft(t), p, n) ==
      var r := RowIn(t, p, n);
      if n == t.node then r.(parent := t.right.node, right := Ptr(t.right.left))
      else if n == t.right.node then r.(parent := p, left := t.node)
      else if n == Ptr(t.right.left) then r.(parent := t.node)
      else r
  {
    RotatedLeftIds(t);
    var y := t.right;
    var x := Fork(t.node, t.colour, t.entry, t.left, y.left);
    assert Ids(x) == Ids(t.left) + {t.node} + Ids(y.left);
    assert Ids(y) == Ids(y.left) + {y.node} + Ids(y.right);
    if n in Ids(y.left) {
      assert RowIn(RotatedLeft(t), p, n) == RowIn(x, y.node, n) == RowIn(y.left, t.node, n);
      assert RowIn(t, p, n) == RowIn(y, t.node, n) == RowIn(y.left, y.node, n);
    }
  }

  lemma RotatedLeftPlug(c: Path, t: Shape)
    requires t.Fork? && t.right.Fork? && Distinct(Plug(c, t))
    ensures Distinct(Plug(c, RotatedLeft(t))) && Ids(Plug(c, RotatedLeft(t))) == Ids(Plug(c, t))
    ensures Ptr(Plug(c, RotatedLeft(t))) == if c.Top? then t.right.node else Ptr(Plug(c, t))
  {
    IdsPlug(c, t);
    RotatedLeftIds(t);
    IdsPlug(c, RotatedLeft(t));
    RootPlug(c, t);
    RootPlug(c, RotatedLeft(t));
  }

  /** The new fields of n when y = x->right is rotated above x: b is y's left child, p the parent of x. */
  ghost function RolRow(r: Row, n: Node, x: Node, y: Node, b: Node?, p: Node?, xIsLeft: bool): Row {
    if n == x then r.(parent := y, right := b)
    else if n == y then r.(parent := p, left := x)
    else if n == b then r.(parent := x)
    else if n == p then (if xIsLeft then r.(left := y) else r.(right := y))
    else r
  }

  lemma RotatedLeftPlugRow(c: Path, t: Shape, n: Node)
    requires t.Fork? && t.right.Fork? && Distinct(Plug(c, t)) && n in Ids(Plug(c, t))
    ensures n in Ids(Plug(c, RotatedLeft(t)))
    ensures RowIn(Plug(c, RotatedLeft(t)), null, n)
      == RolRow(RowIn(Plug(c, t), null, n), n, t.node, t.right.node, Ptr(t.right.left), Above(c), c.InLeft?)
  {
    IdsPlug(c, t);
    RotatedLeftIds(t);
    RotatedLeftPlug(c, t);
    Replace(c, t, RotatedLeft(t), n);
    RowPlug(c, t, n);
    if n in Ids(t) { RotatedLeftRow(t, Above(c), n); }
  }

  lemma RotatedRightIds(t: Shape)
    requires t.Fork? && t.left.Fork?
    ensures Ids(RotatedRight(t)) == Ids(t)
    ensures Distinct(t) ==> Distinct(RotatedRight(t))
  {
    var y := t.left;
    var x := Fork(t.node, t.colour, t.entry, y.right, t.right);
    assert Ids(x) == Ids(t.right) + {t.node} + Ids(y.right);
    assert Ids(y) == Ids(y.right) + {y.node} + Ids(y.left);
    if Distinct(t) {
      assert Distinct(y);
      assert Distinct(x);
      assert y.node !in Ids(x) && Ids(x) !! Ids(y.left);
    }
  }

  lemma RotatedRightRow(t: Shape, p: Node?, n: Node)
    requires t.Fork? && t.left.Fork? && Distinct(t) && n in Ids(t)
    ensures n in Ids(RotatedRight(t))
    ensures RowIn(RotatedRight(t), p, n) ==
      var r := RowIn(t, p, n);
      if n == t.node then r.(parent := t.left.node, left := Ptr(t.left.right))
      else if n == t.left.node then r.(parent := p, right := t.node)
      else if n == Ptr(t.left.right) then r.(parent := t.node)
      else r
  {
    RotatedRightIds(t);
    var y := t.left;
    var x := Fork(t.node, t.colour, t.entry, y.right, t.right);
    assert Ids(x) == Ids(t.right) + {t.node} + Ids(y.right);
    assert Ids(y) == Ids(y.right) + {y.node} + Ids(y.left);
    if n in Ids(y.right) {
      assert RowIn(RotatedRight(t), p, n) == RowIn(x, y.node, n) == RowIn(y.right, t.node, n);
      assert RowIn(t, p, n) == RowIn(y, t.node, n) == RowIn(y.right, y.node, n);
    }
  }

  lemma RotatedRightPlug(c: Path, t: Shape)
    requires t.Fork? && t.left.Fork? && Distinct(Plug(c, t))
    ensures Distinct(Plug(c, RotatedRight(t))) && Ids(Plug(c, RotatedRight(t))) == Ids(Plug(c, t))
    ensures Ptr(Plug(c, RotatedRight(t))) == if c.Top? then t.left.node else Ptr(Plug(c, t))
  {
    IdsPlug(c, t);
    RotatedRightIds(t);
    IdsPlug(c, RotatedRight(t));
    RootPlug(c, t);
    RootPlug(c, RotatedRight(t));
  }

  /** The mirror image: y = x->left is rotated above x, b is y's right child. */
  ghost function RorRow(r: Row, n: Node, x: Node, y: Node, b: Node?, p: Node?, xIsLeft: bool): Row {
    if n == x then r.(parent := y, left := b)
    else if n == y then r.(parent := p, right := x)
    else if n == b then r.(parent := x)
    else if n == p then (if xIsLeft then r.(left := y) else r.(right := y))
    else r
  }

  lemma RotatedRightPlugRow(c: Path, t: Shape, n: Node)
    requires t.Fork? && t.left.Fork? && Distinct(Plug(c, t)) && n in Ids(Plug(c, t))
    ensures n in Ids(Plug(c, RotatedRight(t)))
    ensures RowIn(Plug(c, RotatedRight(t)), null, n)
      == RorRow(RowIn(Plug(c, t), null, n), n, t.node, t.left.node, Ptr(t.left.right), Above(c), c.InLeft?)
  {
    IdsPlug(c, t);
    RotatedRightIds(t);
    RotatedRightPlug(c, t);
    Replace(c, t, RotatedRight(t), n);
    RowPlug(c, t, n);
    if n in Ids(t) { RotatedRightRow(t, Above(c), n); }
  }

  // ---------------------------------------------------------------- painting and substitution

  lemma PaintedPlug(c: Path, t: Shape, colour: Colour)
    requires t.Fork? && Distinct(Plug(c, t))
    ensures Distinct(Plug(c, Painted(t, colour))) && Ids(Plug(c, Painted(t, colour))) == Ids(Plug(c, t))
    ensures Ptr(Plug(c, Painted(t, colour))) == Ptr(Plug(c, t))
  {
    IdsPlug(c, t);
    IdsPlug(c, Painted(t, colour));
    RootPlug(c, t);
    RootPlug(c, Painted(t, colour));
  }

  lemma PaintedPlugRow(c: Path, t: Shape, colour: Colour, n: Node)
    requires t.Fork? && Distinct(Plug(c, t)) && n in Ids(Plug(c, t))
    ensures n in Ids(Plug(c, Painted(t, colour)))
    ensures RowIn(Plug(c, Painted(t, colour)), null, n) ==
      var r := RowIn(Plug(c, t), null, n);
      if n == t.node then r.(colour := colour) else r
  {
    IdsPlug(c, t);
    PaintedPlug(c, t, colour);
    Replace(c, t, Painted(t, colour), n);
    RowPlug(c, t, n);
  }

  /** u is t with another value in its root. */
  ghost predicate Valued(t: Shape, u: Shape) {
    t.Fork? && u.Fork? && u == t.(entry := Entry(t.entry.key, u.entry.value))
  }

  lemma ValuedPlug(c: Path, t: Shape, u: Shape)
    requires Valued(t, u) && Distinct(Plug(c, t))
    ensures Distinct(Plug(c, u)) && Ids(Plug(c, u)) == Ids(Plug(c, t)) && Ptr(Plug(c, u)) == Ptr(Plug(c, t))
  {
    IdsPlug(c, t);
    IdsPlug(c, u);
    RootPlug(c, t);
    RootPlug(c, u);
  }

  lemma ValuedPlugRow(c: Path, t: Shape, u: Shape, n: Node)
    requires Valued(t, u) && Distinct(Plug(c, t)) && n in Ids(Plug(c, t))
    ensures n in Ids(Plug(c, u))
    ensures RowIn(Plug(c, u), null, n) ==
      var r := RowIn(Plug(c, t), null, n);
      if n == t.node then r.(entry := u.entry) else r
  {
    IdsPlug(c, t);
    ValuedPlug(c, t, u);
    Replace(c, t, u, n);
    RowPlug(c, t, n);
  }

  ghost function Single(n: Node, e: Entry): Shape {
    Fork(n, Red, e, Leaf, Leaf)
  }

  lemma AttachedPlug(c: Path, n: Node, e: Entry)
    requires Distinct(Plug(c, Leaf)) && n !in Ids(Plug(c, Leaf))
    ensures Distinct(Plug(c, Single(n, e))) && Ids(Plug(c, Single(n, e))) == Ids(Plug(c, Leaf)) + {n}
    ensures Ptr(Plug(c, Single(n, e))) == if c.Top? then n else Ptr(Plug(c, Leaf))
  {
    IdsPlug(c, Leaf);
    IdsPlug(c, Single(n, e));
    RootPlug(c, Leaf);
    RootPlug(c, Single(n, e));
  }

  lemma AttachedPlugRow(c: Path, n: Node, e: Entry, m: Node)
    requires Distinct(Plug(c, Leaf)) && n !in Ids(Plug(c, Leaf)) && m in Ids(Plug(c, Single(n, e)))
    ensures m == n ==> RowIn(Plug(c, Single(n, e)), null, m) == Row(Above(c), null, null, Red, e)
    ensures m != n ==> m in Ids(Plug(c, Leaf))
    ensures m != n ==> RowIn(Plug(c, Single(n, e)), null, m) == Reholed(RowIn(Plug(c, Leaf), null, m), c, m, n)
  {
    IdsPlug(c, Leaf);
    AttachedPlug(c, n, e);
    Replace(c, Leaf, Single(n, e), m);
  }

  // ---------------------------------------------------------------- taking nodes out

  /** The new fields of n when v takes the place of a child of p. */
  ghost function TransplantRow(r: Row, n: Node, v: Node?, p: Node?, onLeft: bool): Row {
    if n == p then (if onLeft then r.(left := v) else r.(right := v))
    else if n == v then r.(parent := p)
    else r
  }

  /** u is what remains of t when its root, having at most one child, is taken out. */
  ghost predicate Spliced(t: Shape, u: Shape) {
    t.Fork? && ((t.left.Leaf? && u == t.right) || (t.right.Leaf? && u == t.left))
  }

  lemma SplicedPlug(c: Path, t: Shape, u: Shape)
    requires Spliced(t, u) && Distinct(Plug(c, t))
    ensures Distinct(Plug(c, u)) && Ids(Plug(c, u)) == Ids(Plug(c, t)) - {t.node}
    ensures Ptr(Plug(c, u)) == if c.Top? then Ptr(u) else Ptr(Plug(c, t))
    ensures Ptr(u) != null ==> Ptr(u) in Ids(Plug(c, u)) && Ptr(u) != Above(c)
  {
    IdsPlug(c, t);
    IdsPlug(c, u);
    RootPlug(c, t);
    RootPlug(c, u);
  }

  lemma SplicedPlugRow(c: Path, t: Shape, u: Shape, n: Node)
    requires Spliced(t, u) && Distinct(Plug(c, t)) && n in Ids(Plug(c, u))
    ensures n in Ids(Plug(c, t))
    ensures RowIn(Plug(c, u), null, n) == TransplantRow(RowIn(Plug(c, t), null, n), n, Ptr(u), Above(c), c.InLeft?)
  {
    IdsPlug(c, t);
    SplicedPlug(c, t, u);
    IdsPlug(c, u);
    Replace(c, t, u, n);
    RowPlug(c, t, n);
    if n in Ids(u) {
      assert n in Ids(t) && n != t.node;
      assert RowIn(t, Above(c), n) == RowIn(u, t.node, n);
    }
  }

  /** The new fields of n when y takes over the parent, the left child l and the colour of another node. */
  ghost function TakeRow(r: Row, n: Node, y: Node, l: Node?, p: Node?, colour: Colour, onLeft: bool): Row {
    if n == y then r.(parent := p, left := l, colour := colour)
    else if n == l then r.(parent := y)
    else if n == p then (if onLeft then r.(left := y) else r.(right := y))
    else r
  }

  /** The new fields of n != y when y takes over the parent and both children, l and r, of another node. */
  ghost function TakeBothRow(o: Row, n: Node, y: Node, l: Node?, r: Node?, p: Node?, onLeft: bool): Row {
    if n == l || n == r then o.(parent := y) else TransplantRow(o, n, y, p, onLeft)
  }

  /** The right child of a node, without a left child of its own, takes the node's place. */
  ghost function NearTaken(t: Shape): Shape
    requires t.Fork? && t.right.Fork?
  {
    Fork(t.right.node, t.colour, t.right.entry, t.left, t.right.right)
  }

  lemma NearTakenPlug(c: Path, t: Shape)
    requires t.Fork? && t.left.Fork? && t.right.Fork? && t.right.left.Leaf? && Distinct(Plug(c, t))
    ensures var u := NearTaken(t);
      && Distinct(u) && Ids(u) == Ids(t) - {t.node} && ContextIds(c) !! Ids(u)
      && Distinct(Plug(c, u)) && Ids(Plug(c, u)) == Ids(Plug(c, t)) - {t.node}
      && Ptr(Plug(c, u)) == if c.Top? then u.node else Ptr(Plug(c, t))
  {
    var u := NearTaken(t);
    IdsPlug(c, t);
    assert Ids(t.right) == {t.right.node} + Ids(t.right.right);
    assert Distinct(t.right);
    IdsPlug(c, u);
    RootPlug(c, t);
    RootPlug(c, u);
  }

  lemma NearTakenRow(c: Path, t: Shape, n: Node)
    requires t.Fork? && t.left.Fork? && t.right.Fork? && t.right.left.Leaf? && Distinct(Plug(c, t))
    requires n in Ids(Plug(c, NearTaken(t)))
    ensures n in Ids(Plug(c, t))
    ensures RowIn(Plug(c, NearTaken(t)), null, n)
      == TakeRow(RowIn(Plug(c, t), null, n), n, t.right.node, t.left.node, Above(c), t.colour, c.InLeft?)
  {
    var u := NearTaken(t);
    IdsPlug(c, t);
    NearTakenPlug(c, t);
    Replace(c, t, u, n);
    RowPlug(c, t, n);
    if n in Ids(u) {
      assert RowIn(u, Above(c), n) == TakeRow(RowIn(t, Above(c), n), n, t.right.node, t.left.node, Above(c), t.colour, c.InLeft?) by {
        NearTakenLocal(t, Above(c), c.InLeft?, n);
      }
    }
  }

  lemma NearTakenLocal(t: Shape, p: Node?, onLeft: bool, n: Node)
    requires t.Fork? && t.left.Fork? && t.right.Fork? && t.right.left.Leaf? && Distinct(t)
    requires p != null ==> p !in Ids(t)
    requires n in Ids(NearTaken(t))
    ensures n in Ids(t)
    ensures RowIn(NearTaken(t), p, n) == TakeRow(RowIn(t, p, n), n, t.right.node, t.left.node, p, t.colour, onLeft)
  {
    var y := t.right;
    assert Ids(y) == {y.node} + Ids(y.right);
    assert t.left.node in Ids(t.left);
    if n in Ids(y.right) {
      assert RowIn(t, p, n) == RowIn(y, t.node, n) == RowIn(y.right, y.node, n);
    }
  }

  /** A node outside the tree takes the place of a node with two children. */
  ghost function Substituted(t: Shape, y: Node, e: Entry): Shape
    requires t.Fork?
  {
    Fork(y, t.colour, e, t.left, t.right)
  }

  ghost function SubstRow(r: Row, c: Path, t: Shape, n: Node, y: Node): Row
    requires t.Fork?
  {
    if n == Ptr(t.left) || n == Ptr(t.right) then r.(parent := y) else Reholed(r, c, n, y)
  }

  lemma SubstitutedPlug(c: Path, t: Shape, y: Node, e: Entry)
    requires t.Fork? && Distinct(Plug(c, t)) && y !in Ids(Plug(c, t))
    ensures var u := Substituted(t, y, e);
      && Distinct(u) && ContextIds(c) !! Ids(u)
      && Distinct(Plug(c, u)) && Ids(Plug(c, u)) == Ids(Plug(c, t)) - {t.node} + {y}
      && Ptr(Plug(c, u)) == if c.Top? then y else Ptr(Plug(c, t))
  {
    var u := Substituted(t, y, e);
    IdsPlug(c, t);
    IdsPlug(c, u);
    RootPlug(c, t);
    RootPlug(c, u);
  }

  lemma SubstitutedRow(c: Path, t: Shape, y: Node, e: Entry, n: Node)
    requires t.Fork? && Distinct(Plug(c, t)) && y !in Ids(Plug(c, t))
    requires n in Ids(Plug(c, Substituted(t, y, e)))
    ensures n == y ==> RowIn(Plug(c, Substituted(t, y, e)), null, n) == Row(Above(c), Ptr(t.left), Ptr(t.right), t.colour, e)
    ensures n != y ==> n in Ids(Plug(c, t))
    ensures n != y ==> RowIn(Plug(c, Substituted(t, y, e)), null, n) == SubstRow(RowIn(Plug(c, t), null, n), c, t, n, y)
  {
    var u := Substituted(t, y, e);
    IdsPlug(c, t);
    SubstitutedPlug(c, t, y, e);
    Replace(c, t, u, n);
    if n != y { RowPlug(c, t, n); }
    assert t.left.Fork? ==> t.left.node in Ids(t.left);
    assert t.right.Fork? ==> t.right.node in Ids(t.right);
  }
}
