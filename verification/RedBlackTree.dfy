// Red/black trees as values, and the paths into them.
module RedBlackTree {
  // A path from a node up to the root is a one-hole context. N identifies tree nodes, E is what a node carries.
  datatype Colour = Black | Red

  datatype Tree<N, E> =
    | Leaf
    | Fork(node: N, colour: Colour, entry: E, left: Tree<N, E>, right: Tree<N, E>)

  /** The tree around a hole. InLeft: the hole is the left child of `node`. */
  datatype Context<N, E> =
    | Top
    | InLeft(node: N, colour: Colour, entry: E, right: Tree<N, E>, up: Context<N, E>)
    | InRight(node: N, colour: Colour, entry: E, left: Tree<N, E>, up: Context<N, E>)

  ghost function Plug<N, E>(c: Context<N, E>, t: Tree<N, E>): Tree<N, E>
    decreases c
  {
    match c
    case Top => t
    case InLeft(n, colour, e, right, up) => Plug(up, Fork(n, colour, e, t, right))
    case InRight(n, colour, e, left, up) => Plug(up, Fork(n, colour, e, left, t))
  }

  ghost function Depth<N, E>(c: Context<N, E>): nat {
    if c.Top? then 0 else 1 + Depth(c.up)
  }

  // ---------------------------------------------------------------- contents and identity

  ghost function Inorder<N, E>(t: Tree<N, E>): seq<E> {
    match t
    case Leaf => []
    case Fork(_, _, e, l, r) => Inorder(l) + [e] + Inorder(r)
  }

  /** Entries before the hole, and after it. */
  ghost function Before<N, E>(c: Context<N, E>): seq<E> {
    match c
    case Top => []
    case InLeft(_, _, _, _, up) => Before(up)
    case InRight(_, _, e, l, up) => Before(up) + Inorder(l) + [e]
  }

  ghost function After<N, E>(c: Context<N, E>): seq<E> {
    match c
    case Top => []
    case InLeft(_, _, e, r, up) => [e] + Inorder(r) + After(up)
    case InRight(_, _, _, _, up) => After(up)
  }

  lemma {:induction false} InorderPlug<N, E>(c: Context<N, E>, t: Tree<N, E>)
    ensures Inorder(Plug(c, t)) == Before(c) + Inorder(t) + After(c)
    decreases c
  {
    match c
    case Top =>
    case InLeft(n, colour, e, right, up) => InorderPlug(up, Fork(n, colour, e, t, right));
    case InRight(n, colour, e, left, up) => InorderPlug(up, Fork(n, colour, e, left, t));
  }

  /** The nodes in search order. */
  ghost function Nodes<N, E>(t: Tree<N, E>): seq<N> {
    match t
    case Leaf => []
    case Fork(n, _, _, l, r) => Nodes(l) + [n] + Nodes(r)
  }

  ghost function Ids<N, E>(t: Tree<N, E>): set<N> {
    match t
    case Leaf => {}
    case Fork(n, _, _, l, r) => Ids(l) + {n} + Ids(r)
  }

  ghost function ContextIds<N, E>(c: Context<N, E>): set<N> {
    match c
    case Top => {}
    case InLeft(n, _, _, r, up) => Ids(r) + {n} + ContextIds(up)
    case InRight(n, _, _, l, up) => Ids(l) + {n} + ContextIds(up)
  }

  /** No node occurs twice. */
  ghost predicate Distinct<N, E>(t: Tree<N, E>) {
    match t
    case Leaf => true
    case Fork(n, _, _, l, r) =>
      n !in Ids(l) && n !in Ids(r) && Ids(l) !! Ids(r) && Distinct(l) && Distinct(r)
  }

  ghost predicate ContextDistinct<N, E>(c: Context<N, E>) {
    match c
    case Top => true
    case InLeft(n, _, _, r, up) =>
      n !in Ids(r) && n !in ContextIds(up) && Ids(r) !! ContextIds(up) && Distinct(r) && ContextDistinct(up)
    case InRight(n, _, _, l, up) =>
      n !in Ids(l) && n !in ContextIds(up) && Ids(l) !! ContextIds(up) && Distinct(l) && ContextDistinct(up)
  }

  lemma {:induction false} IdsPlug<N, E>(c: Context<N, E>, t: Tree<N, E>)
    ensures Ids(Plug(c, t)) == ContextIds(c) + Ids(t)
    ensures Distinct(Plug(c, t)) <==> ContextDistinct(c) && Distinct(t) && ContextIds(c) !! Ids(t)
    decreases c
  {
    match c
    case Top =>
    case InLeft(n, colour, e, right, up) => IdsPlug(up, Fork(n, colour, e, t, right));
    case InRight(n, colour, e, left, up) => IdsPlug(up, Fork(n, colour, e, left, t));
  }

  ghost function Size<N, E>(t: Tree<N, E>): nat {
    match t
    case Leaf => 0
    case Fork(_, _, _, l, r) => Size(l) + 1 + Size(r)
  }

  lemma {:induction false} SizeIsLength<N, E>(t: Tree<N, E>)
    ensures Size(t) == |Inorder(t)| == |Nodes(t)|
  {
    if t.Fork? {
      SizeIsLength(t.left);
      SizeIsLength(t.right);
    }
  }

  // ---------------------------------------------------------------- the red rule

  ghost predicate IsRed<N, E>(t: Tree<N, E>) {
    t.Fork? && t.colour == Red
  }

  /** No red node has a red child. */
  ghost predicate RedRule<N, E>(t: Tree<N, E>) {
    match t
    case Leaf => true
    case Fork(_, c, _, l, r) =>
      (c == Red ==> !IsRed(l) && !IsRed(r)) && RedRule(l) && RedRule(r)
  }

  ghost predicate RedAbove<N, E>(c: Context<N, E>) {
    !c.Top? && c.colour == Red
  }

  ghost function Other<N, E>(c: Context<N, E>): Tree<N, E>
    requires !c.Top?
  {
    if c.InLeft? then c.right else c.left
  }

  /** The red rule for everything but the hole. */
  ghost predicate ContextRedRule<N, E>(c: Context<N, E>) {
    c.Top? ||
    (RedRule(Other(c)) && (c.colour == Red ==> !IsRed(Other(c)) && !RedAbove(c.up)) && ContextRedRule(c.up))
  }

  lemma {:induction false} RedRulePlug<N, E>(c: Context<N, E>, t: Tree<N, E>)
    ensures RedRule(Plug(c, t)) <==> ContextRedRule(c) && RedRule(t) && !(RedAbove(c) && IsRed(t))
    decreases c
  {
    match c
    case Top =>
    case InLeft(n, colour, e, right, up) => RedRulePlug(up, Fork(n, colour, e, t, right));
    case InRight(n, colour, e, left, up) => RedRulePlug(up, Fork(n, colour, e, left, t));
  }

  /** The node at the top of a context is black. */
  ghost predicate BlackRoot<N, E>(c: Context<N, E>) {
    c.Top? || (if c.up.Top? then c.colour == Black else BlackRoot(c.up))
  }

  lemma {:induction false} BlackRootPlug<N, E>(c: Context<N, E>, t: Tree<N, E>)
    ensures !IsRed(Plug(c, t)) <==> if c.Top? then !IsRed(t) else BlackRoot(c)
    decreases c
  {
    match c
    case Top =>
    case InLeft(n, colour, e, right, up) => BlackRootPlug(up, Fork(n, colour, e, t, right));
    case InRight(n, colour, e, left, up) => BlackRootPlug(up, Fork(n, colour, e, left, t));
  }

  /** The colouring invariant of a stored tree: black root, no red node below a red node. */
  ghost predicate Coloured<N, E>(t: Tree<N, E>) {
    !IsRed(t) && RedRule(t)
  }

  // ---------------------------------------------------------------- black height

  ghost function Weight(c: Colour): nat {
    if c == Black then 1 else 0
  }

  /** Black nodes on the leftmost path. */
  ghost function BlackHeight<N, E>(t: Tree<N, E>): nat {
    match t
    case Leaf => 0
    case Fork(_, c, _, l, _) => BlackHeight(l) + Weight(c)
  }

  /** Every path to a missing child has the same number of black nodes. */
  ghost predicate Balanced<N, E>(t: Tree<N, E>) {
    match t
    case Leaf => true
    case Fork(_, _, _, l, r) => BlackHeight(l) == BlackHeight(r) && Balanced(l) && Balanced(r)
  }

  /** Plugging a balanced tree of black height h gives a balanced tree. */
  ghost predicate ContextBalanced<N, E>(c: Context<N, E>, h: nat) {
    c.Top? ||
    (Balanced(Other(c)) && BlackHeight(Other(c)) == h && ContextBalanced(c.up, h + Weight(c.colour)))
  }

  lemma {:induction false} BalancedPlug<N, E>(c: Context<N, E>, t: Tree<N, E>)
    ensures Balanced(Plug(c, t)) <==> Balanced(t) && ContextBalanced(c, BlackHeight(t))
    decreases c
  {
    match c
    case Top =>
    case InLeft(n, colour, e, right, up) => BalancedPlug(up, Fork(n, colour, e, t, right));
    case InRight(n, colour, e, left, up) => BalancedPlug(up, Fork(n, colour, e, left, t));
  }

  ghost function Height<N, E>(t: Tree<N, E>): nat {
    match t
    case Leaf => 0
    case Fork(_, _, _, l, r) => 1 + if Height(l) > Height(r) then Height(l) else Height(r)
  }

  ghost function Pow2(n: nat): nat {
    if n == 0 then 1 else 2 * Pow2(n - 1)
  }

  lemma {:induction false} Pow2Sum(m: nat, n: nat)
    ensures Pow2(m + n) == Pow2(m) * Pow2(n)
  {
    if m != 0 { Pow2Sum(m - 1, n); }
  }

  lemma {:induction false} Pow2Monotone(m: nat, n: nat)
    requires m <= n
    ensures Pow2(m) <= Pow2(n)
  {
    if m < n { Pow2Monotone(m, n - 1); }
  }

  lemma SquareMonotone(m: nat, n: nat)
    requires m <= n
    ensures m * m <= n * n
  {
    assert m * m <= m * n <= n * n;
  }

  lemma {:induction false} BlackHeightBounds<N, E>(t: Tree<N, E>)
    requires RedRule(t) && Balanced(t)
    ensures Pow2(BlackHeight(t)) <= Size(t) + 1
    ensures Height(t) <= 2 * BlackHeight(t) + (if IsRed(t) then 1 else 0)
  {
    if t.Fork? {
      BlackHeightBounds(t.left);
      BlackHeightBounds(t.right);
    }
  }

  /** A balanced, correctly coloured tree of n entries has height at most 2 log2 (n + 1). */
  lemma HeightIsLogarithmic<N, E>(t: Tree<N, E>)
    requires Coloured(t) && Balanced(t)
    ensures Pow2(Height(t)) <= (Size(t) + 1) * (Size(t) + 1)
  {
    var h := BlackHeight(t);
    BlackHeightBounds(t);
    Pow2Monotone(Height(t), h + h);
    Pow2Sum(h, h);
    SquareMonotone(Pow2(h), Size(t) + 1);
  }

  // ---------------------------------------------------------------- replacing a subtree

  /** The innermost context node, painted, with t in its hole. */
  ghost function Around<N, E>(c: Context<N, E>, colour: Colour, t: Tree<N, E>): Tree<N, E>
    requires !c.Top?
  {
    if c.InLeft? then Fork(c.node, colour, c.entry, t, c.right)
    else Fork(c.node, colour, c.entry, c.left, t)
  }

  ghost function Painted<N, E>(t: Tree<N, E>, colour: Colour): Tree<N, E> {
    if t.Leaf? then t else t.(colour := colour)
  }

  /** Same entries in the same order, same nodes. */
  ghost predicate SameContents<N, E>(t: Tree<N, E>, u: Tree<N, E>) {
    Inorder(u) == Inorder(t) && Ids(u) == Ids(t)
  }

  /** u may stand in for t anywhere: same entries, same nodes, and no loss of balance. */
  ghost predicate Equivalent<N, E>(t: Tree<N, E>, u: Tree<N, E>) {
    && SameContents(t, u)
    && (Balanced(t) ==> Balanced(u) && BlackHeight(u) == BlackHeight(t))
  }

  lemma EquivalentPlug<N, E>(c: Context<N, E>, t: Tree<N, E>, u: Tree<N, E>)
    requires Equivalent(t, u)
    ensures Inorder(Plug(c, u)) == Inorder(Plug(c, t)) && Ids(Plug(c, u)) == Ids(Plug(c, t))
    ensures Balanced(Plug(c, t)) ==> Balanced(Plug(c, u))
  {
    InorderPlug(c, t);
    InorderPlug(c, u);
    IdsPlug(c, t);
    IdsPlug(c, u);
    BalancedPlug(c, t);
    BalancedPlug(c, u);
  }

  // ---------------------------------------------------------------- repairing an insertion

  /** The state of the repair: t is red and the only possible fault is a red node just above it. */
  ghost predicate Pending<N, E>(c: Context<N, E>, t: Tree<N, E>) {
    IsRed(t) && RedRule(t) && ContextRedRule(c) && BlackRoot(c)
  }

  /** The black root is what guarantees that a red parent has a parent, and a black one. */
  lemma GrandparentExists<N, E>(c: Context<N, E>)
    requires ContextRedRule(c) && BlackRoot(c) && RedAbove(c)
    ensures !c.up.Top? && c.up.colour == Black
    ensures ContextRedRule(c.up) && ContextRedRule(c.up.up) && BlackRoot(c.up) && BlackRoot(c.up.up)
  {
    assert ContextRedRule(c.up) && BlackRoot(c.up);
  }

  /** The grandparent's subtree. */
  ghost function Grand<N, E>(c: Context<N, E>, t: Tree<N, E>): Tree<N, E>
    requires !c.Top? && !c.up.Top?
  {
    Around(c.up, c.up.colour, Around(c, c.colour, t))
  }

  /** Painting a red root black changes nothing but the colouring and the black height. */
  lemma PaintedBlack<N, E>(t: Tree<N, E>)
    requires IsRed(t)
    ensures var b := Painted(t, Black);
      && Inorder(b) == Inorder(t) && Ids(b) == Ids(t)
      && Balanced(b) == Balanced(t) && BlackHeight(b) == BlackHeight(t) + 1
  {
  }

  /** The context with the sibling of the hole replaced. */
  ghost function WithOther<N, E>(c: Context<N, E>, u: Tree<N, E>): Context<N, E>
    requires !c.Top?
  {
    if c.InLeft? then c.(right := u) else c.(left := u)
  }

  /** Case 3.1: parent and uncle black, grandparent red. */
  ghost function Recoloured<N, E>(c: Context<N, E>, t: Tree<N, E>): Tree<N, E>
    requires !c.Top? && !c.up.Top?
  {
    Around(WithOther(c.up, Painted(Other(c.up), Black)), Red, Around(c, Black, t))
  }

  lemma RecolouredIsPending<N, E>(c: Context<N, E>, t: Tree<N, E>)
    requires Pending(c, t) && RedAbove(c) && !c.up.Top? && IsRed(Other(c.up))
    ensures Pending(c.up.up, Recoloured(c, t))
    ensures Equivalent(Grand(c, t), Recoloured(c, t))
  {
    GrandparentExists(c);
    PaintedBlack(Around(c, Red, t));
    PaintedBlack(Other(c.up));
  }

  /** Case 3.2.2, the node is the inner grandchild: its parent becomes the node to repair. */
  ghost function InnerContext<N, E>(c: Context<N, E>, t: Tree<N, E>): Context<N, E>
    requires !c.Top? && t.Fork?
  {
    if c.InLeft? then InRight(t.node, t.colour, t.entry, t.left, c.up)
    else InLeft(t.node, t.colour, t.entry, t.right, c.up)
  }

  ghost function InnerTree<N, E>(c: Context<N, E>, t: Tree<N, E>): Tree<N, E>
    requires !c.Top? && t.Fork?
  {
    if c.InLeft? then Fork(c.node, c.colour, c.entry, t.right, c.right)
    else Fork(c.node, c.colour, c.entry, c.left, t.left)
  }

  lemma InnerIsPending<N, E>(c: Context<N, E>, t: Tree<N, E>)
    requires Pending(c, t) && RedAbove(c)
    ensures Pending(InnerContext(c, t), InnerTree(c, t)) && RedAbove(InnerContext(c, t))
  {
  }

  lemma InnerContents<N, E>(c: Context<N, E>, t: Tree<N, E>)
    requires IsRed(t) && RedAbove(c)
    ensures SameContents(Around(c, c.colour, t), Around(InnerContext(c, t), t.colour, InnerTree(c, t)))
  {
    var u := InnerTree(c, t);
    assert Ids(u) == if c.InLeft? then Ids(t.right) + {c.node} + Ids(c.right) else Ids(c.left) + {c.node} + Ids(t.left);
    if c.InLeft? {
      assert Inorder(t.left) + [t.entry] + Inorder(t.right) + [c.entry] + Inorder(c.right) ==
        Inorder(t.left) + [t.entry] + (Inorder(t.right) + [c.entry] + Inorder(c.right));
    } else {
      assert Inorder(c.left) + [c.entry] + (Inorder(t.left) + [t.entry] + Inorder(t.right)) ==
        Inorder(c.left) + [c.entry] + Inorder(t.left) + [t.entry] + Inorder(t.right);
    }
  }

  lemma InnerIsEquivalent<N, E>(c: Context<N, E>, t: Tree<N, E>)
    requires IsRed(t) && RedAbove(c)
    ensures Equivalent(Around(c, c.colour, t), Around(InnerContext(c, t), t.colour, InnerTree(c, t)))
  {
    hide Inorder, Ids;
    var u := InnerTree(c, t);
    InnerContents(c, t);
    if Balanced(Around(c, c.colour, t)) {
      assert Balanced(t) && Balanced(u) && BlackHeight(t) == BlackHeight(u);
      assert BlackHeight(t) == BlackHeight(t.left) == BlackHeight(t.right);
    }
  }

  /** Case 3.2.1, the node is the outer grandchild: the parent, black, takes the place of the
      grandparent, red. */
  ghost function Raised<N, E>(c: Context<N, E>): Context<N, E>
    requires !c.Top? && !c.up.Top?
  {
    var g := c.up;
    if c.InLeft? then InLeft(c.node, Black, c.entry, Fork(g.node, Red, g.entry, c.right, Other(g)), g.up)
    else InRight(c.node, Black, c.entry, Fork(g.node, Red, g.entry, Other(g), c.left), g.up)
  }

  lemma RaisedIsPending<N, E>(c: Context<N, E>, t: Tree<N, E>)
    requires Pending(c, t) && RedAbove(c) && !c.up.Top? && !IsRed(Other(c.up))
    requires c.InLeft? == c.up.InLeft?
    ensures Pending(Raised(c), t) && !RedAbove(Raised(c))
  {
    GrandparentExists(c);
  }

  lemma RaisedIsEquivalent<N, E>(c: Context<N, E>, t: Tree<N, E>)
    requires RedAbove(c) && !c.up.Top? && c.up.colour == Black && c.InLeft? == c.up.InLeft?
    ensures Equivalent(Grand(c, t), Around(Raised(c), Black, t))
  {
    var g, p, h := c.up, Around(c, Red, t), Other(Raised(c));
    RaisedContents(c, t);
    if Balanced(Grand(c, t)) {
      assert Balanced(p) && BlackHeight(p) == BlackHeight(t) == BlackHeight(Other(c)) == BlackHeight(Other(g));
      assert Balanced(h) && BlackHeight(h) == BlackHeight(t);
    }
  }

  lemma RaisedContents<N, E>(c: Context<N, E>, t: Tree<N, E>)
    requires !c.Top? && !c.up.Top? && c.InLeft? == c.up.InLeft?
    ensures SameContents(Grand(c, t), Around(Raised(c), Black, t))
  {
    RaisedEntries(c, t);
    var g, p, h := c.up, Around(c, c.colour, t), Other(Raised(c));
    assert Ids(p) == Ids(t) + {c.node} + Ids(Other(c)) && Ids(h) == Ids(Other(c)) + {g.node} + Ids(Other(g));
    hide Inorder;
  }

  lemma RaisedEntries<N, E>(c: Context<N, E>, t: Tree<N, E>)
    requires !c.Top? && !c.up.Top? && c.InLeft? == c.up.InLeft?
    ensures Inorder(Around(Raised(c), Black, t)) == Inorder(Grand(c, t))
  {
    hide Ids;
    var g, p, h := c.up, Around(c, c.colour, t), Other(Raised(c));
    if c.InLeft? {
      assert Inorder(p) == Inorder(t) + [c.entry] + Inorder(c.right);
      assert Inorder(h) == Inorder(c.right) + [g.entry] + Inorder(g.right);
    } else {
      assert Inorder(p) == Inorder(c.left) + [c.entry] + Inorder(t);
      assert Inorder(h) == Inorder(g.left) + [g.entry] + Inorder(c.left);
    }
  }

  // ---------------------------------------------------------------- repairing a removal

  lemma SameContentsPlug<N, E>(c: Context<N, E>, t: Tree<N, E>, u: Tree<N, E>)
    requires SameContents(t, u)
    ensures SameContents(Plug(c, t), Plug(c, u))
  {
    InorderPlug(c, t);
    InorderPlug(c, u);
    IdsPlug(c, t);
    IdsPlug(c, u);
  }

  /** The state of the repair after a removal: t takes the place of a black node that went away. Its
      root may be red below a red node or above one, which painting it black puts right. */
  ghost predicate Short<N, E>(c: Context<N, E>, t: Tree<N, E>) {
    t.Fork? && RedRule(Painted(t, Black)) && ContextRedRule(c) && BlackRoot(c)
  }

  /** What the final painting establishes. */
  lemma ShortPainted<N, E>(c: Context<N, E>, t: Tree<N, E>)
    requires Short(c, t)
    ensures Coloured(Plug(c, Painted(t, Black)))
    ensures SameContents(Plug(c, t), Plug(c, Painted(t, Black)))
  {
    RedRulePlug(c, Painted(t, Black));
    BlackRootPlug(c, Painted(t, Black));
    assert SameContents(t, Painted(t, Black));
    SameContentsPlug(c, t, Painted(t, Black));
  }

  /** Case 3.1: a red sibling is painted black and rotated above the parent, which turns red. */
  ghost function SiblingRaised<N, E>(c: Context<N, E>): Context<N, E>
    requires !c.Top? && Other(c).Fork?
  {
    var s := Other(c);
    if c.InLeft? then InLeft(c.node, Red, c.entry, s.left, InLeft(s.node, Black, s.entry, s.right, c.up))
    else InRight(c.node, Red, c.entry, s.right, InRight(s.node, Black, s.entry, s.left, c.up))
  }

  lemma SiblingRaisedIsShort<N, E>(c: Context<N, E>, t: Tree<N, E>)
    requires Short(c, t) && !c.Top? && IsRed(Other(c))
    ensures Short(SiblingRaised(c), t) && !IsRed(Other(SiblingRaised(c)))
  {
  }

  lemma SiblingRaisedContents<N, E>(c: Context<N, E>, t: Tree<N, E>)
    requires !c.Top? && Other(c).Fork?
    ensures SameContents(Plug(c, t), Plug(SiblingRaised(c), t))
  {
    var s, d := Other(c), SiblingRaised(c);
    var p, q := Around(c, c.colour, t), Around(d, Red, t);
    assert Inorder(p) == if c.InLeft? then Inorder(t) + [c.entry] + (Inorder(s.left) + [s.entry] + Inorder(s.right))
      else Inorder(s.left) + [s.entry] + Inorder(s.right) + [c.entry] + Inorder(t);
    assert Inorder(q) == if c.InLeft? then Inorder(t) + [c.entry] + Inorder(s.left) else Inorder(s.right) + [c.entry] + Inorder(t);
    assert Ids(q) == Ids(t) + {c.node} + (if c.InLeft? then Ids(s.left) else Ids(s.right));
    assert Inorder(Around(d.up, Black, q)) == Inorder(p);
    assert SameContents(p, Around(d.up, Black, q));
    SameContentsPlug(c.up, p, Around(d.up, Black, q));
  }

  /** Case 3.2: the sibling turns red and the fault moves to the parent. */
  ghost function SiblingReddened<N, E>(c: Context<N, E>, t: Tree<N, E>): Tree<N, E>
    requires !c.Top?
  {
    Around(WithOther(c, Painted(Other(c), Red)), c.colour, t)
  }

  lemma SiblingReddenedIsShort<N, E>(c: Context<N, E>, t: Tree<N, E>)
    requires Short(c, t) && !c.Top? && t.colour == Black && !IsRed(Other(c))
    requires Other(c).Fork? ==> !IsRed(Other(c).left) && !IsRed(Other(c).right)
    ensures Short(c.up, SiblingReddened(c, t))
    ensures SameContents(Plug(c, t), Plug(c.up, SiblingReddened(c, t)))
  {
    assert SameContents(Other(c), Painted(Other(c), Red));
    SameContentsPlug(c.up, Around(c, c.colour, t), SiblingReddened(c, t));
  }

  /** Case 3.3: the sibling's near child, red, is rotated above the sibling. */
  ghost function NearRaised<N, E>(c: Context<N, E>): Tree<N, E>
    requires !c.Top? && Other(c).Fork? && (if c.InLeft? then Other(c).left else Other(c).right).Fork?
  {
    var s := Other(c);
    if c.InLeft? then
      var n := s.left;
      Fork(n.node, Black, n.entry, n.left, Fork(s.node, Red, s.entry, n.right, s.right))
    else
      var n := s.right;
      Fork(n.node, Black, n.entry, Fork(s.node, Red, s.entry, s.left, n.left), n.right)
  }

  lemma NearRaisedIsShort<N, E>(c: Context<N, E>, t: Tree<N, E>)
    requires Short(c, t) && !c.Top? && Other(c).Fork? && !IsRed(Other(c))
    requires IsRed(if c.InLeft? then Other(c).left else Other(c).right)
    requires !IsRed(if c.InLeft? then Other(c).right else Other(c).left)
    ensures Short(WithOther(c, NearRaised(c)), t)
  {
    var s := Other(c);
    var n := if c.InLeft? then s.left else s.right;
    assert RedRule(s) && RedRule(s.left) && RedRule(s.right) && RedRule(n.left) && RedRule(n.right);
    assert RedRule(NearRaised(c));
  }

  lemma NearRaisedContents<N, E>(c: Context<N, E>, t: Tree<N, E>)
    requires !c.Top? && Other(c).Fork? && (if c.InLeft? then Other(c).left else Other(c).right).Fork?
    ensures SameContents(Plug(c, t), Plug(WithOther(c, NearRaised(c)), t))
  {
    var s := Other(c);
    var n := if c.InLeft? then s.left else s.right;
    var m := if c.InLeft? then Fork(s.node, Red, s.entry, n.right, s.right) else Fork(s.node, Red, s.entry, s.left, n.left);
    assert Inorder(m) == if c.InLeft? then Inorder(n.right) + [s.entry] + Inorder(s.right) else Inorder(s.left) + [s.entry] + Inorder(n.left);
    assert Ids(m) == if c.InLeft? then Ids(n.right) + {s.node} + Ids(s.right) else Ids(s.left) + {s.node} + Ids(n.left);
    assert Inorder(NearRaised(c)) == Inorder(s);
    assert SameContents(s, NearRaised(c));
    SameContentsPlug(c.up, Around(c, c.colour, t), Around(WithOther(c, NearRaised(c)), c.colour, t));
  }

  /** Case 3.4: the sibling takes the parent's place and colour, parent and far child turn black. */
  ghost function FarRaised<N, E>(c: Context<N, E>, t: Tree<N, E>): Tree<N, E>
    requires !c.Top? && Other(c).Fork?
  {
    var s := Other(c);
    if c.InLeft? then
      Fork(s.node, c.colour, s.entry, Fork(c.node, Black, c.entry, t, s.left), Painted(s.right, Black))
    else
      Fork(s.node, c.colour, s.entry, Painted(s.left, Black), Fork(c.node, Black, c.entry, s.right, t))
  }

  lemma FarRaisedIsShort<N, E>(c: Context<N, E>, t: Tree<N, E>)
    requires Short(c, t) && !c.Top? && t.colour == Black && Other(c).Fork?
    ensures Short(Top, Plug(c.up, FarRaised(c, t)))
  {
    var u := FarRaised(c, t);
    var s := Other(c);
    assert RedRule(t) && RedRule(s) && RedRule(s.left) && RedRule(s.right);
    assert RedRule(Painted(s.left, Black)) && RedRule(Painted(s.right, Black));
    assert RedRule(u);
    RedRulePlug(c.up, u);
    PlugFork(c.up, u);
  }

  lemma {:induction false} PlugFork<N, E>(c: Context<N, E>, t: Tree<N, E>)
    requires t.Fork?
    ensures Plug(c, t).Fork?
    decreases c
  {
    match c
    case Top =>
    case InLeft(n, colour, e, right, up) => PlugFork(up, Fork(n, colour, e, t, right));
    case InRight(n, colour, e, left, up) => PlugFork(up, Fork(n, colour, e, left, t));
  }

  lemma FarRaisedContents<N, E>(c: Context<N, E>, t: Tree<N, E>)
    requires !c.Top? && Other(c).Fork?
    ensures SameContents(Plug(c, t), Plug(c.up, FarRaised(c, t)))
  {
    hide SameContents, FarRaised;
    FarContents(c, t);
    SameContentsPlug(c.up, Around(c, c.colour, t), FarRaised(c, t));
  }

  lemma FarContents<N, E>(c: Context<N, E>, t: Tree<N, E>)
    requires !c.Top? && Other(c).Fork?
    ensures SameContents(Around(c, c.colour, t), FarRaised(c, t))
  {
    var s := Other(c);
    var q := if c.InLeft? then Fork(c.node, Black, c.entry, t, s.left) else Fork(c.node, Black, c.entry, s.right, t);
    var f := if c.InLeft? then s.right else s.left;
    assert Ids(q) == Ids(t) + {c.node} + (if c.InLeft? then Ids(s.left) else Ids(s.right));
    assert SameContents(f, Painted(f, Black));
    if c.InLeft? {
      assert Inorder(t) + [c.entry] + (Inorder(s.left) + [s.entry] + Inorder(s.right)) ==
        Inorder(t) + [c.entry] + Inorder(s.left) + [s.entry] + Inorder(s.right);
    } else {
      assert Inorder(s.left) + [s.entry] + Inorder(s.right) + [c.entry] + Inorder(t) ==
        Inorder(s.left) + [s.entry] + (Inorder(s.right) + [c.entry] + Inorder(t));
    }
  }

  // ---------------------------------------------------------------- paths inside a subtree

  /** The context of `inner`'s hole when inner itself sits in the hole of `outer`. */
  ghost function Compose<N, E>(inner: Context<N, E>, outer: Context<N, E>): Context<N, E> {
    match inner
    case Top => outer
    case InLeft(n, colour, e, right, up) => InLeft(n, colour, e, right, Compose(up, outer))
    case InRight(n, colour, e, left, up) => InRight(n, colour, e, left, Compose(up, outer))
  }

  lemma {:induction false} PlugCompose<N, E>(inner: Context<N, E>, outer: Context<N, E>, t: Tree<N, E>)
    ensures Plug(Compose(inner, outer), t) == Plug(outer, Plug(inner, t))
    decreases inner
  {
    match inner
    case Top =>
    case InLeft(n, colour, e, right, up) => PlugCompose(up, outer, Fork(n, colour, e, t, right));
    case InRight(n, colour, e, left, up) => PlugCompose(up, outer, Fork(n, colour, e, left, t));
  }

  /** A context that only goes down left children. */
  ghost predicate LeftSpine<N, E>(c: Context<N, E>) {
    c.Top? || (c.InLeft? && LeftSpine(c.up))
  }

  lemma {:induction false} LeftSpineBefore<N, E>(c: Context<N, E>)
    requires LeftSpine(c)
    ensures Before(c) == []
  {
    if !c.Top? { LeftSpineBefore(c.up); }
  }

  /** Below an InRight node the colouring of the rest of the path depends on that node's colour only. */
  lemma {:induction false} ComposeRecoloured<N, E>(inner: Context<N, E>, o: Context<N, E>, q: Context<N, E>)
    requires o.InRight? && q.InRight? && o.colour == q.colour && o.left == q.left && o.up == q.up
    ensures var c, d := Compose(inner, o), Compose(inner, q);
      ContextRedRule(c) == ContextRedRule(d) && BlackRoot(c) == BlackRoot(d) && RedAbove(c) == RedAbove(d)
      && !c.Top? && !d.Top?
    decreases inner
  {
    if !inner.Top? { ComposeRecoloured(inner.up, o, q); }
  }

  /** Taking out a node with at most one child, x: either nothing is wrong or x is short. */
  lemma SplicedColours<N, E>(c: Context<N, E>, t: Tree<N, E>, x: Tree<N, E>)
    requires t.Fork? && ((t.left.Leaf? && x == t.right) || (t.right.Leaf? && x == t.left))
    requires RedRule(t) && ContextRedRule(c) && !(RedAbove(c) && IsRed(t))
    requires if c.Top? then !IsRed(t) else BlackRoot(c)
    ensures x.Leaf? || t.colour == Red ==> Coloured(Plug(c, x))
    ensures x.Fork? && t.colour == Black ==> Short(c, x)
  {
    RedRulePlug(c, x);
    BlackRootPlug(c, x);
  }

  /** The same facts, from a coloured tree. */
  lemma ColouredParts<N, E>(c: Context<N, E>, t: Tree<N, E>)
    requires Coloured(Plug(c, t))
    ensures RedRule(t) && ContextRedRule(c) && !(RedAbove(c) && IsRed(t))
    ensures if c.Top? then !IsRed(t) else BlackRoot(c)
  {
    RedRulePlug(c, t);
    BlackRootPlug(c, t);
  }

  // ---------------------------------------------------------------- balance after a removal

  /** What stands in the gap after a node of colour `missing` went away: a black gap is closed by
      painting the node that moved up, and left alone when nothing did. */
  ghost function Closed<N, E>(x: Tree<N, E>, missing: Colour): Tree<N, E> {
    if missing == Black then Painted(x, Black) else x
  }

  /** Taking a node with at most one child, x, out of a balanced tree keeps the balance exactly when
      the node was red, had a child, or was alone in the tree. */
  lemma BalanceAfterSplice<N, E>(c: Context<N, E>, t: Tree<N, E>, x: Tree<N, E>)
    requires Coloured(Plug(c, t)) && Balanced(Plug(c, t))
    requires t.Fork? && ((t.left.Leaf? && x == t.right) || (t.right.Leaf? && x == t.left))
    ensures Balanced(Plug(c, Closed(x, t.colour))) <==> t.colour == Red || x.Fork? || c.Top?
    ensures x.Fork? ==> IsRed(x)
  {
    ColouredParts(c, t);
    BalancedPlug(c, t);
    BalancedPlug(c, Closed(x, t.colour));
    assert BlackHeight(x) == 0 && RedRule(x);
    if x.Fork? { assert x.colour == Red; }
  }

  lemma {:induction false} SizePlug<N, E>(c: Context<N, E>, t: Tree<N, E>)
    ensures Size(Plug(c, t)) >= Size(t) + Depth(c)
    decreases c
  {
    match c
    case Top =>
    case InLeft(n, colour, e, right, up) => SizePlug(up, Fork(n, colour, e, t, right));
    case InRight(n, colour, e, left, up) => SizePlug(up, Fork(n, colour, e, left, t));
  }

  /** Only the root is the whole tree. */
  lemma WholeTree<N, E>(c: Context<N, E>, t: Tree<N, E>)
    ensures Plug(c, t) == t <==> c.Top?
  {
    SizePlug(c, t);
  }

  ghost function Leftmost<N, E>(t: Tree<N, E>): Tree<N, E>
    requires t.Fork?
  {
    if t.left.Leaf? then t else Leftmost(t.left)
  }

  /** The subtree at the node that leaves its place when the root of t is removed: the root itself, or
      with two children the next node in the order. */
  ghost function Leaving<N, E>(t: Tree<N, E>): Tree<N, E>
    requires t.Fork?
  {
    if t.left.Leaf? || t.right.Leaf? then t else Leftmost(t.right)
  }

  lemma {:induction false} EndOfSpine<N, E>(m: Context<N, E>, s: Tree<N, E>)
    requires LeftSpine(m) && s.Fork?
    ensures Plug(m, s).Fork? && Leftmost(Plug(m, s)) == Leftmost(s)
    decreases m
  {
    if m.InLeft? { EndOfSpine(m.up, Fork(m.node, m.colour, m.entry, s, m.right)); }
  }

  /** Removing the node of s from the tree keeps the balance: it was red, had a child, or was alone. */
  ghost predicate Spares<N, E>(tree: Tree<N, E>, s: Tree<N, E>) {
    s.Fork? && (s.colour == Red || s.left.Fork? || s.right.Fork? || s == tree)
  }

  /** The balance of the rest of the path depends on an InRight node's colour and left child only. */
  lemma {:induction false} ComposeRebalanced<N, E>(m: Context<N, E>, o: Context<N, E>, q: Context<N, E>, h: nat)
    requires o.InRight? && q.InRight? && o.colour == q.colour && o.left == q.left && o.up == q.up
    ensures ContextBalanced(Compose(m, o), h) == ContextBalanced(Compose(m, q), h)
    ensures !Compose(m, o).Top? && !Compose(m, q).Top?
    decreases m
  {
    if !m.Top? { ComposeRebalanced(m.up, o, q, h + Weight(m.colour)); }
  }

  /** In a balanced tree of four entries the first or the last one is a black node without children, and
      not alone. */
  lemma FourHaveABlackEnd<N, E>(t: Tree<N, E>)
    requires Coloured(t) && Balanced(t) && Size(t) == 4
    ensures t.left.Fork? && t.right.Fork?
    ensures t.left == Fork(t.left.node, Black, t.left.entry, Leaf, Leaf) || t.right == Fork(t.right.node, Black, t.right.entry, Leaf, Leaf)
  {
    BlackHeightBounds(t);
    BlackHeightBounds(t.left);
    BlackHeightBounds(t.right);
  }
}
