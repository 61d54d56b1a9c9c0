// iot_data_map_t of src/c/data.c: a red/black tree of nodes with parent pointers, changed in place.
// Each method takes the place it works at as a ghost context and subtree of the tree that the pointers
// spell out. What a step does to that tree is a function of RedBlackTree, which fields it writes is
// described in TreeLinks, and here the two meet: rotations, the two repair loops, removal in all its
// cases, the map interface with its cached hash, and the iterator.
module RedBlackMap {
  import opened DataOrder
  import opened RedBlackTree
  import opened TreeLinks
  import opened OrderedEntries
  import opened OrderMeaning
  import opened Options
  import opened HashFolds
  import opened Sequences

  ghost function Nonnull(ns: seq<Node?>): set<Node> {
    set n: Node | n in ns
  }

  /** Same contents, and balanced if it was. */
  ghost predicate Kept(before: Shape, after: Shape) {
    SameContents(before, after) && (Balanced(before) ==> Balanced(after))
  }

  lemma KeptItself(a: Shape)
    ensures Kept(a, a)
  {
  }

  lemma KeptOn(a: Shape, b: Shape, c: Shape)
    requires Kept(a, b) && Kept(b, c)
    ensures Kept(a, c)
  {
  }

  lemma InnerStep(c: Path, t: Shape)
    requires Pending(c, t) && RedAbove(c)
    ensures var d, u := InnerContext(c, t), InnerTree(c, t);
      Pending(d, u) && RedAbove(d) && Kept(Plug(c, t), Plug(d, u)) && d.up == c.up && d.InLeft? == c.InRight?
  {
    InnerIsPending(c, t);
    InnerIsEquivalent(c, t);
    EquivalentPlug(c.up, Around(c, c.colour, t), Around(InnerContext(c, t), t.colour, InnerTree(c, t)));
  }

  lemma RaiseStep(c: Path, t: Shape)
    requires Pending(c, t) && RedAbove(c) && !c.up.Top? && !IsRed(Other(c.up)) && c.InLeft? == c.up.InLeft?
    ensures Pending(Raised(c), t) && !RedAbove(Raised(c)) && Kept(Plug(c, t), Plug(Raised(c), t))
  {
    GrandparentExists(c);
    RaisedIsPending(c, t);
    RaisedIsEquivalent(c, t);
    EquivalentPlug(c.up.up, Grand(c, t), Around(Raised(c), Black, t));
  }

  lemma EquivalentRoot(t: Shape)
    requires t.Fork? && RedRule(t)
    ensures Kept(t, Painted(t, Black)) && Coloured(Painted(t, Black))
  {
  }

  /** What a key tells about the entries around a node. */
  lemma Descend(c: Path, t: Shape, key: Data)
    requires Ascending(Inorder(Plug(c, t))) && t.Fork?
    ensures var l, r := Before(c) + Inorder(t.left), Inorder(t.right) + After(c);
      && Inorder(Plug(c, t)) == l + [t.entry] + r
      && (Cmp(t.entry.key, key) <= 0 ==> Below(l, key))
      && (Cmp(t.entry.key, key) >= 0 ==> AboveKey(r, key))
  {
    hide Cmp, Below, AboveKey, Ascending;
    var l, r := Before(c) + Inorder(t.left), Inorder(t.right) + After(c);
    InorderPlug(c, t);
    assert Inorder(Plug(c, t)) == l + [t.entry] + r;
    AroundEntry(l, t.entry, r, key);
  }

  lemma EmptySides(t: Shape, key: Data)
    ensures Plug(Top, t) == t && Below(Before<Node, Entry>(Top), key) && AboveKey(After<Node, Entry>(Top), key)
  {
  }

  /** The child the search goes to, in its context, with everything else on the right sides of the key. */
  lemma DescendTo(c: Path, t: Shape, key: Data) returns (d: Path, u: Shape)
    requires Ascending(Inorder(Plug(c, t))) && t.Fork? && Cmp(t.entry.key, key) != 0
    requires Below(Before(c), key) && AboveKey(After(c), key)
    ensures u == if Cmp(t.entry.key, key) > 0 then t.left else t.right
    ensures d == if Cmp(t.entry.key, key) > 0 then InLeft(t.node, t.colour, t.entry, t.right, c)
                 else InRight(t.node, t.colour, t.entry, t.left, c)
    ensures Plug(d, u) == Plug(c, t) && Below(Before(d), key) && AboveKey(After(d), key)
  {
    hide Cmp, Below, AboveKey, Ascending;
    Descend(c, t, key);
    var l, r := Before(c) + Inorder(t.left), Inorder(t.right) + After(c);
    if Cmp(t.entry.key, key) > 0 {
      AbovePrepend(t.entry, r, key);
      d, u := InLeft(t.node, t.colour, t.entry, t.right, c), t.left;
      assert After(d) == [t.entry] + r;
    } else {
      BelowAppend(l, t.entry, key);
      d, u := InRight(t.node, t.colour, t.entry, t.left, c), t.right;
    }
  }

  /** The subtree at the node with the key. */
  ghost function Seat(t: Shape, key: Data): Shape {
    if t.Leaf? || Cmp(t.entry.key, key) == 0 then t
    else if Cmp(t.entry.key, key) > 0 then Seat(t.left, key)
    else Seat(t.right, key)
  }

  /** The subtree at the node that leaves its place when the key is removed. */
  ghost function LeavingFor(t: Shape, key: Data): Shape {
    var s := Seat(t, key);
    if s.Fork? then Leaving(s) else Leaf
  }

  lemma {:induction false} RootOfInContext(c: Path, hole: Node?)
    ensures !c.Top? ==> RootOf(c, hole) != null && RootOf(c, hole) in ContextIds(c)
  {
    if !c.Top? { RootOfInContext(c.up, c.node); }
  }

  lemma AbsentHere(c: Path, t: Shape, key: Data)
    requires Ascending(Inorder(Plug(c, t))) && Get(Inorder(Plug(c, t)), key) == None && t.Fork?
    ensures Cmp(t.entry.key, key) != 0 && (Cmp(key, t.entry.key) < 0 <==> Cmp(t.entry.key, key) > 0)
  {
    hide Cmp;
    var l, r := Before(c) + Inorder(t.left), Inorder(t.right) + After(c);
    Descend(c, t, key);
    assert Inorder(Plug(c, t))[|l|] == t.entry;
    AbsentKey(Inorder(Plug(c, t)), key, |l|);
    CmpReverse(key, t.entry.key);
  }

  /** Which side of its parent an empty place is on can be told from the key. */
  lemma SideOfHole(c: Path, key: Data)
    requires Below(Before(c), key) && AboveKey(After(c), key)
    ensures c.InLeft? ==> Cmp(key, c.entry.key) < 0
    ensures c.InRight? ==> Cmp(key, c.entry.key) >= 0
  {
    hide Cmp;
    if c.InLeft? { assert After(c)[0] == c.entry; }
    if c.InRight? {
      assert Before(c)[|Before(c)| - 1] == c.entry;
      CmpReverse(key, c.entry.key);
    }
  }

  /** A fresh red leaf in the place of its key: the map entries, and what is left to repair. */
  lemma Inserted(c: Path, n: Node, e: Entry)
    requires Coloured(Plug(c, Leaf)) && Below(Before(c), e.key) && AboveKey(After(c), e.key)
    ensures Inorder(Plug(c, Single(n, e))) == Put(Inorder(Plug(c, Leaf)), e.key, e.value)
    ensures Balanced(Plug(c, Leaf)) ==> Balanced(Plug(c, Single(n, e)))
    ensures Pending(c, Single(n, e))
    ensures c.Top? ==> Coloured(Plug(c, Painted(Single(n, e), Black)))
    ensures c.Top? ==> Kept(Plug(c, Single(n, e)), Plug(c, Painted(Single(n, e), Black)))
    ensures !c.Top? && c.up.Top? ==> Coloured(Plug(c, Single(n, e)))
  {
    hide Cmp, Below, AboveKey;
    var t: Shape := Single(n, e);
    InorderPlug(c, Leaf);
    InorderPlug(c, t);
    BalancedPlug(c, Leaf);
    BalancedPlug(c, t);
    RedRulePlug(c, Leaf);
    RedRulePlug(c, t);
    BlackRootPlug(c, Leaf);
    BlackRootPlug(c, t);
    AtSpot(Before(c), [], After(c), e.key, e.value);
    assert Before(c) + [] + After(c) == Before(c) + Inorder<Node, Entry>(Leaf) + After(c);
    assert Inorder(t) == [e];
    if c.Top? { EquivalentRoot(t); }
  }

  /** The context of the sibling of t. */
  ghost function SiblingContext(c: Path, t: Shape): Path
    requires !c.Top?
  {
    if c.InLeft? then InRight(c.node, c.colour, c.entry, t, c.up) else InLeft(c.node, c.colour, c.entry, t, c.up)
  }

  lemma SiblingPlug(c: Path, t: Shape)
    requires !c.Top?
    ensures Plug(SiblingContext(c, t), Other(c)) == Plug(c, t)
  {
  }

  /** Contents and colours after a node with at most one child is taken out. */
  lemma OutAtOnce(c: Path, t: Shape, x: Shape)
    requires Coloured(Plug(c, t)) && Spliced(t, x)
    ensures Inorder(Plug(c, x)) == Before(c) + Inorder(t.left) + Inorder(t.right) + After(c)
    ensures x.Leaf? || t.colour == Red ==> Coloured(Plug(c, x))
    ensures x.Fork? && t.colour == Black ==> Short(c, x)
  {
    hide Coloured, Short;
    ColouredParts(c, t);
    SplicedColours(c, t, x);
    InorderPlug(c, x);
    NoSuffix(Before(c) + Inorder(t.left));
    NoSuffix(Before(c));
  }

  /** Contents and colours after the successor s, found at the end of the left spine m below the right
      child, has taken the place of the root of t. */
  lemma OutBetween(c: Path, t: Shape, m: Path, s: Shape)
    requires Coloured(Plug(c, t)) && t.Fork? && LeftSpine(m) && Plug(m, s) == t.right && s.Fork? && s.left.Leaf?
    ensures var d := Compose(m, InRight(s.node, t.colour, s.entry, t.left, c));
      && Plug(d, s.right) == Plug(c, Fork(s.node, t.colour, s.entry, t.left, Plug(m, s.right)))
      && Inorder(Plug(d, s.right)) == Before(c) + Inorder(t.left) + Inorder(t.right) + After(c)
      && (s.right.Leaf? || s.colour == Red ==> Coloured(Plug(d, s.right)))
      && (s.right.Fork? && s.colour == Black ==> Short(d, s.right))
  {
    var z1, y1 := InRight(t.node, t.colour, t.entry, t.left, c), InRight(s.node, t.colour, s.entry, t.left, c);
    var d := Compose(m, y1);
    PlugCompose(m, z1, s);
    PlugCompose(m, y1, s.right);
    ColouredParts(Compose(m, z1), s);
    ComposeRecoloured(m, z1, y1);
    SplicedColours(d, s, s.right);
    OutBetweenContents(c, t, m, s);
  }

  /** Balance after a node with at most one child is taken out. */
  lemma OutAtOnceBalance(c: Path, t: Shape, x: Shape)
    requires Coloured(Plug(c, t)) && Spliced(t, x)
    ensures Balanced(Plug(c, t)) ==> (Balanced(Plug(c, Closed(x, t.colour))) <==> Spares(Plug(c, t), Leaving(t)))
    ensures Balanced(Plug(c, t)) && x.Fork? ==> IsRed(x)
  {
    hide Coloured, Balanced, Closed, Plug;
    if Balanced(Plug(c, t)) { BalanceAfterSplice(c, t, x); }
    WholeTree(c, t);
  }

  /** Balance after the successor s has taken the place of the root of t. */
  lemma OutBetweenBalance(c: Path, t: Shape, m: Path, s: Shape)
    requires Coloured(Plug(c, t)) && t.Fork? && t.left.Fork? && LeftSpine(m) && Plug(m, s) == t.right && s.Fork? && s.left.Leaf?
    ensures var d := Compose(m, InRight(s.node, t.colour, s.entry, t.left, c));
      Balanced(Plug(c, t)) ==> (Balanced(Plug(d, Closed(s.right, s.colour))) <==> Spares(Plug(c, t), Leaving(t)))
    ensures Balanced(Plug(c, t)) && s.right.Fork? ==> IsRed(s.right)
  {
    hide Coloured, Closed, Balanced, ContextBalanced, BlackHeight;
    var z1, y1 := InRight(t.node, t.colour, t.entry, t.left, c), InRight(s.node, t.colour, s.entry, t.left, c);
    var o := Compose(m, z1);
    var gap := Closed(s.right, s.colour);
    PlugCompose(m, z1, s);
    EndOfSpine(m, s);
    ComposeRebalanced(m, z1, y1, BlackHeight(gap));
    BalancedPlug(o, gap);
    BalancedPlug(Compose(m, y1), gap);
    OutAtOnceBalance(o, s, s.right);
  }

  /** The entry at the end of a left spine comes first. */
  lemma SpineInorder(m: Path, s: Shape)
    requires LeftSpine(m) && s.Fork? && s.left.Leaf?
    ensures Inorder(Plug(m, s)) == [s.entry] + Inorder(Plug(m, s.right))
  {
    LeftSpineBefore(m);
    InorderPlug(m, s);
    InorderPlug(m, s.right);
    var e, r := [s.entry], Inorder(s.right);
    NoPrefix(e);
    NoPrefix(e + r);
    NoPrefix(r);
    Assoc(e, r, After(m));
  }

  lemma OutBetweenContents(c: Path, t: Shape, m: Path, s: Shape)
    requires t.Fork? && LeftSpine(m) && Plug(m, s) == t.right && s.Fork? && s.left.Leaf?
    ensures Inorder(Plug(c, Fork(s.node, t.colour, s.entry, t.left, Plug(m, s.right))))
         == Before(c) + Inorder(t.left) + Inorder(t.right) + After(c)
  {
    var r := Plug(m, s.right);
    SpineInorder(m, s);
    InorderPlug(c, Fork(s.node, t.colour, s.entry, t.left, r));
    Assoc(Inorder(t.left), [s.entry], Inorder(r));
    Assoc(Before(c), Inorder(t.left), Inorder(t.right));
  }

  /** The successor is the right child exactly when the spine above it is empty. */
  lemma NearSpine(c: Path, t: Shape, m: Path, s: Shape)
    requires Distinct(Plug(c, t)) && t.Fork? && Plug(m, s) == t.right && s.Fork?
    requires Above(Compose(m, InRight(t.node, t.colour, t.entry, t.left, c))) == t.node
    ensures m.Top? && s == t.right && NearTaken(t) == Fork(s.node, t.colour, s.entry, t.left, s.right)
  {
    TopSpine(c, t, m, s);
    hide Distinct;
  }

  lemma TopSpine(c: Path, t: Shape, m: Path, s: Shape)
    requires Distinct(Plug(c, t)) && t.Fork? && Plug(m, s) == t.right && s.Fork?
    requires Above(Compose(m, InRight(t.node, t.colour, t.entry, t.left, c))) == t.node
    ensures m.Top?
  {
    IdsPlug(c, t);
    IdsPlug(m, s);
    assert t.node !in Ids(t.right);
    hide Distinct, Plug, Ids;
  }

  lemma FarSpine(c: Path, t: Shape, m: Path, s: Shape)
    requires Distinct(Plug(c, t)) && t.Fork? && LeftSpine(m) && Plug(m, s) == t.right && s.Fork?
    requires Above(Compose(m, InRight(t.node, t.colour, t.entry, t.left, c))) != t.node
    ensures Plug(m, s.right).Fork?
    ensures Plug(Compose(m, InRight(t.node, t.colour, t.entry, t.left, c)), s.right) == Plug(c, t.(right := Plug(m, s.right)))
  {
    PlugCompose(m, InRight(t.node, t.colour, t.entry, t.left, c), s.right);
    PlugFork(m.up, Fork(m.node, m.colour, m.entry, s.right, m.right));
  }

  lemma IsFork(c: Path, t: Shape)
    requires Short(c, t)
    ensures t.Fork?
  {
  }

  /** What the search result says about looking up and dropping the key. */
  lemma Removed(c: Path, t: Shape, key: Data)
    requires t.Leaf? ==> Below(Before(c), key) && AboveKey(After(c), key)
    requires t.Fork? ==> Cmp(t.entry.key, key) == 0
    requires t.Fork? ==> Below(Before(c) + Inorder(t.left), key) && AboveKey(Inorder(t.right) + After(c), key)
    ensures Get(Inorder(Plug(c, t)), key) == if t.Leaf? then None else Some(t.entry.value)
    ensures Drop(Inorder(Plug(c, t)), key) ==
      if t.Leaf? then Inorder(Plug(c, t)) else Before(c) + Inorder(t.left) + Inorder(t.right) + After(c)
  {
    hide Cmp, Below, AboveKey;
    InorderPlug(c, t);
    if t.Leaf? {
      NoSuffix(Before(c));
      AtSpot(Before(c), [], After(c), key, Null);
    } else {
      var l, r, e := Before(c) + Inorder(t.left), Inorder(t.right) + After(c), [t.entry];
      AtSpot(l, e, r, key, Null);
      Assoc(Before(c), Inorder(t.left), e);
      Assoc(Before(c), Inorder(t.left) + e, Inorder(t.right));
      Assoc(l + e, Inorder(t.right), After(c));
      Assoc(l, Inorder(t.right), After(c));
    }
  }

  /** Replacing a value at the place of its key. */
  lemma Overwritten(c: Path, t: Shape, key: Data, value: Data)
    requires Coloured(Plug(c, t)) && t.Fork? && Cmp(t.entry.key, key) == 0
    requires Below(Before(c) + Inorder(t.left), key) && AboveKey(Inorder(t.right) + After(c), key)
    ensures var u := t.(entry := Entry(t.entry.key, value));
      && Inorder(Plug(c, u)) == Put(Inorder(Plug(c, t)), key, value)
      && Coloured(Plug(c, u)) && (Balanced(Plug(c, t)) ==> Balanced(Plug(c, u)))
  {
    hide Cmp, Below, AboveKey;
    var u := t.(entry := Entry(t.entry.key, value));
    var l, r := Before(c) + Inorder(t.left), Inorder(t.right) + After(c);
    AtSpot(l, [t.entry], r, key, value);
    InorderAround(c, t);
    InorderAround(c, u);
    ColouredParts(c, t);
    RedRulePlug(c, u);
    BlackRootPlug(c, u);
    BalancedPlug(c, t);
    BalancedPlug(c, u);
  }

  lemma InorderAround(c: Path, t: Shape)
    requires t.Fork?
    ensures Inorder(Plug(c, t)) == (Before(c) + Inorder(t.left)) + [t.entry] + (Inorder(t.right) + After(c))
  {
    InorderPlug(c, t);
    var b, l, e, r, a := Before(c), Inorder(t.left), [t.entry], Inorder(t.right), After(c);
    Assoc(b, l + e, r);
    Assoc(b, l, e);
    Assoc(b + l + e, r, a);
  }

  /** The hash of the entries after an insertion. */
  lemma Mixed(c: Path, key: Data, value: Data)
    requires Below(Before(c), key) && AboveKey(After(c), key)
    ensures var es := Inorder(Plug(c, Leaf));
      HashEntries(Put(es, key, value)) == Xor(HashEntries(es), HashEntry(Entry(key, value)))
  {
    hide Cmp, Below, AboveKey;
    InorderPlug(c, Leaf);
    NoSuffix(Before(c));
    AtSpot(Before(c), [], After(c), key, value);
    HashEntriesInsert(Before(c), Entry(key, value), After(c));
  }

  lemma {:induction false} Dropped(es: seq<Entry>, key: Data)
    ensures Get(es, key) == None ==> Drop(es, key) == es
  {
    hide Cmp;
    if es != [] { Dropped(es[1..], key); }
  }

  /** Below a left spine nothing comes earlier than below what is above the spine. */
  lemma {:induction false} SpineBefore(m: Path, o: Path)
    requires LeftSpine(m)
    ensures Before(Compose(m, o)) == Before(o)
    decreases m
  {
    if !m.Top? { SpineBefore(m.up, o); }
  }

  /** Positions on the way up. */
  lemma ClimbLength(d: Path, u: Shape)
    requires !d.Top?
    ensures d.InRight? ==> |Before(d.up)| + |Inorder(Around(d, d.colour, u))| == |Before(d)| + |Inorder(u)|
    ensures d.InLeft? ==> |Before(d.up)| == |Before(d)|
  {
  }

  /** Positions on the way to the next node. */
  lemma NextLengths(c: Path, t: Shape)
    requires t.Fork?
    ensures |Before(InRight(t.node, t.colour, t.entry, t.left, c))| == |Before(c)| + |Inorder(t.left)| + 1
    ensures |Inorder(t)| == |Inorder(t.left)| + 1 + |Inorder(t.right)|
    ensures |Inorder<Node, Entry>(Leaf)| == 0 && |After<Node, Entry>(Top)| == 0
  {
  }

  lemma PtrIs(t: Shape)
    ensures if t.Leaf? then Ptr(t) == null else Ptr(t) == t.node
  {
  }

  lemma FirstDropped(es: seq<Entry>)
    requires es != []
    ensures Get(es, es[0].key) == Some(es[0].value) && Drop(es, es[0].key) == es[1..]
  {
    CmpSelf(es[0].key);
  }

  class DataMap {
    var size: nat
    var tree: Node?
    var hash: nat
    var rehash: bool
    ghost var shape: Shape
    ghost var repr: set<Node>

    /** The entries, in ascending key order. */
    ghost function Entries(): seq<Entry>
      reads `shape
    {
      Inorder(shape)
    }

    /** The representation invariant: linked nodes, search order, colours, size and cached hash. */
    ghost predicate Valid()
      reads this, repr
    {
      && Wired() && Coloured(shape) && Ascending(Entries()) && RealKeys(Entries()) && size == |Entries()|
      && (rehash || hash == HashEntries(Entries()))
    }

    lemma ValidParts()
      requires Valid()
      ensures Wired() && Coloured(shape) && Ascending(Entries()) && Entries() == Inorder(shape)
      ensures rehash || hash == HashEntries(Entries())
    {
    }

    lemma WiredIsDistinct()
      requires Wired()
      ensures Distinct(shape)
    {
    }

    lemma EntriesAre()
      ensures Entries() == Inorder(shape)
    {
    }

    /** An empty map. */
    constructor ()
      ensures Valid() && Entries() == [] && Balanced(shape) && repr == {}
    {
      size, tree, hash, rehash := 0, null, 0, false;
      shape, repr := Leaf, {};
    }

    /** The pointers spell out `shape`. */
    ghost predicate Wired()
      reads `tree, `shape, `repr, repr
    {
      && tree == Ptr(shape) && Distinct(shape) && Ids(shape) == repr
      && forall n :: n in repr ==> n.Fields() == RowIn(shape, null, n)
    }

    /** The fields around a subtree, as Wired() gives them. */
    lemma Look(c: Path, t: Shape)
      requires Wired() && shape == Plug(c, t) && t.Fork?
      ensures t.node in repr && t.node.Fields() == Row(Above(c), Ptr(t.left), Ptr(t.right), t.colour, t.entry)
      ensures !c.Top? ==> c.node in repr && c.node != t.node && c.node.Fields() == HoleRow(c, t.node)
      ensures t.left.Fork? ==> t.left.node in repr && t.left.node.parent == t.node && t.left.node.colour == t.left.colour
      ensures t.right.Fork? ==> t.right.node in repr && t.right.node.parent == t.node && t.right.node.colour == t.right.colour
    {
      IdsPlug(c, t);
      RowPlug(c, t, t.node);
      if !c.Top? { RowPlug(c, t, c.node); }
      if t.left.Fork? { RowPlug(c, t, t.left.node); }
      if t.right.Fork? { RowPlug(c, t, t.right.node); }
    }

    /** What the rotation reads and writes. */
    lemma RolLook(c: Path, t: Shape)
      requires Wired() && shape == Plug(c, t) && t.Fork? && t.right.Fork?
      ensures var x, y, b, p := t.node, t.right.node, Ptr(t.right.left), Above(c);
        && x.right == y && y.left == b && x.parent == p && x != y && x != b && y != b && p != x && p != y
        && (p != null ==> p != b && (p.left == x <==> c.InLeft?))
        && Nonnull([x, y, b, p]) <= repr
    {
      IdsPlug(c, t);
      Look(c, t);
      Look(InRight(t.node, t.colour, t.entry, t.left, c), t.right);
      var b, p := Ptr(t.right.left), Above(c);
      assert b != null ==> b in Ids(t.right.left);
      assert b != null ==> b in Ids(t);
      assert p != null ==> p in ContextIds(c);
      if c.InRight? {
        assert p.left == Ptr(c.left);
        assert p.left != null ==> p.left in Ids(c.left);
      }
    }

    /** iot_node_rol, field by field. */
    method RolLinks(x: Node, ghost s: set<Node>)
      requires x.right != null && x.right != x && x.right.left != x && x.right.left != x.right
      requires x.parent != null ==> x.parent != x && x.parent != x.right && x.parent != x.right.left
      requires Nonnull([x, x.right, x.right.left, x.parent]) <= s
      modifies `tree, s
      ensures tree == if old(x.parent) == null then old(x.right) else old(tree)
      ensures var y, b, p := old(x.right), old(x.right.left), old(x.parent);
        var xIsLeft := p != null && old(p.left) == x;
        forall n :: n in s ==> n.Fields() == RolRow(old(n.Fields()), n, x, y, b, p, xIsLeft)
    {
      var y := x.right;
      x.right := y.left;
      if y.left != null { y.left.parent := x; }
      y.parent := x.parent;
      if x.parent == null {
        tree := y;
      } else if x == x.parent.left {
        x.parent.left := y;
      } else {
        x.parent.right := y;
      }
      y.left := x;
      x.parent := y;
    }

    /** A left rotation at x rotates the subtree t in place. */
    method Rol(x: Node, ghost c: Path, ghost t: Shape)
      requires Wired() && shape == Plug(c, t)
      requires t.Fork? && t.node == x && t.right.Fork?
      modifies `tree, `shape, repr
      ensures Wired() && shape == Plug(c, RotatedLeft(t))
    {
      RolLook(c, t);
      RolLinks(x, repr);
      shape := Plug(c, RotatedLeft(t));
      RotatedLeftPlug(c, t);
      forall n | n in repr
        ensures n.Fields() == RowIn(shape, null, n)
      {
        RotatedLeftPlugRow(c, t, n);
      }
    }

    lemma RorLook(c: Path, t: Shape)
      requires Wired() && shape == Plug(c, t) && t.Fork? && t.left.Fork?
      ensures var x, y, b, p := t.node, t.left.node, Ptr(t.left.right), Above(c);
        && x.left == y && y.right == b && x.parent == p && x != y && x != b && y != b && p != x && p != y
        && (p != null ==> p != b && (p.right == x <==> c.InRight?))
        && Nonnull([x, y, b, p]) <= repr
    {
      IdsPlug(c, t);
      Look(c, t);
      Look(InLeft(t.node, t.colour, t.entry, t.right, c), t.left);
      var b, p := Ptr(t.left.right), Above(c);
      assert b != null ==> b in Ids(t.left.right);
      assert b != null ==> b in Ids(t);
      assert p != null ==> p in ContextIds(c);
      if c.InLeft? {
        assert p.right == Ptr(c.right);
        assert p.right != null ==> p.right in Ids(c.right);
      }
    }

    /** iot_node_ror, field by field. */
    method RorLinks(x: Node, ghost s: set<Node>)
      requires x.left != null && x.left != x && x.left.right != x && x.left.right != x.left
      requires x.parent != null ==> x.parent != x && x.parent != x.left && x.parent != x.left.right
      requires Nonnull([x, x.left, x.left.right, x.parent]) <= s
      modifies `tree, s
      ensures tree == if old(x.parent) == null then old(x.left) else old(tree)
      ensures var y, b, p := old(x.left), old(x.left.right), old(x.parent);
        var xIsLeft := p != null && old(p.right) != x;
        forall n :: n in s ==> n.Fields() == RorRow(old(n.Fields()), n, x, y, b, p, xIsLeft)
    {
      var y := x.left;
      x.left := y.right;
      if y.right != null { y.right.parent := x; }
      y.parent := x.parent;
      if x.parent == null {
        tree := y;
      } else if x == x.parent.right {
        x.parent.right := y;
      } else {
        x.parent.left := y;
      }
      y.right := x;
      x.parent := y;
    }

    /** A right rotation at x rotates the subtree t in place. */
    method Ror(x: Node, ghost c: Path, ghost t: Shape)
      requires Wired() && shape == Plug(c, t)
      requires t.Fork? && t.node == x && t.left.Fork?
      modifies `tree, `shape, repr
      ensures Wired() && shape == Plug(c, RotatedRight(t))
    {
      RorLook(c, t);
      RorLinks(x, repr);
      shape := Plug(c, RotatedRight(t));
      RotatedRightPlug(c, t);
      forall n | n in repr
        ensures n.Fields() == RowIn(shape, null, n)
      {
        RotatedRightPlugRow(c, t, n);
      }
    }

    /** A direct assignment to x->colour. */
    method Paint(x: Node, colour: Colour, ghost c: Path, ghost t: Shape)
      requires Wired() && shape == Plug(c, t) && t.Fork? && t.node == x
      modifies `shape, x`colour
      ensures Wired() && shape == Plug(c, Painted(t, colour))
    {
      Look(c, t);
      x.colour := colour;
      shape := Plug(c, Painted(t, colour));
      PaintedPlug(c, t, colour);
      forall n | n in repr
        ensures n.Fields() == RowIn(shape, null, n)
      {
        PaintedPlugRow(c, t, colour, n);
      }
    }

    /** A direct assignment to the colour of the sibling of the subtree t. */
    method PaintSibling(u: Node, colour: Colour, ghost c: Path, ghost t: Shape)
      requires Wired() && shape == Plug(c, t) && !c.Top? && Other(c).Fork? && Other(c).node == u
      modifies `shape, u`colour
      ensures Wired() && shape == Plug(WithOther(c, Painted(Other(c), colour)), t)
    {
      Paint(u, colour, SiblingContext(c, t), Other(c));
    }

    /** The two links above a node. */
    lemma LookParent(c: Path, t: Shape)
      requires Wired() && shape == Plug(c, t) && t.Fork?
      ensures t.node.parent == Above(c) && t.node in repr
      ensures !c.Top? ==> c.node in repr && c.node.parent == Above(c.up)
    {
      Look(c, t);
    }

    // -------------------------------------------------------------- insertion

    /** The parent turns black and the grandparent red. */
    method PaintForRaise(k: Node, ghost c: Path, ghost t: Shape) returns (g: Node)
      requires Wired() && shape == Plug(c, t) && t.Fork? && t.node == k && !c.Top? && !c.up.Top?
      modifies `shape, repr
      ensures Wired() && shape == Plug(c.up.up, Around(c.up, Red, Around(c, Black, t))) && g == c.up.node
    {
      ghost var p := Around(c, c.colour, t);
      Look(c, t);
      Look(c.up, p);
      Paint(k.parent, Black, c.up, p);
      g := k.parent.parent;
      Paint(g, Red, c.up.up, Around(c.up, c.up.colour, Painted(p, Black)));
    }

    /** Case 3.1 of iot_node_insert_balance: a red uncle. */
    method Recolour(k: Node, u: Node, ghost c: Path, ghost t: Shape) returns (g: Node)
      requires Wired() && shape == Plug(c, t) && t.Fork? && t.node == k && !c.Top? && !c.up.Top?
      requires Other(c.up).Fork? && Other(c.up).node == u
      modifies `shape, repr
      ensures Wired() && shape == Plug(c.up.up, Recoloured(c, t)) && g == c.up.node
    {
      IdsPlug(c.up, Around(c, c.colour, t));
      assert u in repr;
      PaintSibling(u, Black, c.up, Around(c, c.colour, t));
      ghost var d := c.(up := WithOther(c.up, Painted(Other(c.up), Black)));
      g := PaintForRaise(k, d, t);
    }

    /** Case 3.2.2 when the node is a left child: the parent goes below it. */
    method RaiseInnerLeft(k0: Node, ghost c0: Path, ghost t0: Shape) returns (k: Node, ghost c: Path, ghost t: Shape)
      requires Wired() && shape == Plug(c0, t0) && t0.Fork? && t0.node == k0 && c0.InLeft?
      modifies `tree, `shape, repr
      ensures Wired() && shape == Plug(c, t) && t.Fork? && t.node == k
      ensures c == InnerContext(c0, t0) && t == InnerTree(c0, t0)
    {
      ghost var p := Around(c0, c0.colour, t0);
      Look(c0, t0);
      IdsPlug(c0, t0);
      k := k0.parent;
      Ror(k, c0.up, p);
      c, t := InnerContext(c0, t0), InnerTree(c0, t0);
      assert RotatedRight(p) == Around(c, t0.colour, t);
    }

    method RaiseInnerRight(k0: Node, ghost c0: Path, ghost t0: Shape) returns (k: Node, ghost c: Path, ghost t: Shape)
      requires Wired() && shape == Plug(c0, t0) && t0.Fork? && t0.node == k0 && c0.InRight?
      modifies `tree, `shape, repr
      ensures Wired() && shape == Plug(c, t) && t.Fork? && t.node == k
      ensures c == InnerContext(c0, t0) && t == InnerTree(c0, t0)
    {
      ghost var p := Around(c0, c0.colour, t0);
      Look(c0, t0);
      IdsPlug(c0, t0);
      k := k0.parent;
      Rol(k, c0.up, p);
      c, t := InnerContext(c0, t0), InnerTree(c0, t0);
      assert RotatedLeft(p) == Around(c, t0.colour, t);
    }

    /** Case 3.2.1: the parent takes the place of the grandparent. */
    method RaiseRight(k: Node, ghost c: Path, ghost t: Shape)
      requires Wired() && shape == Plug(c, t) && t.Fork? && t.node == k && c.InRight? && c.up.InRight?
      modifies `tree, `shape, repr
      ensures Wired() && shape == Plug(Raised(c), t)
    {
      var g := PaintForRaise(k, c, t);
      ghost var q := Around(c.up, Red, Around(c, Black, t));
      Rol(g, c.up.up, q);
      assert RotatedLeft(q) == Around(Raised(c), Black, t);
    }

    method RaiseLeft(k: Node, ghost c: Path, ghost t: Shape)
      requires Wired() && shape == Plug(c, t) && t.Fork? && t.node == k && c.InLeft? && c.up.InLeft?
      modifies `tree, `shape, repr
      ensures Wired() && shape == Plug(Raised(c), t)
    {
      var g := PaintForRaise(k, c, t);
      ghost var q := Around(c.up, Red, Around(c, Black, t));
      Ror(g, c.up.up, q);
      assert RotatedRight(q) == Around(Raised(c), Black, t);
    }

    /** The parent, grandparent and uncle of a node, as the pointers give them. */
    lemma LookUncle(c: Path, t: Shape)
      requires Wired() && shape == Plug(c, t) && t.Fork? && !c.Top? && !c.up.Top?
      ensures var k, p, g, u := t.node, c.node, c.up.node, Ptr(Other(c.up));
        && k.parent == p && p.parent == g
        && (if c.InLeft? then p.left == k && p.right != k else p.right == k && p.left != k)
        && (if c.up.InLeft? then g.left == p && g.right == u else g.right == p && g.left == u)
        && p != u && (u != null ==> u.colour == Other(c.up).colour)
    {
      ghost var d, p := c.up, Around(c, c.colour, t);
      Look(c, t);
      Look(d, p);
      IdsPlug(d, p);
      IdsPlug(c, t);
      assert Other(c).Fork? ==> Other(c).node in Ids(Other(c));
      if Other(d).Fork? {
        Look(SiblingContext(d, p), Other(d));
        assert Other(d).node in Ids(Other(d));
      }
    }

    /** One iteration of iot_node_insert_balance. */
    method InsertStep(k0: Node, ghost c0: Path, ghost t0: Shape) returns (k: Node, ghost c: Path, ghost t: Shape)
      requires Wired() && shape == Plug(c0, t0)
      requires Pending(c0, t0) && RedAbove(c0) && t0.node == k0
      modifies `tree, `shape, repr
      ensures Wired() && shape == Plug(c, t) && Pending(c, t) && t.node == k
      ensures Kept(old(shape), shape)
      ensures RedAbove(c) ==> Depth(c) < Depth(c0)
    {
      k, c, t := k0, c0, t0;
      GrandparentExists(c);
      LookUncle(c, t);
      var p := k.parent;
      var g := p.parent;
      var u := if p == g.left then g.right else g.left;
      if p == g.right {
        if u != null && u.colour == Red {
          k, c, t := RecolourStep(k, u, c, t);
        } else {
          if k == p.left {
            InnerStep(c, t);
            k, c, t := RaiseInnerLeft(k, c, t);
          }
          RaiseStep(c, t);
          RaiseRight(k, c, t);
          c := Raised(c);
        }
      } else {
        if u != null && u.colour == Red {
          k, c, t := RecolourStep(k, u, c, t);
        } else {
          if k == p.right {
            InnerStep(c, t);
            k, c, t := RaiseInnerRight(k, c, t);
          }
          RaiseStep(c, t);
          RaiseLeft(k, c, t);
          c := Raised(c);
        }
      }
    }

    method RecolourStep(k0: Node, u: Node, ghost c0: Path, ghost t0: Shape) returns (k: Node, ghost c: Path, ghost t: Shape)
      requires Wired() && shape == Plug(c0, t0)
      requires Pending(c0, t0) && RedAbove(c0) && t0.node == k0 && IsRed(Other(c0.up)) && Other(c0.up).node == u
      modifies `shape, repr
      ensures Wired() && shape == Plug(c, t) && Pending(c, t) && t.node == k
      ensures Kept(old(shape), shape)
      ensures Depth(c) < Depth(c0)
    {
      RecolouredIsPending(c0, t0);
      EquivalentPlug(c0.up.up, Grand(c0, t0), Recoloured(c0, t0));
      k := Recolour(k0, u, c0, t0);
      c, t := c0.up.up, Recoloured(c0, t0);
    }

    lemma RootIsTop(c: Path, t: Shape)
      requires Wired() && shape == Plug(c, t) && t.Fork? && t.node == tree
      ensures c.Top?
    {
      RootPlug(c, t);
      IdsPlug(c, t);
      RootOfInContext(c, tree);
    }

    /** iot_node_insert_balance */
    method InsertBalance(k0: Node, ghost c0: Path, ghost t0: Shape)
      requires Wired() && shape == Plug(c0, t0) && Pending(c0, t0) && t0.node == k0
      modifies `tree, `shape, repr
      ensures Wired() && Coloured(shape) && Kept(old(shape), shape)
    {
      hide Coloured, Kept, Balanced, Wired, Distinct, Inorder, Ids, BlackHeight;
      ghost var c, t, was := c0, t0, shape;
      var k := k0;
      Look(c, t);
      KeptItself(shape);
      while k.parent != null && k.parent.colour == Red
        invariant Wired() && shape == Plug(c, t) && Pending(c, t) && t.node == k
        invariant Kept(old(shape), shape)
        invariant k.parent == Above(c) && (k.parent != null ==> k.parent.colour == c.colour)
        decreases RedAbove(c), Depth(c)
      {
        ghost var before := shape;
        k, c, t := InsertStep(k, c, t);
        KeptOn(was, before, shape);
        Look(c, t);
        if k == tree {
          RootIsTop(c, t);
          break;
        }
      }
      RedRulePlug(c, t);
      PlugFork(c, t);
      ghost var before := shape;
      PaintRoot();
      KeptOn(was, before, shape);
    }

    /** map->tree->colour = IOT_NODE_BLACK */
    method PaintRoot()
      requires Wired() && shape.Fork? && RedRule(shape)
      modifies `shape, repr
      ensures Wired() && Coloured(shape) && Kept(old(shape), shape)
    {
      EquivalentRoot(shape);
      assert shape == Plug(Top, shape);
      Paint(tree, Black, Top, shape);
    }

    /** iot_node_find: the node holding the key, or the place where it belongs. */
    method Find(key: Data) returns (node: Node?, ghost c: Path, ghost t: Shape, ghost comparisons: nat)
      requires Wired() && Ascending(Entries())
      ensures shape == Plug(c, t) && node == Ptr(t)
      ensures t.Leaf? ==> Below(Before(c), key) && AboveKey(After(c), key)
      ensures t.Fork? ==> Cmp(t.entry.key, key) == 0
      ensures t.Fork? ==> Below(Before(c) + Inorder(t.left), key) && AboveKey(Inorder(t.right) + After(c), key)
      ensures comparisons <= Height(shape)
      ensures t == Seat(shape, key)
    {
      hide Cmp, Below, AboveKey, Ascending, Plug, Before, After, Inorder;
      EmptySides(shape, key);
      node, c, t, comparisons := tree, Top, shape, 0;
      while node != null
        invariant Wired() && shape == Plug(c, t) && node == Ptr(t)
        invariant Below(Before(c), key) && AboveKey(After(c), key)
        invariant comparisons + Height(t) <= Height(shape)
        invariant Seat(t, key) == Seat(shape, key)
        decreases t
      {
        Look(c, t);
        Descend(c, t, key);
        var cmp := Cmp(node.key, key);
        comparisons := comparisons + 1;
        if cmp == 0 { return; }
        c, t := DescendTo(c, t, key);
        node := if cmp > 0 then node.left else node.right;
      }
    }

    /** Hangs a fresh red node in an empty place. */
    method Attach(node: Node, y: Node?, ghost c: Path)
      requires Wired() && shape == Plug(c, Leaf) && node !in repr && y == Above(c)
      requires node.left == null && node.right == null && node.colour == Red
      requires c.InLeft? ==> Cmp(node.key, c.entry.key) < 0
      requires c.InRight? ==> Cmp(node.key, c.entry.key) >= 0
      modifies `tree, `shape, `repr, repr, node`parent
      ensures Wired() && shape == Plug(c, Single(node, Entry(node.key, node.value)))
      ensures repr == old(repr) + {node}
    {
      hide Cmp;
      ghost var e := Entry(node.key, node.value);
      LookAbove(c);
      node.parent := y;
      if y == null {
        tree := node;
      } else if Cmp(node.key, y.key) < 0 {
        y.left := node;
      } else {
        y.right := node;
      }
      AttachedPlug(c, node, e);
      forall m | m in repr + {node}
        ensures m.Fields() == RowIn(Plug(c, Single(node, e)), null, m)
      {
        AttachedPlugRow(c, node, e, m);
      }
      shape, repr := Plug(c, Single(node, e)), repr + {node};
    }

    /** The context node next to an empty place. */
    lemma LookAbove(c: Path)
      requires Wired() && shape == Plug(c, Leaf)
      ensures !c.Top? ==> c.node in repr && c.node.Fields() == HoleRow(c, null)
      ensures c.Top? ==> shape == Leaf
    {
      IdsPlug(c, Leaf);
      if !c.Top? { RowPlug(c, Leaf, c.node); }
    }

    /** The descent of iot_node_insert: the empty place where the key belongs. */
    method Place(key: Data) returns (y: Node?, ghost c: Path)
      requires Wired() && Ascending(Entries()) && Get(Entries(), key) == None
      ensures shape == Plug(c, Leaf) && y == Above(c)
      ensures Below(Before(c), key) && AboveKey(After(c), key)
    {
      hide Cmp, Below, AboveKey, Ascending, Plug, Before, After, Inorder, Get;
      var x := tree;
      ghost var t := shape;
      EmptySides(shape, key);
      y, c := null, Top;
      while x != null
        invariant Wired() && shape == Plug(c, t) && x == Ptr(t) && y == Above(c)
        invariant Below(Before(c), key) && AboveKey(After(c), key)
        decreases t
      {
        Look(c, t);
        AbsentHere(c, t, key);
        y := x;
        c, t := DescendTo(c, t, key);
        x := if Cmp(key, x.key) < 0 then x.left else x.right;
      }
    }

    /** iot_node_insert: adds a key that is not in the map. */
    method Insert(key: Data, value: Data)
      requires Wired() && Coloured(shape) && Ascending(Entries()) && Get(Entries(), key) == None
      modifies `tree, `shape, `repr, repr
      ensures Wired() && Coloured(shape) && fresh(repr - old(repr))
      ensures Entries() == Put(old(Entries()), key, value)
      ensures Balanced(old(shape)) ==> Balanced(shape)
    {
      hide Cmp, Below, AboveKey, Ascending, Plug, Before, After, Inorder, Put, Get, Coloured, Balanced, RedRule, BlackRoot, ContextRedRule;
      ghost var c;
      var y;
      y, c := Place(key);
      var node := new Node(null, key, value);
      ghost var e := Entry(key, value);
      SideOfHole(c, key);
      Inserted(c, node, e);
      Attach(node, y, c);
      LookParent(c, Single(node, e));
      if node.parent != null {
        if node.parent.parent != null { InsertBalance(node, c, Single(node, e)); }
      } else {
        Paint(node, Black, c, Single(node, e));
      }
    }

    // -------------------------------------------------------------- removal

    /** iot_node_transplant, field by field: v takes the place of u below u's parent. */
    method Transplant(u: Node, v: Node?, ghost s: set<Node>)
      requires u.parent != v || v == null
      requires Nonnull([v, u.parent]) <= s
      modifies `tree, s
      ensures tree == if old(u.parent) == null then v else old(tree)
      ensures var p := old(u.parent);
        var onLeft := p != null && old(p.left) == u;
        forall n :: n in s ==> n.Fields() == TransplantRow(old(n.Fields()), n, v, p, onLeft)
    {
      if u.parent == null {
        tree := v;
      } else if u == u.parent.left {
        u.parent.left := v;
      } else {
        u.parent.right := v;
      }
      if v != null { v.parent := u.parent; }
    }

    /** What a transplant of a child of z reads and writes. */
    lemma SpliceLook(c: Path, t: Shape, u: Shape)
      requires Wired() && shape == Plug(c, t) && Spliced(t, u)
      ensures var z, v, p := t.node, Ptr(u), Above(c);
        && z.parent == p && z !in repr - {z} && z in repr
        && (p != null ==> p in repr && p != z && (p.left == z <==> c.InLeft?))
        && (v != null ==> v in repr && v != z && v != p)
    {
      IdsPlug(c, t);
      SplicedPlug(c, t, u);
      Look(c, t);
      assert c.InRight? ==> c.left.Fork? ==> c.left.node in Ids(c.left);
      assert t.node in Ids(t);
    }

    /** Takes out a node with at most one child. */
    method Splice(z: Node, v: Node?, ghost c: Path, ghost t: Shape, ghost u: Shape)
      requires Wired() && shape == Plug(c, t) && Spliced(t, u) && t.node == z && v == Ptr(u)
      modifies `tree, `shape, `repr, repr
      ensures Wired() && shape == Plug(c, u) && repr == old(repr) - {z}
      ensures z.Fields() == old(z.Fields())
    {
      SpliceLook(c, t, u);
      SplicedPlug(c, t, u);
      repr := repr - {z};
      Transplant(z, v, repr);
      shape := Plug(c, u);
      forall n | n in repr
        ensures n.Fields() == RowIn(shape, null, n)
      {
        SplicedPlugRow(c, t, u, n);
      }
    }

    /** The last four lines of the two-children case of iot_node_remove, field by field: y takes over the
        parent, the left child and the colour of z. */
    method TakePlace(z: Node, y: Node, ghost s: set<Node>)
      requires y != z && z !in s && y in s && z.left != null && z.left in s && z.left != y
      requires z.parent != null ==> z.parent in s && z.parent != y && z.parent != z.left
      modifies `tree, s
      ensures tree == if old(z.parent) == null then y else old(tree)
      ensures var p, l := old(z.parent), old(z.left);
        var onLeft := p != null && old(p.left) == z;
        forall n :: n in s ==> n.Fields() == TakeRow(old(n.Fields()), n, y, l, p, old(z.colour), onLeft)
      ensures z.Fields() == old(z.Fields())
    {
      Transplant(z, y, s);
      y.left := z.left;
      y.left.parent := y;
      y.colour := z.colour;
    }

    lemma TwoChildrenLook(c: Path, t: Shape)
      requires Wired() && shape == Plug(c, t) && t.Fork? && t.left.Fork? && t.right.Fork?
      ensures var z, l, r, p := t.node, t.left.node, t.right.node, Above(c);
        && z in repr && z.left == l && z.right == r && z.parent == p && z.colour == t.colour
        && l in repr && r in repr && z != l && z != r && l != r
        && (p != null ==> p in repr && p != z && p != l && p != r && (p.left == z <==> c.InLeft?))
    {
      IdsPlug(c, t);
      Look(c, t);
      assert t.left.node in Ids(t.left) && t.right.node in Ids(t.right);
      assert c.InRight? ==> c.left.Fork? ==> c.left.node in Ids(c.left);
      assert t.node in Ids(t);
    }

    /** iot_node_remove when the successor y is the right child of z. */
    method TakeNear(z: Node, y: Node, ghost c: Path, ghost t: Shape)
      requires Wired() && shape == Plug(c, t)
      requires t.Fork? && t.left.Fork? && t.right.Fork? && t.right.left.Leaf? && t.node == z && t.right.node == y
      modifies `tree, `shape, `repr, repr
      ensures Wired() && shape == Plug(c, NearTaken(t)) && repr == old(repr) - {z}
    {
      TwoChildrenLook(c, t);
      NearTakenPlug(c, t);
      repr := repr - {z};
      TakePlace(z, y, repr);
      shape := Plug(c, NearTaken(t));
      forall n | n in repr
        ensures n.Fields() == RowIn(shape, null, n)
      {
        NearTakenRow(c, t, n);
      }
    }

    /** As TakePlace, for a node y that also takes over the right child of z. */
    method TakeBoth(z: Node, y: Node, ghost s: set<Node>)
      requires y != z && z !in s && y in s && z.left != null && z.left in s && z.left != y
      requires z.right != null && z.right in s && z.right != y && z.right != z.left
      requires z.parent != null ==> z.parent in s && z.parent != y && z.parent != z.left && z.parent != z.right
      modifies `tree, s
      ensures tree == if old(z.parent) == null then y else old(tree)
      ensures y.Fields() == Row(old(z.parent), old(z.left), old(z.right), old(z.colour), old(y.Fields()).entry)
      ensures var p, l, r := old(z.parent), old(z.left), old(z.right);
        var onLeft := p != null && old(p.left) == z;
        forall n :: n in s && n != y ==> n.Fields() == TakeBothRow(old(n.Fields()), n, y, l, r, p, onLeft)
    {
      y.right := z.right;
      y.right.parent := y;
      TakePlace(z, y, s);
    }

    /** iot_node_remove when the successor y was further down and has been taken out already. */
    method TakeFar(z: Node, y: Node, ghost c: Path, ghost t: Shape)
      requires Wired() && shape == Plug(c, t) && y !in repr
      requires t.Fork? && t.left.Fork? && t.right.Fork? && t.node == z
      modifies `tree, `shape, `repr, repr, y
      ensures Wired() && shape == Plug(c, Substituted(t, y, Entry(old(y.key), old(y.value)))) && repr == old(repr) - {z} + {y}
    {
      ghost var e := Entry(y.key, y.value);
      TwoChildrenLook(c, t);
      SubstitutedPlug(c, t, y, e);
      repr := repr - {z} + {y};
      TakeBoth(z, y, repr);
      shape := Plug(c, Substituted(t, y, e));
      forall n | n in repr
        ensures n.Fields() == RowIn(shape, null, n)
      {
        SubstitutedRow(c, t, y, e, n);
      }
    }

    /** iot_node_minimum: the leftmost node of the subtree t. */
    method Minimum(node: Node, ghost c: Path, ghost t: Shape) returns (y: Node, ghost d: Path, ghost u: Shape)
      requires Wired() && shape == Plug(c, t) && t.Fork? && t.node == node
      ensures LeftSpine(d) && Plug(d, u) == t && u.Fork? && u.left.Leaf? && u.node == y
      ensures shape == Plug(Compose(d, c), u)
      ensures y.parent == Above(Compose(d, c)) && y.right == Ptr(u.right) && y in repr
    {
      y, d, u := node, Top, t;
      Look(c, t);
      while y.left != null
        invariant LeftSpine(d) && Plug(d, u) == t && shape == Plug(Compose(d, c), u)
        invariant u.Fork? && u.node == y && y in repr && y.Fields() == Row(Above(Compose(d, c)), Ptr(u.left), Ptr(u.right), u.colour, u.entry)
        decreases u
      {
        y := y.left;
        d, u := InLeft(u.node, u.colour, u.entry, u.right, d), u.left;
        PlugCompose(d, c, u);
        Look(Compose(d, c), u);
      }
    }

    /** The first part of iot_node_remove: z leaves the tree. x is the node that moved up into the gap,
        if any, and col the colour that is missing there. */
    method TakeOut(z: Node, ghost c: Path, ghost t: Shape) returns (x: Node?, col: Colour, ghost d: Path, ghost u: Shape)
      requires Wired() && Coloured(shape) && shape == Plug(c, t) && t.Fork? && t.node == z
      modifies `tree, `shape, `repr, repr
      ensures Wired() && shape == Plug(d, u) && x == Ptr(u) && repr == old(repr) - {z}
      ensures Inorder(shape) == Before(c) + Inorder(t.left) + Inorder(t.right) + After(c)
      ensures x == null || col == Red ==> Coloured(shape)
      ensures x != null && col == Black ==> Short(d, u)
      ensures Balanced(old(shape)) ==> (Balanced(Plug(d, Closed(u, col))) <==> Spares(old(shape), Leaving(t)))
      ensures Balanced(old(shape)) && x != null ==> IsRed(u)
    {
      Look(c, t);
      ColouredParts(c, t);
      col := z.colour;
      if z.left == null {
        x := z.right;
        OutAtOnce(c, t, t.right);
        OutAtOnceBalance(c, t, t.right);
        Splice(z, x, c, t, t.right);
        d, u := c, t.right;
      } else if z.right == null {
        x := z.left;
        OutAtOnce(c, t, t.left);
        OutAtOnceBalance(c, t, t.left);
        Splice(z, x, c, t, t.left);
        d, u := c, t.left;
      } else {
        x, col, d, u := TakeOutBetween(z, c, t);
      }
    }

    /** The two-children case: the successor y of z takes its place. */
    method TakeOutBetween(z: Node, ghost c: Path, ghost t: Shape) returns (x: Node?, col: Colour, ghost d: Path, ghost u: Shape)
      requires Wired() && Coloured(shape) && shape == Plug(c, t)
      requires t.Fork? && t.node == z && t.left.Fork? && t.right.Fork?
      modifies `tree, `shape, `repr, repr
      ensures Wired() && shape == Plug(d, u) && x == Ptr(u) && repr == old(repr) - {z}
      ensures Inorder(shape) == Before(c) + Inorder(t.left) + Inorder(t.right) + After(c)
      ensures x == null || col == Red ==> Coloured(shape)
      ensures x != null && col == Black ==> Short(d, u)
      ensures Balanced(old(shape)) ==> (Balanced(Plug(d, Closed(u, col))) <==> Spares(old(shape), Leaving(t)))
      ensures Balanced(old(shape)) && x != null ==> IsRed(u)
    {
      hide Distinct, Inorder, Before, After, Ids, Coloured, Short, Wired, LeftSpine, Balanced;
      WiredIsDistinct();
      ghost var z1 := InRight(t.node, t.colour, t.entry, t.left, c);
      TwoChildrenLook(c, t);
      ghost var m, s;
      var y;
      y, m, s := Minimum(z.right, z1, t.right);
      OutBetween(c, t, m, s);
      OutBetweenBalance(c, t, m, s);
      d, u := Compose(m, InRight(s.node, t.colour, s.entry, t.left, c)), s.right;
      Look(Compose(m, z1), s);
      col := y.colour;
      x := y.right;
      if y.parent == z {
        NearSpine(c, t, m, s);
        TakeNear(z, y, c, t);
      } else {
        FarSpine(c, t, m, s);
        Splice(y, y.right, Compose(m, z1), s, s.right);
        TakeFar(z, y, c, t.(right := Plug(m, s.right)));
      }
    }

    /** The parent and the sibling of a node, and the sibling's children, as the pointers give them. */
    lemma LookSibling(c: Path, t: Shape)
      requires Wired() && shape == Plug(c, t) && t.Fork? && !c.Top?
      ensures var x, p, s := t.node, c.node, Ptr(Other(c));
        && x in repr && p in repr && x.parent == p && x != p && x.colour == t.colour && p.colour == c.colour
        && (if c.InLeft? then p.left == x && p.right == s else p.right == x && p.left == s) && s != x
        && (s != null ==> s in repr && LookNode(s, Other(c)))
    {
      IdsPlug(c, t);
      Look(c, t);
      assert t.node in Ids(t);
      assert Other(c).Fork? ==> Other(c).node in Ids(Other(c));
      if Other(c).Fork? {
        SiblingPlug(c, t);
        Look(SiblingContext(c, t), Other(c));
      }
    }

    /** What the repair reads of a node u. */
    ghost predicate LookNode(n: Node, u: Shape)
      reads `repr, repr, n
    {
      && u.Fork? && n.colour == u.colour && n.left == Ptr(u.left) && n.right == Ptr(u.right)
      && (u.left.Fork? ==> u.left.node in repr && u.left.node.colour == u.left.colour)
      && (u.right.Fork? ==> u.right.node in repr && u.right.node.colour == u.right.colour)
    }

    /** Assignments to the colours of the sibling and of the parent. */
    method PaintSiblingAndParent(x: Node, s: Node, sc: Colour, pc: Colour, ghost c: Path, ghost t: Shape)
      requires Wired() && shape == Plug(c, t) && t.Fork? && t.node == x && !c.Top? && Other(c).Fork? && Other(c).node == s
      modifies `shape, repr
      ensures Wired() && shape == Plug(c.up, Around(WithOther(c, Painted(Other(c), sc)), pc, t)) && x.parent == c.node
    {
      LookSibling(c, t);
      PaintSibling(s, sc, c, t);
      ghost var d := WithOther(c, Painted(Other(c), sc));
      LookSibling(d, t);
      Paint(x.parent, pc, d.up, Around(d, d.colour, t));
    }

    /** Case 3.1 of iot_node_remove_balance, x a left child. */
    method RaiseSiblingLeft(x: Node, s: Node, ghost c: Path, ghost t: Shape)
      requires Wired() && shape == Plug(c, t) && t.Fork? && t.node == x && c.InLeft? && c.right.Fork? && c.right.node == s
      modifies `tree, `shape, repr
      ensures Wired() && shape == Plug(SiblingRaised(c), t)
    {
      PaintSiblingAndParent(x, s, Black, Red, c, t);
      ghost var q := Around(WithOther(c, Painted(Other(c), Black)), Red, t);
      Rol(x.parent, c.up, q);
      assert RotatedLeft(q) == Around(SiblingRaised(c).up, Black, Around(SiblingRaised(c), Red, t));
    }

    method RaiseSiblingRight(x: Node, s: Node, ghost c: Path, ghost t: Shape)
      requires Wired() && shape == Plug(c, t) && t.Fork? && t.node == x && c.InRight? && c.left.Fork? && c.left.node == s
      modifies `tree, `shape, repr
      ensures Wired() && shape == Plug(SiblingRaised(c), t)
    {
      PaintSiblingAndParent(x, s, Black, Red, c, t);
      ghost var q := Around(WithOther(c, Painted(Other(c), Black)), Red, t);
      Ror(x.parent, c.up, q);
      assert RotatedRight(q) == Around(SiblingRaised(c).up, Black, Around(SiblingRaised(c), Red, t));
    }

    /** Case 3.3, x a left child. */
    method RaiseNearLeft(s: Node, ghost c: Path, ghost t: Shape)
      requires Wired() && shape == Plug(c, t) && t.Fork? && c.InLeft? && c.right.Fork? && c.right.node == s
      requires c.right.left.Fork?
      modifies `tree, `shape, repr
      ensures Wired() && shape == Plug(WithOther(c, NearRaised(c)), t)
    {
      ghost var d, u := SiblingContext(c, t), c.right;
      SiblingPlug(c, t);
      Look(d, u);
      Paint(s.left, Black, InLeft(u.node, u.colour, u.entry, u.right, d), u.left);
      u := u.(left := Painted(u.left, Black));
      Paint(s, Red, d, u);
      u := Painted(u, Red);
      Ror(s, d, u);
      SiblingPlug(WithOther(c, NearRaised(c)), t);
    }

    method RaiseNearRight(s: Node, ghost c: Path, ghost t: Shape)
      requires Wired() && shape == Plug(c, t) && t.Fork? && c.InRight? && c.left.Fork? && c.left.node == s
      requires c.left.right.Fork?
      modifies `tree, `shape, repr
      ensures Wired() && shape == Plug(WithOther(c, NearRaised(c)), t)
    {
      ghost var d, u := SiblingContext(c, t), c.left;
      SiblingPlug(c, t);
      Look(d, u);
      Paint(s.right, Black, InRight(u.node, u.colour, u.entry, u.left, d), u.right);
      u := u.(right := Painted(u.right, Black));
      Paint(s, Red, d, u);
      u := Painted(u, Red);
      Rol(s, d, u);
      SiblingPlug(WithOther(c, NearRaised(c)), t);
    }

    /** Case 3.4, x a left child. */
    method RaiseFarLeft(x: Node, s: Node, ghost c: Path, ghost t: Shape)
      requires Wired() && shape == Plug(c, t) && t.Fork? && t.node == x && c.InLeft? && c.right.Fork? && c.right.node == s
      modifies `tree, `shape, repr
      ensures Wired() && shape == Plug(c.up, FarRaised(c, t))
    {
      LookSibling(c, t);
      PaintSiblingAndParent(x, s, x.parent.colour, Black, c, t);
      ghost var u := Painted(c.right, c.colour);
      ghost var d := InRight(c.node, Black, c.entry, t, c.up);
      Look(d, u);
      if s.right != null { Paint(s.right, Black, InRight(u.node, u.colour, u.entry, u.left, d), u.right); }
      ghost var q := Fork(c.node, Black, c.entry, t, Fork(u.node, u.colour, u.entry, u.left, Painted(u.right, Black)));
      assert shape == Plug(c.up, q);
      Rol(x.parent, c.up, q);
    }

    method RaiseFarRight(x: Node, s: Node, ghost c: Path, ghost t: Shape)
      requires Wired() && shape == Plug(c, t) && t.Fork? && t.node == x && c.InRight? && c.left.Fork? && c.left.node == s
      modifies `tree, `shape, repr
      ensures Wired() && shape == Plug(c.up, FarRaised(c, t))
    {
      LookSibling(c, t);
      PaintSiblingAndParent(x, s, x.parent.colour, Black, c, t);
      ghost var u := Painted(c.left, c.colour);
      ghost var d := InLeft(c.node, Black, c.entry, t, c.up);
      Look(d, u);
      if s.left != null { Paint(s.left, Black, InLeft(u.node, u.colour, u.entry, u.right, d), u.left); }
      ghost var q := Fork(c.node, Black, c.entry, Fork(u.node, u.colour, u.entry, Painted(u.left, Black), u.right), t);
      assert shape == Plug(c.up, q);
      Ror(x.parent, c.up, q);
    }

    /** IS_LEFT_BLACK and IS_RIGHT_BLACK */
    predicate IsBlackChild(s: Node?, left: bool)
      reads s, if s == null then {} else Nonnull([s.left, s.right])
    {
      s == null || (var n := if left then s.left else s.right; n == null || n.colour == Black)
    }
    /** Case 3.1, if it applies: afterwards the sibling s is black or missing. */
    method SettleSiblingLeft(x: Node, ghost c0: Path, ghost t: Shape) returns (s: Node?, ghost c: Path)
      requires Wired() && shape == Plug(c0, t) && Short(c0, t) && t.Fork? && t.node == x && c0.InLeft? && t.colour == Black
      modifies `tree, `shape, repr
      ensures Wired() && shape == Plug(c, t) && Short(c, t) && c.InLeft? && !IsRed(Other(c)) && s == Ptr(Other(c))
      ensures x.parent == c.node && c.node in repr && (s != null ==> s in repr && LookNode(s, Other(c)))
      ensures Inorder(shape) == old(Inorder(shape))
      ensures c == c0 || (c.colour == Red && Depth(c) == Depth(c0) + 1)
    {
      hide Coloured, RedRule, ContextRedRule, BlackRoot, Inorder, Ids, Short;
      c := c0;
      LookSibling(c, t);
      s := x.parent.right;
      if s != null && s.colour == Red {
        SiblingRaisedIsShort(c, t);
        SiblingRaisedContents(c, t);
        RaiseSiblingLeft(x, s, c, t);
        c := SiblingRaised(c);
        LookSibling(c, t);
        s := x.parent.right;
      }
    }

    /** Cases 3.3 and 3.4: the sibling has a red child. */
    method RaiseNephewLeft(x: Node, s0: Node, ghost c0: Path, ghost t: Shape)
      requires Wired() && shape == Plug(c0, t) && Short(c0, t) && t.Fork? && t.node == x && c0.InLeft? && t.colour == Black
      requires !IsRed(Other(c0)) && s0 == Ptr(Other(c0)) && LookNode(s0, Other(c0))
      requires IsRed(Other(c0).left) || IsRed(Other(c0).right)
      modifies `tree, `shape, repr
      ensures Wired() && Short(Top, shape) && Inorder(shape) == old(Inorder(shape))
    {
      hide Coloured, RedRule, ContextRedRule, BlackRoot, Inorder, Ids, Short;
      var s: Node? := s0;
      ghost var c := c0;
      if s.right == null || s.right.colour == Black {
        NearRaisedIsShort(c, t);
        NearRaisedContents(c, t);
        RaiseNearLeft(s, c, t);
        c := WithOther(c, NearRaised(c));
        LookSibling(c, t);
        s := x.parent.right;
      }
      FarRaisedIsShort(c, t);
      FarRaisedContents(c, t);
      RaiseFarLeft(x, s, c, t);
    }

    /** One iteration of iot_node_remove_balance, x a left child. */
    method RemoveStepLeft(x0: Node, ghost c0: Path, ghost t0: Shape) returns (x: Node, ghost c: Path, ghost t: Shape)
      requires Wired() && shape == Plug(c0, t0) && Short(c0, t0) && t0.node == x0 && c0.InLeft? && t0.colour == Black
      modifies `tree, `shape, repr
      ensures Wired() && shape == Plug(c, t) && Short(c, t) && t.node == x
      ensures Inorder(shape) == old(Inorder(shape))
      ensures t.colour == Black ==> Depth(c) < Depth(c0)
    {
      hide Coloured, RedRule, ContextRedRule, BlackRoot, Inorder, Ids;
      x, t := x0, t0;
      var s;
      s, c := SettleSiblingLeft(x, c0, t);
      if IsBlackChild(s, true) && IsBlackChild(s, false) {
        SiblingReddenedIsShort(c, t);
        if s != null { PaintSibling(s, Red, c, t); }
        x := x.parent;
        c, t := c.up, SiblingReddened(c, t);
      } else {
        RaiseNephewLeft(x, s, c, t);
        x, c, t := tree, Top, shape;
      }
    }

    /** Case 3.1, if it applies: afterwards the sibling s is black or missing. */
    method SettleSiblingRight(x: Node, ghost c0: Path, ghost t: Shape) returns (s: Node?, ghost c: Path)
      requires Wired() && shape == Plug(c0, t) && Short(c0, t) && t.Fork? && t.node == x && c0.InRight? && t.colour == Black
      modifies `tree, `shape, repr
      ensures Wired() && shape == Plug(c, t) && Short(c, t) && c.InRight? && !IsRed(Other(c)) && s == Ptr(Other(c))
      ensures x.parent == c.node && c.node in repr && (s != null ==> s in repr && LookNode(s, Other(c)))
      ensures Inorder(shape) == old(Inorder(shape))
      ensures c == c0 || (c.colour == Red && Depth(c) == Depth(c0) + 1)
    {
      hide Coloured, RedRule, ContextRedRule, BlackRoot, Inorder, Ids, Short;
      c := c0;
      LookSibling(c, t);
      s := x.parent.left;
      if s != null && s.colour == Red {
        SiblingRaisedIsShort(c, t);
        SiblingRaisedContents(c, t);
        RaiseSiblingRight(x, s, c, t);
        c := SiblingRaised(c);
        LookSibling(c, t);
        s := x.parent.left;
      }
    }

    /** Cases 3.3 and 3.4: the sibling has a red child. */
    method RaiseNephewRight(x: Node, s0: Node, ghost c0: Path, ghost t: Shape)
      requires Wired() && shape == Plug(c0, t) && Short(c0, t) && t.Fork? && t.node == x && c0.InRight? && t.colour == Black
      requires !IsRed(Other(c0)) && s0 == Ptr(Other(c0)) && LookNode(s0, Other(c0))
      requires IsRed(Other(c0).left) || IsRed(Other(c0).right)
      modifies `tree, `shape, repr
      ensures Wired() && Short(Top, shape) && Inorder(shape) == old(Inorder(shape))
    {
      hide Coloured, RedRule, ContextRedRule, BlackRoot, Inorder, Ids, Short;
      var s: Node? := s0;
      ghost var c := c0;
      if s.left == null || s.left.colour == Black {
        NearRaisedIsShort(c, t);
        NearRaisedContents(c, t);
        RaiseNearRight(s, c, t);
        c := WithOther(c, NearRaised(c));
        LookSibling(c, t);
        s := x.parent.left;
      }
      FarRaisedIsShort(c, t);
      FarRaisedContents(c, t);
      RaiseFarRight(x, s, c, t);
    }

    /** One iteration of iot_node_remove_balance, x a right child. */
    method RemoveStepRight(x0: Node, ghost c0: Path, ghost t0: Shape) returns (x: Node, ghost c: Path, ghost t: Shape)
      requires Wired() && shape == Plug(c0, t0) && Short(c0, t0) && t0.node == x0 && c0.InRight? && t0.colour == Black
      modifies `tree, `shape, repr
      ensures Wired() && shape == Plug(c, t) && Short(c, t) && t.node == x
      ensures Inorder(shape) == old(Inorder(shape))
      ensures t.colour == Black ==> Depth(c) < Depth(c0)
    {
      hide Coloured, RedRule, ContextRedRule, BlackRoot, Inorder, Ids;
      x, t := x0, t0;
      var s;
      s, c := SettleSiblingRight(x, c0, t);
      if IsBlackChild(s, false) && IsBlackChild(s, true) {
        SiblingReddenedIsShort(c, t);
        if s != null { PaintSibling(s, Red, c, t); }
        x := x.parent;
        c, t := c.up, SiblingReddened(c, t);
      } else {
        RaiseNephewRight(x, s, c, t);
        x, c, t := tree, Top, shape;
      }
    }

    /** iot_node_remove_balance */
    method RemoveBalance(x0: Node, ghost c0: Path, ghost t0: Shape)
      requires Wired() && shape == Plug(c0, t0) && Short(c0, t0) && t0.node == x0
      modifies `tree, `shape, repr
      ensures Wired() && Coloured(shape) && Inorder(shape) == old(Inorder(shape))
      ensures IsRed(t0) ==> shape == Plug(c0, Painted(t0, Black))
    {
      hide Coloured, RedRule, ContextRedRule, BlackRoot, Inorder, Ids, Plug;
      var x := x0;
      ghost var c, t := c0, t0;
      IsFork(c, t);
      Look(c, t);
      RootTop(c, t);
      while x != tree && x.colour == Black
        invariant Wired() && shape == Plug(c, t) && Short(c, t) && t.node == x && t.Fork? && x.colour == t.colour && x in repr
        invariant x == tree <==> c.Top?
        invariant Inorder(shape) == old(Inorder(shape))
        invariant IsRed(t0) ==> c == c0 && t == t0
        decreases if t.colour == Black then Depth(c) + 1 else 0
      {
        LookSibling(c, t);
        if x == x.parent.left {
          x, c, t := RemoveStepLeft(x, c, t);
        } else {
          x, c, t := RemoveStepRight(x, c, t);
        }
        IsFork(c, t);
        Look(c, t);
        RootTop(c, t);
      }
      ShortPainted(c, t);
      Paint(x, Black, c, t);
    }

    lemma RootTop(c: Path, t: Shape)
      requires Wired() && shape == Plug(c, t) && t.Fork?
      ensures t.node == tree <==> c.Top?
    {
      if t.node == tree { RootIsTop(c, t); }
      if c.Top? { assert Plug(c, t) == t; }
    }

    /** iot_node_remove */
    method RemoveNode(key: Data) returns (found: bool)
      requires Wired() && Coloured(shape) && Ascending(Entries())
      modifies `tree, `shape, `repr, repr
      ensures Wired() && Coloured(shape) && repr <= old(repr)
      ensures found == (Get(old(Entries()), key) != None)
      ensures Entries() == Drop(old(Entries()), key)
      ensures Balanced(old(shape)) ==> (Balanced(shape) <==> !found || Spares(old(shape), LeavingFor(old(shape), key)))
    {
      hide Cmp, Below, AboveKey, Ascending, Plug, Before, After, Inorder, Drop, Get, Coloured, Short;
      var z;
      ghost var c, t, steps;
      z, c, t, steps := Find(key);
      Removed(c, t, key);
      found := z != null;
      if z != null {
        var x, col;
        ghost var d, u;
        x, col, d, u := TakeOut(z, c, t);
        if x != null && col == Black { RemoveBalance(x, d, u); }
      }
    }

    // -------------------------------------------------------------- the map interface

    /** iot_data_map_hash: mixes one new entry into the cached hash. */
    method MixHash(key: Data, value: Data)
      modifies `hash
      ensures hash == Xor(old(hash), HashEntry(Entry(key, value)))
    {
      var keyHash, valueHash := Hash(key), Hash(value);
      hash := Xor(hash, keyHash);
      if valueHash != keyHash { hash := Xor(hash, valueHash); }
      XorAssociates(old(hash), keyHash, valueHash);
    }

    /** Replaces the value of an existing entry in place. */
    method Overwrite(node: Node, value: Data, ghost c: Path, ghost t: Shape)
      requires Wired() && shape == Plug(c, t) && t.Fork? && t.node == node
      modifies `shape, node`value
      ensures Wired() && shape == Plug(c, t.(entry := Entry(t.entry.key, value)))
    {
      ghost var u := t.(entry := Entry(t.entry.key, value));
      Look(c, t);
      ValuedPlug(c, t, u);
      node.value := value;
      shape := Plug(c, u);
      forall n | n in repr
        ensures n.Fields() == RowIn(shape, null, n)
      {
        ValuedPlugRow(c, t, u, n);
      }
    }

    /** iot_node_add: true when the key is new. */
    method NodeAdd(key: Data, value: Data) returns (added: bool)
      requires Valid()
      modifies `tree, `shape, `repr, `hash, `rehash, repr
      ensures Wired() && Coloured(shape) && fresh(repr - old(repr))
      ensures rehash || hash == HashEntries(Entries())
      ensures added == (Get(old(Entries()), key) == None)
      ensures Entries() == Put(old(Entries()), key, value)
      ensures Balanced(old(shape)) ==> Balanced(shape)
    {
      hide *;
      var node;
      ghost var c, t, steps;
      ValidParts();
      node, c, t, steps := Find(key);
      Removed(c, t, key);
      PtrIs(t);
      if node != null {
        Look(c, t);
        rehash := true;
        Overwritten(c, t, key, value);
        Overwrite(node, value, c, t);
        EntriesAre();
      } else {
        Mixed(c, key, value);
        Insert(key, value);
        EntriesAre();
        MixHash(key, value);
      }
      added := node == null;
    }

    /** iot_data_map_add */
    method Add(key: Data, value: Data)
      requires Valid() && key != Missing && value != Missing
      modifies this, repr
      ensures Valid() && fresh(repr - old(repr))
      ensures Entries() == Put(old(Entries()), key, value)
      ensures Balanced(old(shape)) ==> Balanced(shape)
    {
      PutKeepsOrder(Entries(), key, value);
      PutRealKeys(Entries(), key, value);
      var added := NodeAdd(key, value);
      if added { size := size + 1; }
    }

    /** iot_data_map_add_unused: adds the key unless it is there already. */
    method AddUnused(key: Data, value: Data) returns (add: bool)
      requires Valid() && key != Missing && value != Missing
      modifies this, repr
      ensures Valid() && fresh(repr - old(repr))
      ensures add == (Get(old(Entries()), key) == None)
      ensures Entries() == if add then Put(old(Entries()), key, value) else old(Entries())
      ensures Balanced(old(shape)) ==> Balanced(shape)
    {
      var found, steps := Lookup(key);
      add := found == None;
      if add {
        PutKeepsOrder(Entries(), key, value);
        PutRealKeys(Entries(), key, value);
        var added := NodeAdd(key, value);
        size := size + 1;
      }
    }

    /** iot_data_map_get. In a balanced map it makes at most 2 log2 (size + 1) comparisons. */
    method Lookup(key: Data) returns (value: Option<Data>, ghost comparisons: nat)
      requires Valid()
      ensures value == Get(Entries(), key)
      ensures comparisons <= Height(shape)
      ensures Balanced(shape) ==> Pow2(comparisons) <= (size + 1) * (size + 1)
    {
      hide Cmp, Below, AboveKey, Ascending, Plug, Before, After, Inorder, Get;
      var node;
      ghost var c, t;
      node, c, t, comparisons := Find(key);
      Removed(c, t, key);
      if node != null { Look(c, t); }
      value := if node == null then None else Some(node.value);
      if Balanced(shape) {
        SizeIsLength(shape);
        HeightIsLogarithmic(shape);
        Pow2Monotone(comparisons, Height(shape));
      }
    }

    /** iot_data_map_remove */
    method Remove(key: Data) returns (removed: bool)
      requires Valid()
      modifies this, repr
      ensures Valid() && repr <= old(repr)
      ensures removed == (key != Missing && Get(old(Entries()), key) != None)
      ensures Entries() == if removed then Drop(old(Entries()), key) else old(Entries())
      ensures removed ==> size == old(size) - 1
      ensures Balanced(old(shape)) ==> (Balanced(shape) <==> !removed || Spares(old(shape), LeavingFor(old(shape), key)))
    {
      removed := false;
      if key != Missing {
        DropLaws(Entries(), key, key);
        Dropped(Entries(), key);
        DropRealKeys(Entries(), key);
        removed := RemoveNode(key);
        if removed {
          rehash := true;
          size := size - 1;
        }
      }
    }

    // -------------------------------------------------------------- iteration

    /** The node at (c, t) is at position i of the iteration order. */
    ghost predicate At(node: Node, c: Path, t: Shape, i: nat)
      reads `shape
    {
      shape == Plug(c, t) && t.Fork? && t.node == node && |Before(c)| + |Inorder(t.left)| == i
    }

    /** The position of a node tells its entry. */
    lemma EntryAt(node: Node, c: Path, t: Shape, i: nat)
      requires Wired() && At(node, c, t, i)
      ensures node in repr && i < |Entries()| && Entry(node.key, node.value) == Entries()[i]
    {
      Look(c, t);
      InorderAround(c, t);
      var l, r := Before(c) + Inorder(t.left), Inorder(t.right) + After(c);
      assert (l + [t.entry] + r)[|l|] == t.entry;
    }

    lemma Later(a: Node, ca: Path, ta: Shape, b: Node, cb: Path, tb: Shape, i: nat)
      requires Wired() && i > 0 && At(a, ca, ta, i - 1) && At(b, cb, tb, i)
      ensures Ascending(Entries()) ==> Precedes(a.key, b.key)
    {
      hide *;
      EntryAt(a, ca, ta, i - 1);
      EntryAt(b, cb, tb, i);
      KeysInOrder(Entries());
    }

    /** What iteration relies on. */
    ghost predicate Iterable()
      reads `size, `tree, `shape, `repr, repr
    {
      Wired() && size == |Entries()|
    }

    /** iot_node_start: the first node, if any. */
    method Start() returns (node: Node?, ghost c: Path, ghost t: Shape)
      requires Wired()
      ensures node == null ==> Entries() == []
      ensures node != null ==> At(node, c, t, 0)
      ensures node != null ==> node in repr && Entries() != [] && Entry(node.key, node.value) == Entries()[0]
    {
      if tree == null {
        node, c, t := null, Top, Leaf;
      } else {
        assert shape == Plug(Top, shape);
        node, c, t := Minimum(tree, Top, shape);
        LeftSpineBefore(c);
        EntryAt(node, c, t, 0);
      }
    }

    /** iot_node_next: the node at the next position, found through the child and parent links. */
    method NodeNext(iter: Node, ghost c: Path, ghost t: Shape, ghost i: nat) returns (next: Node?, ghost d: Path, ghost u: Shape)
      requires Wired() && At(iter, c, t, i)
      ensures next == null <==> i + 1 == |Entries()|
      ensures next != null ==> At(next, d, u, i + 1)
    {
      hide Inorder, Before, RedRule;
      Look(c, t);
      NextLengths(c, t);
      if iter.right != null {
        ghost var z := InRight(t.node, t.colour, t.entry, t.left, c);
        ghost var m;
        next, m, u := Minimum(iter.right, z, t.right);
        d := Compose(m, z);
        SpineBefore(m, z);
        EntryAt(next, d, u, i + 1);
      } else {
        var it := iter;
        next := iter.parent;
        d, u := c, t;
        while next != null && it == next.right
          invariant Wired() && shape == Plug(d, u) && u.Fork? && u.node == it && next == Above(d) && it.parent == next
          invariant |Before(d)| + |Inorder(u)| == i + 1
          invariant next != null ==> next in repr && next.Fields() == HoleRow(d, it)
          decreases d
        {
          LookSibling(d, u);
          ClimbLength(d, u);
          it := next;
          next := next.parent;
          d, u := d.up, Around(d, d.colour, u);
          Look(d, u);
        }
        InorderPlug(d, u);
        if next != null {
          LookSibling(d, u);
          ClimbLength(d, u);
          d, u := d.up, Around(d, d.colour, u);
          EntryAt(next, d, u, i + 1);
        }
      }
    }

    /** iot_data_map_empty: removes the first entry until there is none. */
    method Empty()
      requires Valid()
      modifies this, repr
      ensures Valid() && repr <= old(repr) && Entries() == []
    {
      hide Cmp, Get, Drop;
      var node;
      ghost var c, t;
      node, c, t := Start();
      while node != null
        invariant Valid() && repr <= old(repr)
        invariant node == null ==> Entries() == []
        invariant node != null ==> node in repr && Entries() != [] && node.key == Entries()[0].key
        decreases size
      {
        FirstDropped(Entries());
        assert Entries()[0] in Entries();
        var removed := Remove(node.key);
        node, c, t := Start();
      }
    }

    /** The loop of iot_data_hash for a map. */
    method Recompute()
      requires Iterable()
      modifies `hash
      ensures hash == HashEntries(Entries())
    {
      hide Wired, At, HashEntries, HashEntry, Xor;
      NoHash();
      hash := 0;
      var iter := new MapIter(this);
      ghost var es := Entries();
      var more := iter.Next();
      while more
        invariant iter.Valid() && iter.map_ == this && fresh(iter)
        invariant more ==> iter.node != null && iter.count > 0 && Entry(iter.node.key, iter.node.value) == es[iter.count - 1]
        invariant hash == HashEntries(es[..if more then iter.count - 1 else size])
        decreases if more then size - iter.count + 1 else 0
      {
        HashPrefix(es, iter.count);
        MixHash(iter.node.key, iter.node.value);
        more := iter.Next();
      }
      assert es[..size] == es;
    }

    lemma NoHash()
      ensures HashEntries([]) == 0
    {
    }

    /** iot_data_hash for a map: recomputes the hash if it is out of date. */
    method HashValue() returns (h: nat)
      requires Valid()
      modifies `hash, `rehash
      ensures Valid() && !rehash
      ensures h == Hash(Map(Entries()))
    {
      hide Cmp;
      if rehash {
        rehash := false;
        Recompute();
      }
      h := hash;
    }
  }

  /** iot_data_map_iter_t */
  class MapIter {
    const map_: DataMap
    var node: Node?
    var count: nat
    ghost var context: Path
    ghost var subtree: Shape

    /** The cursor is before the first entry, or on entry number `count`. */
    ghost predicate Valid()
      reads this, map_`size, map_`tree, map_`shape, map_`repr, map_.repr
    {
      && map_.Iterable() && count <= map_.size && (count == 0 <==> node == null)
      && (node != null ==> map_.At(node, context, subtree, count - 1))
    }

    /** iot_data_map_iter */
    constructor (m: DataMap)
      requires m.Iterable()
      ensures Valid() && map_ == m && count == 0
    {
      map_, node, count := m, null, 0;
    }

    /** iot_data_map_iter_next: visits every entry once in ascending order, reports the end by returning
        false, and starts again after that. */
    method Next() returns (more: bool)
      requires Valid()
      modifies this
      ensures Valid()
      ensures more == old(HasNext())
      ensures count == if more then old(count) + 1 else 0
      ensures more ==> node != null && Entry(node.key, node.value) == map_.Entries()[count - 1]
      ensures more && old(node) != null && Ascending(map_.Entries()) ==> Precedes(old(node).key, node.key)
    {
      ghost var last := node;
      ghost var context', subtree' := context, subtree;
      if node != null {
        node, context, subtree := map_.NodeNext(node, context, subtree, count - 1);
      } else {
        node, context, subtree := map_.Start();
      }
      count := if count < map_.size then count + 1 else 0;
      more := node != null;
      if more {
        map_.EntryAt(node, context, subtree, count - 1);
        if last != null { map_.Later(last, context', subtree', node, context, subtree, count - 1); }
      }
    }

    /** iot_data_map_iter_has_next: exactly when Next will return true. */
    predicate HasNext(): (more: bool)
      requires Valid()
      reads this, map_`size, map_`tree, map_`shape, map_`repr, map_.repr
      ensures more <==> count < |map_.Entries()|
    {
      count < map_.size
    }
  }

  // ---------------------------------------------------------------- runs of operations

  datatype Operation =
    | AddOp(key: Data, value: Data)
    | AddUnusedOp(key: Data, value: Data)
    | RemoveOp(key: Data)
    | GetOp(key: Data)
    | EmptyOp

  ghost predicate Legal(op: Operation) {
    (op.AddOp? || op.AddUnusedOp? ==> op.key != Missing && op.value != Missing)
  }

  ghost function Effect(es: seq<Entry>, op: Operation): seq<Entry> {
    match op
    case AddOp(key, value) => Put(es, key, value)
    case AddUnusedOp(key, value) => if Get(es, key) == None then Put(es, key, value) else es
    case RemoveOp(key) => if key == Missing then es else Drop(es, key)
    case GetOp(_) => es
    case EmptyOp => []
  }

  /** What the caller is told: whether something was added or removed, and what was found. */
  datatype Answer = Done | Said(yes: bool) | Found(value: Option<Data>)

  ghost function AnswerTo(es: seq<Entry>, op: Operation): Answer {
    match op
    case AddOp(_, _) => Done
    case AddUnusedOp(key, _) => Said(Get(es, key) == None)
    case RemoveOp(key) => Said(key != Missing && Get(es, key) != None)
    case GetOp(key) => Found(Get(es, key))
    case EmptyOp => Done
  }

  ghost function Answers(es: seq<Entry>, ops: seq<Operation>): seq<Answer>
    decreases ops
  {
    if ops == [] then [] else [AnswerTo(es, ops[0])] + Answers(Effect(es, ops[0]), ops[1..])
  }

  ghost function Effects(es: seq<Entry>, ops: seq<Operation>): seq<Entry>
    decreases ops
  {
    if ops == [] then es else Effects(Effect(es, ops[0]), ops[1..])
  }

  /** Any interleaving of operations: the tree stays valid and holds what the operations say, every answer is
      the one a finite map would give, and the tree stays balanced as long as nothing is removed. */
  method Run(m: DataMap, ops: seq<Operation>) returns (answers: seq<Answer>)
    requires m.Valid() && forall op :: op in ops ==> Legal(op)
    modifies m, m.repr
    ensures m.Valid() && fresh(m.repr - old(m.repr))
    ensures m.Entries() == Effects(old(m.Entries()), ops)
    ensures answers == Answers(old(m.Entries()), ops)
    ensures (forall op :: op in ops ==> !op.RemoveOp?) && Balanced(old(m.shape)) ==> Balanced(m.shape)
  {
    hide Cmp, Get, Put, Drop, Ascending, Balanced, Effect, AnswerTo;
    answers := [];
    NoPrefix(Answers(m.Entries(), ops));
    assert ops[0..] == ops;
    for i := 0 to |ops|
      invariant m.Valid() && fresh(m.repr - old(m.repr))
      invariant Effects(old(m.Entries()), ops) == Effects(m.Entries(), ops[i..])
      invariant Answers(old(m.Entries()), ops) == answers + Answers(m.Entries(), ops[i..])
      invariant (forall op :: op in ops ==> !op.RemoveOp?) && Balanced(old(m.shape)) ==> Balanced(m.shape)
    {
      var op := ops[i];
      assert op in ops && ops[i..][0] == op && ops[i..][1..] == ops[i + 1..];
      ghost var es := m.Entries();
      var answer := Perform(m, op);
      Assoc(answers, [answer], Answers(m.Entries(), ops[i + 1..]));
      answers := answers + [answer];
    }
    NoSuffix(answers);
  }

  lemma NothingIsBalanced(t: Shape)
    requires Inorder(t) == []
    ensures Balanced(t)
  {
    SizeIsLength(t);
  }

  method Perform(m: DataMap, op: Operation) returns (answer: Answer)
    requires m.Valid() && Legal(op)
    modifies m, m.repr
    ensures m.Valid() && fresh(m.repr - old(m.repr))
    ensures m.Entries() == Effect(old(m.Entries()), op) && answer == AnswerTo(old(m.Entries()), op)
    ensures !op.RemoveOp? && Balanced(old(m.shape)) ==> Balanced(m.shape)
  {
    hide Cmp, Get, Put, Drop, Ascending, Balanced;
    answer := Done;
    match op
    case AddOp(key, value) => m.Add(key, value);
    case AddUnusedOp(key, value) => var added := m.AddUnused(key, value); answer := Said(added);
    case RemoveOp(key) => Dropped(m.Entries(), key); var removed := m.Remove(key); answer := Said(removed);
    case GetOp(key) => var value, steps := m.Lookup(key); answer := Found(value);
    case EmptyOp => m.Empty(); NothingIsBalanced(m.shape);
  }

  // ---------------------------------------------------------------- a removal that unbalances

  /** In a balanced tree of four entries a child of the root is spared by nothing when it is removed. */
  lemma BlackChildLeaves(t: Shape, left: bool)
    requires Ascending(Inorder(t)) && t.Fork? && (if left then t.left else t.right).Fork?
    requires var u := if left then t.left else t.right; u == Fork(u.node, Black, u.entry, Leaf, Leaf)
    ensures var u := if left then t.left else t.right;
      && u.entry in Inorder(t) && Get(Inorder(t), u.entry.key) == Some(u.entry.value)
      && !Spares(t, LeavingFor(t, u.entry.key))
  {
    hide Cmp, Ascending, Below, AboveKey, Get, Drop;
    var u := if left then t.left else t.right;
    var c: Path := if left then InLeft(t.node, t.colour, t.entry, t.right, Top) else InRight(t.node, t.colour, t.entry, t.left, Top);
    assert Plug(c, u) == t;
    CmpSelf(u.entry.key);
    Descend(c, u, u.entry.key);
    Removed(c, u, u.entry.key);
    ChildSeat(t, left);
    WholeTree(c, u);
  }

  /** The search for the key of a child of the root ends at that child. */
  lemma ChildSeat(t: Shape, left: bool)
    requires Ascending(Inorder(t)) && t.Fork? && (if left then t.left else t.right).Fork?
    ensures var u := if left then t.left else t.right; Seat(t, u.entry.key) == u
  {
    hide Cmp;
    var u := if left then t.left else t.right;
    var l := Inorder(t.left);
    var i := if left then |Inorder(u.left)| else |l| + 1 + |Inorder(u.left)|;
    assert Inorder(t)[i] == u.entry && Inorder(t)[|l|] == t.entry;
    CmpSelf(u.entry.key);
    CmpReverse(t.entry.key, u.entry.key);
  }

  /** Any balanced map of four entries: removing its first or its last one, whichever is a black node without
      children, leaves an unbalanced tree. */
  method Unbalance(m: DataMap) returns (key: Data)
    requires m.Valid() && Balanced(m.shape) && |m.Entries()| == 4
    modifies m, m.repr
    ensures m.Valid() && m.Entries() == Drop(old(m.Entries()), key) && |m.Entries()| == 3 && !Balanced(m.shape)
  {
    hide Cmp, Ascending, Balanced, Drop, Get, Put, Spares, LeavingFor, Inorder;
    ghost var t := m.shape;
    SizeIsLength(t);
    FourHaveABlackEnd(t);
    m.Look(Top, t);
    m.Look(InLeft(t.node, t.colour, t.entry, t.right, Top), t.left);
    m.Look(InRight(t.node, t.colour, t.entry, t.left, Top), t.right);
    var left := m.tree.left.left == null && m.tree.left.right == null && m.tree.left.colour == Black;
    BlackChildLeaves(t, left);
    key := if left then m.tree.left.key else m.tree.right.key;
    var removed := m.Remove(key);
  }

  /** A map that was built by four additions and has lost its balance by one removal. */
  method FourAddsOneRemove(a: Data, b: Data, c: Data, d: Data, value: Data) returns (m: DataMap)
    requires a != Missing && b != Missing && c != Missing && d != Missing && value != Missing
    requires Cmp(a, b) < 0 && Cmp(a, c) < 0 && Cmp(a, d) < 0 && Cmp(b, c) < 0 && Cmp(b, d) < 0 && Cmp(c, d) < 0
    ensures fresh(m) && m.Valid() && |m.Entries()| == 3 && !Balanced(m.shape)
  {
    hide Cmp, Ascending, Balanced, Drop, Inorder;
    FourPuts(a, b, c, d, value);
    m := new DataMap();
    m.Add(a, value);
    m.Add(b, value);
    m.Add(c, value);
    m.Add(d, value);
    var key := Unbalance(m);
  }

  lemma FourPuts(a: Data, b: Data, c: Data, d: Data, value: Data)
    requires Cmp(a, b) < 0 && Cmp(a, c) < 0 && Cmp(a, d) < 0 && Cmp(b, c) < 0 && Cmp(b, d) < 0 && Cmp(c, d) < 0
    ensures |Put(Put(Put(Put([], a, value), b, value), c, value), d, value)| == 4
  {
    hide Cmp, Put;
    var none: seq<Entry> := [];
    var one := none + [Entry(a, value)];
    var two := one + [Entry(b, value)];
    var three := two + [Entry(c, value)];
    PutLast(none, a, value);
    PutLast(one, b, value);
    PutLast(two, c, value);
    PutLast(three, d, value);
  }

  lemma {:induction false} PutLast(es: seq<Entry>, key: Data, value: Data)
    requires forall e :: e in es ==> Cmp(e.key, key) < 0
    ensures Put(es, key, value) == es + [Entry(key, value)]
  {
    hide Cmp;
    if es != [] {
      CmpReverse(es[0].key, key);
      PutLast(es[1..], key, value);
    }
  }
}
