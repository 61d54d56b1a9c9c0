// Objects of data.c that refer to each other: their trees, their reference counts and the hashes they have cached.
module ObjectGraph {
  // A graph of objects is described by the trees the objects had at the start. While slots are rewritten the present
  // objects only have to compare as those trees do.

  import opened DataOrder
  import opened ObjectTrees

  type Ref = nat

  datatype Shape = Leaf(data: Simple) | Composite(kind: Kind)

  /** The slots of a map are its keys and values in turn, in the order of its keys. The hash is out of date if rehash
      is set; nothing says that it is right otherwise. */
  datatype Object = Object(shape: Shape, slots: seq<Ref>, refs: nat, constant: bool, hash: nat, rehash: bool)

  type Objects = map<Ref, Object>

  // ---------------------------------------------------------------- what an object stands for

  ghost predicate Known(slots: seq<Ref>, trees: map<Ref, Tree>) {
    forall i :: 0 <= i < |slots| ==> slots[i] in trees
  }

  /** Scalars are hashed when they are made. */
  ghost predicate WellShaped(o: Object) {
    match o.shape
    case Leaf(data) => o.slots == [] && data != Missing && o.hash == Hash(data) && !o.rehash
    case Composite(kind) => kind.MapKind? ==> |o.slots| % 2 == 0
  }

  ghost function StampsOf(slots: seq<Ref>, trees: map<Ref, Tree>): seq<nat>
    requires Known(slots, trees)
  {
    seq(|slots|, i requires 0 <= i < |slots| => Stamp(trees[slots[i]]))
  }

  ghost function PartsOf(slots: seq<Ref>, trees: map<Ref, Tree>): seq<Tree>
    requires Known(slots, trees)
  {
    seq(|slots|, i requires 0 <= i < |slots| => trees[slots[i]])
  }

  /** What iot_data_hash answers for a container whose slots have these trees. */
  ghost function Answer(o: Object, trees: map<Ref, Tree>): nat
    requires o.shape.Composite? && Known(o.slots, trees)
  {
    if o.rehash then Fold(o.shape.kind, StampsOf(o.slots, trees)) else o.hash
  }

  /** The tree of an object whose slots have these trees. */
  ghost function Present(o: Object, trees: map<Ref, Tree>): Tree
    requires Known(o.slots, trees)
  {
    match o.shape
    case Leaf(data) => Scalar(data)
    case Composite(kind) => Node(kind, Answer(o, trees), PartsOf(o.slots, trees))
  }

  /** These are the trees of the objects. There are such trees if and only if no object contains itself. */
  ghost predicate Exact(objects: Objects, trees: map<Ref, Tree>) {
    forall r :: r in objects ==> ExactAt(objects[r], r, trees)
  }

  ghost predicate ExactAt(o: Object, r: Ref, trees: map<Ref, Tree>) {
    r in trees && WellShaped(o) && Known(o.slots, trees) && trees[r] == Present(o, trees)
  }

  ghost predicate Closed(objects: Objects) {
    forall r, i :: r in objects && 0 <= i < |objects[r].slots| ==> objects[r].slots[i] in objects
  }

  lemma PresentPart(o: Object, trees: map<Ref, Tree>, i: nat)
    requires WellShaped(o) && Known(o.slots, trees) && i < |o.slots|
    ensures TreeSize(trees[o.slots[i]]) < TreeSize(Present(o, trees))
  {
    PartIsSmaller(PartsOf(o.slots, trees), i);
  }

  /** The objects alone determine their trees. */
  lemma {:induction false} MeaningIsUnique(objects: Objects, a: map<Ref, Tree>, b: map<Ref, Tree>, r: Ref)
    requires Exact(objects, a) && Exact(objects, b) && Closed(objects) && r in objects
    ensures r in a && r in b && a[r] == b[r]
    decreases if r in a then TreeSize(a[r]) else 0
  {
    var o := objects[r];
    assert ExactAt(o, r, a) && ExactAt(o, r, b);
    forall i | 0 <= i < |o.slots| ensures a[o.slots[i]] == b[o.slots[i]] {
      PresentPart(o, a, i);
      MeaningIsUnique(objects, a, b, o.slots[i]);
    }
    hide ExactAt, Exact, Closed;
    assert o.shape.Composite? ==> StampsOf(o.slots, a) == StampsOf(o.slots, b) && PartsOf(o.slots, a) == PartsOf(o.slots, b);
  }

  // ---------------------------------------------------------------- while slots are rewritten

  /** The trees the objects had at the start; the objects whose hash may stop to be what it was, because it is out of
      date and their slots are rewritten; what lies below them. */
  datatype Setting = Setting(trees: map<Ref, Tree>, loose: set<Ref>, below: set<Ref>)

  /** The slots hold objects that compare as zero with those they held at the start. */
  ghost predicate Fits(o: Object, u: Tree, trees: map<Ref, Tree>) {
    && u.Node? && |u.parts| == |o.slots| && Known(o.slots, trees)
    && forall i :: 0 <= i < |o.slots| ==> CmpTree(trees[o.slots[i]], u.parts[i]) == 0
  }

  ghost predicate SoundAt(o: Object, r: Ref, s: Setting) {
    && r in s.trees && WellShaped(o) && Known(o.slots, s.trees)
    && match o.shape
      case Leaf(data) => s.trees[r] == Scalar(data)
      case Composite(kind) =>
        && Fits(o, s.trees[r], s.trees) && s.trees[r].kind == kind
        && (r !in s.loose ==> s.trees[r].stamp == Answer(o, s.trees))
  }

  ghost predicate Sound(objects: Objects, s: Setting) {
    forall r :: r in objects ==> SoundAt(objects[r], r, s)
  }

  lemma ExactIsSound(objects: Objects, s: Setting)
    requires Exact(objects, s.trees)
    ensures Sound(objects, s)
  {
    forall r | r in objects ensures SoundAt(objects[r], r, s) {
      assert ExactAt(objects[r], r, s.trees);
      ExactFits(objects[r], r, s);
    }
    hide SoundAt, ExactAt;
  }

  lemma ExactFits(o: Object, r: Ref, s: Setting)
    requires ExactAt(o, r, s.trees)
    ensures SoundAt(o, r, s)
  {
    hide CmpTree, Fold;
    if o.shape.Composite? {
      forall i | 0 <= i < |o.slots| ensures CmpTree(s.trees[o.slots[i]], s.trees[r].parts[i]) == 0 {
        TreeSelf(s.trees[o.slots[i]]);
      }
    }
  }

  lemma SlotIsSmaller(o: Object, r: Ref, s: Setting, i: nat)
    requires SoundAt(o, r, s) && i < |o.slots|
    ensures TreeSize(s.trees[o.slots[i]]) < TreeSize(s.trees[r])
  {
    hide CmpTree, Fold;
    SameSize(s.trees[o.slots[i]], s.trees[r].parts[i]);
    PartIsSmaller(s.trees[r].parts, i);
  }

  /** An object that compares as zero may take a slot, unless the hash is still to be computed from it. */
  lemma SlotFits(o: Object, r: Ref, s: Setting, i: nat, c: Ref)
    requires SoundAt(o, r, s) && i < |o.slots| && c in s.trees && CmpTree(s.trees[c], s.trees[o.slots[i]]) == 0
    requires r in s.loose || !o.rehash
    ensures SoundAt(o.(slots := o.slots[i := c]), r, s)
  {
    var o' := o.(slots := o.slots[i := c]);
    Interchange(s.trees[c], s.trees[o.slots[i]], s.trees[r].parts[i]);
    hide CmpTree, Fold;
    assert Fits(o', s.trees[r], s.trees);
  }

  // ---------------------------------------------------------------- counting references

  /** Where x is referred to. */
  ghost function Places(objects: Objects, x: Ref): set<(Ref, int)> {
    set p: Ref, i: int | p in objects && 0 <= i < |objects[p].slots| && objects[p].slots[i] == x :: (p, i)
  }

  /** Every object that is not constant has as many references as it counts, and at least one: those in
      objects and those in `held`, which lie outside. */
  ghost predicate Counted(objects: Objects, held: multiset<Ref>) {
    forall x :: x in objects && !objects[x].constant ==>
      objects[x].refs == |Places(objects, x)| + held[x] && objects[x].refs > 0
  }

  ghost predicate Live(objects: Objects, held: multiset<Ref>) {
    forall x :: x in held ==> x in objects
  }

  ghost predicate Valid(objects: Objects, held: multiset<Ref>, s: Setting) {
    Sound(objects, s) && Closed(objects) && Counted(objects, held) && Live(objects, held)
  }

  /** Same kind, same number of slots; a hash that was up to date stays, and any hash that is `fixed`. */
  ghost predicate Kept(o: Object, o': Object, fixed: bool) {
    && o'.shape == o.shape && |o'.slots| == |o.slots| && o'.constant == o.constant
    && (!o.rehash || fixed ==> o'.hash == o.hash && o'.rehash == o.rehash)
  }

  /** Only reference counts and hashes differ, and some objects may be gone. */
  ghost predicate Survive(before: Objects, after: Objects, loose: set<Ref>) {
    forall x :: x in after ==> x in before && Kept(before[x], after[x], x in loose) && after[x].slots == before[x].slots
  }

  // ---------------------------------------------------------------- giving back a reference

  lemma {:induction false} OwnPlaces(s: seq<Ref>, r: Ref, x: Ref)
    ensures |set i: int | 0 <= i < |s| && s[i] == x :: (r, i)| == multiset(s)[x]
  {
    var own := set i: int | 0 <= i < |s| && s[i] == x :: (r, i);
    if s == [] {
      assert own == {};
    } else {
      var n := |s| - 1;
      var t := s[..n];
      OwnPlaces(t, r, x);
      var rest := set i: int | 0 <= i < |t| && t[i] == x :: (r, i);
      assert s == t + [s[n]];
      assert own == rest + if s[n] == x then {(r, n as int)} else {};
    }
  }

  /** The last reference is gone: the object goes, and the references in its slots are loose. */
  lemma LastReference(objects: Objects, held: multiset<Ref>, s: Setting, r: Ref)
    requires Valid(objects, held, s) && r in held && !objects[r].constant && objects[r].refs == 1
    ensures Valid(objects - {r}, held - multiset{r} + multiset(objects[r].slots), s)
    ensures Survive(objects, objects - {r}, s.loose)
  {
    var objects' := objects - {r};
    var held' := held - multiset{r} + multiset(objects[r].slots);
    Unreferred(objects, r);
    forall x | x in objects' ensures |Places(objects', x)| + held'[x] == |Places(objects, x)| + held[x] {
      PlacesWithout(objects, r, x);
    }
    forall x | x in objects' ensures SoundAt(objects'[x], x, s) {
      assert SoundAt(objects[x], x, s);
    }
    hide Places, SoundAt;
  }

  lemma Unreferred(objects: Objects, r: Ref)
    requires Places(objects, r) == {}
    ensures forall p, i :: p in objects && 0 <= i < |objects[p].slots| ==> objects[p].slots[i] != r
  {
    forall p, i | p in objects && 0 <= i < |objects[p].slots| ensures objects[p].slots[i] != r {
      InPlaces(objects, r, p, i);
    }
  }

  lemma PlacesWithout(objects: Objects, r: Ref, x: Ref)
    requires r in objects
    ensures |Places(objects, x)| == |Places(objects - {r}, x)| + multiset(objects[r].slots)[x]
  {
    var own := set i: int | 0 <= i < |objects[r].slots| && objects[r].slots[i] == x :: (r, i);
    OwnPlaces(objects[r].slots, r, x);
    assert Places(objects, x) == Places(objects - {r}, x) + own;
    assert Places(objects - {r}, x) !! own;
  }

  lemma OneReferenceLess(objects: Objects, held: multiset<Ref>, s: Setting, r: Ref, objects': Objects)
    requires Valid(objects, held, s) && r in held
    requires objects' == if objects[r].constant then objects else objects[r := objects[r].(refs := objects[r].refs - 1)]
    requires objects[r].constant || objects[r].refs > 1
    ensures Valid(objects', held - multiset{r}, s) && Survive(objects, objects', s.loose)
  {
    hide Sound, SoundAt, Closed, Places;
    SameSlots(objects, objects', s);
  }

  lemma OneReferenceMore(objects: Objects, held: multiset<Ref>, s: Setting, r: Ref)
    requires Valid(objects, held, s) && r in objects
    ensures Valid(AddRef(objects, r), held + multiset{r}, s) && Survive(objects, AddRef(objects, r), s.loose)
    ensures AddRef(objects, r).Keys == objects.Keys
  {
    hide Sound, SoundAt, Closed, Places;
    SameSlots(objects, AddRef(objects, r), s);
  }

  /** iot_data_add_ref */
  function AddRef(objects: Objects, r: Ref): Objects
    requires r in objects
  {
    if objects[r].constant then objects else objects[r := objects[r].(refs := objects[r].refs + 1)]
  }

  /** Nothing but reference counts differs. */
  ghost predicate SameButCounts(before: Objects, after: Objects) {
    after.Keys == before.Keys && forall x :: x in after ==> after[x].(refs := 0) == before[x].(refs := 0)
  }

  lemma SameSlots(objects: Objects, objects': Objects, s: Setting)
    requires SameButCounts(objects, objects') && Sound(objects, s) && Closed(objects)
    ensures Sound(objects', s) && Closed(objects') && Survive(objects, objects', s.loose)
    ensures forall x :: Places(objects', x) == Places(objects, x)
  {
    forall x | x in objects'
      ensures SoundAt(objects'[x], x, s) && objects'[x].slots == objects[x].slots && Kept(objects[x], objects'[x], x in s.loose)
    {
      assert SoundAt(objects[x], x, s);
      SameAt(objects[x], objects'[x], x, s);
    }
    hide SoundAt;
  }

  lemma SameAt(o: Object, o': Object, x: Ref, s: Setting)
    requires o'.(refs := 0) == o.(refs := 0) && SoundAt(o, x, s)
    ensures SoundAt(o', x, s) && o'.slots == o.slots && Kept(o, o', x in s.loose)
  {
    assert o' == o.(refs := o'.refs);
    hide CmpTree, Fold, Stamp;
  }

  /** A slot takes over a reference to c and lets go of the one it had. */
  lemma SlotChanges(objects: Objects, held: multiset<Ref>, s: Setting, p: Ref, i: nat, c: Ref)
    requires Valid(objects, held, s) && p in objects && i < |objects[p].slots| && c in held
    requires c in s.trees && objects[p].slots[i] in s.trees && CmpTree(s.trees[c], s.trees[objects[p].slots[i]]) == 0
    requires p in s.loose || !objects[p].rehash
    ensures Valid(objects[p := objects[p].(slots := objects[p].slots[i := c])],
                  held - multiset{c} + multiset{objects[p].slots[i]}, s)
  {
    hide Places, Sound, Counted, CmpTree;
    SlotSound(objects, s, p, i, c);
    SlotCounted(objects, held, p, i, c);
  }

  lemma SlotCounted(objects: Objects, held: multiset<Ref>, p: Ref, i: nat, c: Ref)
    requires Counted(objects, held) && p in objects && i < |objects[p].slots| && c in held
    ensures Counted(objects[p := objects[p].(slots := objects[p].slots[i := c])],
                    held - multiset{c} + multiset{objects[p].slots[i]})
  {
    hide Places;
    var x := objects[p].slots[i];
    var objects' := objects[p := objects[p].(slots := objects[p].slots[i := c])];
    var held' := held - multiset{c} + multiset{x};
    forall y | y in objects' && !objects'[y].constant
      ensures objects'[y].refs == |Places(objects', y)| + held'[y] && objects'[y].refs > 0
    {
      assert objects'[y].refs == objects[y].refs && objects'[y].constant == objects[y].constant;
      SlotPlaces(objects, p, i, c, y);
    }
  }

  lemma SlotSound(objects: Objects, s: Setting, p: Ref, i: nat, c: Ref)
    requires Sound(objects, s) && p in objects && i < |objects[p].slots|
    requires c in s.trees && objects[p].slots[i] in s.trees && CmpTree(s.trees[c], s.trees[objects[p].slots[i]]) == 0
    requires p in s.loose || !objects[p].rehash
    ensures Sound(objects[p := objects[p].(slots := objects[p].slots[i := c])], s)
  {
    var o := objects[p];
    var objects' := objects[p := o.(slots := o.slots[i := c])];
    assert SoundAt(o, p, s);
    SlotFits(o, p, s, i, c);
    forall r | r in objects' ensures SoundAt(objects'[r], r, s) {
      assert r != p ==> SoundAt(objects[r], r, s);
    }
    hide SoundAt, CmpTree;
  }

  lemma SlotPlaces(objects: Objects, p: Ref, i: nat, c: Ref, y: Ref)
    requires p in objects && i < |objects[p].slots|
    ensures var x := objects[p].slots[i];
      var objects' := objects[p := objects[p].(slots := objects[p].slots[i := c])];
      |Places(objects', y)| == |Places(objects, y)| + (if y == c then 1 else 0) - (if y == x then 1 else 0)
  {
    hide Places;
    var o, x := objects[p], objects[p].slots[i];
    var objects' := objects[p := o.(slots := o.slots[i := c])];
    var spot: (Ref, int) := (p, i);
    var before, after := Places(objects, y), Places(objects', y);
    forall u | u != spot ensures u in before <==> u in after {
      InPlaces(objects, y, u.0, u.1);
      InPlaces(objects', y, u.0, u.1);
    }
    InPlaces(objects, y, p, i);
    InPlaces(objects', y, p, i);
    OneApart(before, after, spot);
  }

  lemma InPlaces(objects: Objects, x: Ref, p: Ref, i: int)
    ensures (p, i) in Places(objects, x) <==>
      p in objects && 0 <= i < |objects[p].slots| && objects[p].slots[i] == x
  {
  }

  lemma OneApart<T>(a: set<T>, b: set<T>, t: T)
    requires forall u :: u != t ==> (u in a <==> u in b)
    ensures |b| == |a| + (if t in b then 1 else 0) - (if t in a then 1 else 0)
  {
    Without(a, t);
    Without(b, t);
    assert a - {t} == b - {t};
  }

  lemma Without<T>(a: set<T>, t: T)
    ensures |a| == |a - {t}| + if t in a then 1 else 0
  {
  }

  // ---------------------------------------------------------------- hashes

  /** What is loose lies above r, so that nobody comes across it below r. */
  ghost predicate Under(s: Setting, r: Ref) {
    r in s.trees && forall z :: z in s.loose ==> z in s.trees && TreeSize(s.trees[r]) < TreeSize(s.trees[z])
  }

  lemma SlotUnder(objects: Objects, held: multiset<Ref>, s: Setting, r: Ref, i: nat)
    requires Valid(objects, held, s) && r in objects && Under(s, r) && i < |objects[r].slots|
    ensures var x := objects[r].slots[i];
      x in objects && Under(s, x) && TreeSize(s.trees[x]) < TreeSize(s.trees[r])
  {
    assert SoundAt(objects[r], r, s);
    SlotIsSmaller(objects[r], r, s, i);
    hide SoundAt, Counted, Live, TreeSize;
  }

  /** The hash computed anew is the one the setting knows. */
  lemma HashSet(objects: Objects, held: multiset<Ref>, s: Setting, r: Ref, was: Objects)
    requires Valid(objects, held, s) && r in objects && Under(s, r) && objects[r].shape.Composite?
    requires Survive(was, objects, s.loose) && r in was && was[r].rehash
    ensures var objects' := objects[r := objects[r].(hash := s.trees[r].stamp, rehash := false)];
      r in s.trees && s.trees[r].Node? && Valid(objects', held, s) && Survive(was, objects', s.loose)
  {
    hide Places, Counted, CmpTree, Fold, TreeSize;
    assert SoundAt(objects[r], r, s);
    var objects' := objects[r := objects[r].(hash := s.trees[r].stamp, rehash := false)];
    forall x | x in objects' ensures SoundAt(objects'[x], x, s) && objects'[x].slots == objects[x].slots {
      assert SoundAt(objects[x], x, s);
    }
    SamePlaces(objects, objects', held);
  }

  lemma SamePlaces(objects: Objects, objects': Objects, held: multiset<Ref>)
    requires Counted(objects, held) && objects'.Keys == objects.Keys
    requires forall x :: x in objects ==>
      objects'[x].slots == objects[x].slots && objects'[x].refs == objects[x].refs && objects'[x].constant == objects[x].constant
    ensures Counted(objects', held)
  {
    forall x ensures Places(objects', x) == Places(objects, x) {}
    hide Places;
  }

  /** What a container's hash is computed from. */
  lemma StampsAt(objects: Objects, held: multiset<Ref>, s: Setting, r: Ref)
    requires Valid(objects, held, s) && r in objects && Under(s, r) && objects[r].shape.Composite?
    ensures var o := objects[r];
      && Known(o.slots, s.trees) && r in s.trees && s.trees[r].Node? && s.trees[r].kind == o.shape.kind
      && |s.trees[r].parts| == |o.slots|
      && s.trees[r].stamp == (if o.rehash then Fold(o.shape.kind, StampsOf(o.slots, s.trees)) else o.hash)
      && (o.shape.kind.MapKind? ==> |o.slots| % 2 == 0)
  {
    assert SoundAt(objects[r], r, s);
    hide CmpTree, Fold, TreeSize, Counted, Live;
  }

  lemma LeafIs(objects: Objects, held: multiset<Ref>, s: Setting, r: Ref)
    requires Valid(objects, held, s) && r in objects && objects[r].shape.Leaf?
    ensures var o := objects[r];
      r in s.trees && s.trees[r] == Scalar(o.shape.data) && o.hash == Hash(o.shape.data) && !o.rehash && o.slots == []
  {
    assert SoundAt(objects[r], r, s);
    hide Hash;
  }

  lemma FoldNext(slots: seq<Ref>, trees: map<Ref, Tree>, i: nat)
    requires Known(slots, trees) && i < |slots|
    ensures var hs := StampsOf(slots, trees);
      FoldAll(hs[..i + 1]) == Xor(FoldAll(hs[..i]), Stamp(trees[slots[i]]))
  {
    var hs := StampsOf(slots, trees);
    FoldAllNext(hs[..i], hs[i]);
    hide Xor, FoldAll, Stamp;
    assert hs[..i + 1] == hs[..i] + [hs[i]];
  }

  lemma FoldNextPair(slots: seq<Ref>, trees: map<Ref, Tree>, i: nat)
    requires Known(slots, trees) && 2 * i + 1 < |slots|
    ensures var hs := StampsOf(slots, trees);
      FoldPairs(hs[..2 * i + 2]) == Xor(FoldPairs(hs[..2 * i]), HashPair(Stamp(trees[slots[2 * i]]), Stamp(trees[slots[2 * i + 1]])))
  {
    var hs := StampsOf(slots, trees);
    FoldPairsNext(hs[..2 * i], hs[2 * i], hs[2 * i + 1]);
    hide Xor, FoldPairs, HashPair, Stamp;
    assert hs[..2 * i + 2] == hs[..2 * i] + [hs[2 * i], hs[2 * i + 1]];
  }

  lemma FoldWhole(kind: Kind, slots: seq<Ref>, trees: map<Ref, Tree>, n: nat)
    requires Known(slots, trees) && n == |slots|
    ensures StampsOf(slots, trees)[..n] == StampsOf(slots, trees)
    ensures Fold(kind, StampsOf(slots, trees)) ==
      if kind.MapKind? then FoldPairs(StampsOf(slots, trees)) else FoldAll(StampsOf(slots, trees))
    ensures FoldAll(StampsOf(slots, trees)[..0]) == 0 && FoldPairs(StampsOf(slots, trees)[..0]) == 0
    ensures |StampsOf(slots, trees)| == n
  {
  }

  lemma SurviveItself(objects: Objects, loose: set<Ref>)
    ensures Survive(objects, objects, loose)
  {
  }

  lemma SurviveOn(a: Objects, b: Objects, c: Objects, loose: set<Ref>)
    requires Survive(a, b, loose) && Survive(b, c, loose)
    ensures Survive(a, c, loose)
  {
    forall x | x in c ensures x in a && Kept(a[x], c[x], x in loose) && c[x].slots == a[x].slots {
      assert x in b && Kept(b[x], c[x], x in loose) && Kept(a[x], b[x], x in loose);
    }
  }

  lemma SurviveAt(before: Objects, after: Objects, loose: set<Ref>, p: Ref)
    requires Survive(before, after, loose) && p in after
    ensures p in before && before[p].slots == after[p].slots && before[p].shape == after[p].shape
    ensures before[p].constant == after[p].constant
    ensures !before[p].rehash || p in loose ==> after[p].hash == before[p].hash && after[p].rehash == before[p].rehash
  {
  }

  function CodeOf(shape: Shape): int {
    match shape
    case Leaf(data) => TypeCode(data)
    case Composite(VectorKind) => 16
    case Composite(ListKind) => 17
    case Composite(MapKind) => 18
  }

  lemma CodeIs(objects: Objects, held: multiset<Ref>, s: Setting, r: Ref)
    requires Valid(objects, held, s) && r in objects
    ensures r in s.trees && Code(s.trees[r]) == CodeOf(objects[r].shape) && (s.trees[r].Scalar? <==> objects[r].shape.Leaf?)
    ensures objects[r].shape.Leaf? ==> s.trees[r] == Scalar(objects[r].shape.data)
    ensures s.trees[r].Node? ==> |s.trees[r].parts| == |objects[r].slots|
  {
    assert SoundAt(objects[r], r, s);
    hide CmpTree, Fold, Hash;
  }

  /** Slots compare as the parts they stand for. */
  lemma SlotsCompare(objects: Objects, held: multiset<Ref>, s: Setting, x: Ref, y: Ref, i: nat)
    requires Valid(objects, held, s) && x in objects && y in objects && i < |objects[x].slots| == |objects[y].slots|
    ensures var a, b := objects[x].slots[i], objects[y].slots[i];
      && x in s.trees && y in s.trees && a in s.trees && b in s.trees
      && s.trees[x].Node? && s.trees[y].Node? && i < |s.trees[x].parts| && i < |s.trees[y].parts|
      && CmpTree(s.trees[a], s.trees[b]) == CmpTree(s.trees[x].parts[i], s.trees[y].parts[i])
  {
    assert SoundAt(objects[x], x, s) && SoundAt(objects[y], y, s);
    hide CmpTree, Fold, Hash;
    var a, b := objects[x].slots[i], objects[y].slots[i];
    assert objects[x].shape.Composite? && objects[y].shape.Composite?;
    Interchange(s.trees[a], s.trees[x].parts[i], s.trees[b]);
    Interchange(s.trees[b], s.trees[y].parts[i], s.trees[x].parts[i]);
  }

  lemma PartsNext(xs: seq<Tree>, ys: seq<Tree>, i: nat)
    requires |xs| == |ys| && i < |xs|
    ensures CmpParts(xs[i..], ys[i..]) ==
      if CmpTree(xs[i], ys[i]) != 0 then CmpTree(xs[i], ys[i]) else CmpParts(xs[i + 1..], ys[i + 1..])
  {
    hide CmpTree;
    assert xs[i..][1..] == xs[i + 1..] && ys[i..][1..] == ys[i + 1..];
  }

  lemma PartsEnds(xs: seq<Tree>, ys: seq<Tree>)
    requires |xs| == |ys|
    ensures xs[0..] == xs && ys[0..] == ys && CmpParts(xs[|xs|..], ys[|ys|..]) == 0
  {
  }
}
