// Trees of objects with the hashes that the objects have cached, and the order iot_data_cmp defines on them.
module ObjectTrees {
  import opened DataOrder
  import opened HashFolds

  type Simple = d: Data | !Composed(d) witness Null

  datatype Kind = VectorKind | ListKind | MapKind

  /** An object and everything below it. The stamp is what iot_data_hash answers for it, right or not. The parts of a map
      are its keys and values in turn. */
  datatype Tree = Scalar(data: Simple) | Node(kind: Kind, stamp: nat, parts: seq<Tree>)

  function Code(t: Tree): int {
    match t
    case Scalar(data) => TypeCode(data)
    case Node(VectorKind, _, _) => 16
    case Node(ListKind, _, _) => 17
    case Node(MapKind, _, _) => 18
  }

  function Stamp(t: Tree): nat {
    if t.Scalar? then Hash(t.data) else t.stamp
  }

  // ---------------------------------------------------------------- the hash computed anew

  function FoldAll(hs: seq<nat>): nat {
    if hs == [] then 0 else Xor(hs[0], FoldAll(hs[1..]))
  }

  function FoldPairs(hs: seq<nat>): nat {
    if |hs| < 2 then 0 else Xor(HashPair(hs[0], hs[1]), FoldPairs(hs[2..]))
  }

  /** What iot_data_hash computes from the hashes of the parts. */
  function Fold(kind: Kind, hs: seq<nat>): nat {
    if kind.MapKind? then FoldPairs(hs) else FoldAll(hs)
  }

  lemma {:induction false} FoldAllNext(hs: seq<nat>, h: nat)
    ensures FoldAll(hs + [h]) == Xor(FoldAll(hs), h)
  {
    if hs == [] {
      assert [] + [h] == [h] && [h][1..] == [];
      XorCommutes(h, 0);
    } else {
      assert (hs + [h])[1..] == hs[1..] + [h];
      FoldAllNext(hs[1..], h);
      XorAssociates(hs[0], FoldAll(hs[1..]), h);
    }
  }

  lemma {:induction false} FoldPairsNext(hs: seq<nat>, key: nat, value: nat)
    requires |hs| % 2 == 0
    ensures FoldPairs(hs + [key, value]) == Xor(FoldPairs(hs), HashPair(key, value))
  {
    hide Xor, HashPair;
    if hs == [] {
      assert [] + [key, value] == [key, value] && [key, value][2..] == [];
      XorCommutes(HashPair(key, value), 0);
      XorZero(HashPair(key, value));
    } else {
      assert (hs + [key, value])[2..] == hs[2..] + [key, value];
      FoldPairsNext(hs[2..], key, value);
      XorAssociates(HashPair(hs[0], hs[1]), FoldPairs(hs[2..]), HashPair(key, value));
    }
  }

  lemma XorZero(a: nat)
    ensures Xor(a, 0) == a && Xor(0, a) == a
  {
  }

  // ---------------------------------------------------------------- comparison

  /** iot_data_cmp (v1, v2, false) on objects, as a sign. */
  function CmpTree(a: Tree, b: Tree): int
    decreases a, 1
  {
    if Code(a) != Code(b) then CmpInt(Code(a), Code(b))
    else if a.Scalar? then CmpScalar(a.data, b.data)
    else
      var head := CmpHead(|a.parts|, a.stamp, |b.parts|, b.stamp);
      if head != 0 then head else CmpParts(a.parts, b.parts)
  }

  function CmpParts(xs: seq<Tree>, ys: seq<Tree>): int
    requires |xs| == |ys|
    decreases xs, 0
  {
    if xs == [] then 0
    else if CmpTree(xs[0], ys[0]) != 0 then CmpTree(xs[0], ys[0])
    else CmpParts(xs[1..], ys[1..])
  }

  /** iot_data_equal on objects. */
  predicate EqualTrees(a: Tree, b: Tree) {
    Stamp(a) == Stamp(b) && CmpTree(a, b) == 0
  }

  lemma {:induction false} TreeReverse(a: Tree, b: Tree)
    ensures Sign(CmpTree(a, b)) && CmpTree(b, a) == -CmpTree(a, b)
    decreases a, 1
  {
    if Code(a) == Code(b) {
      if a.Scalar? {
        CmpScalarReverse(a.data, b.data);
      } else if |a.parts| == |b.parts| {
        PartsReverse(a.parts, b.parts);
      }
    }
  }

  lemma {:induction false} PartsReverse(xs: seq<Tree>, ys: seq<Tree>)
    requires |xs| == |ys|
    ensures Sign(CmpParts(xs, ys)) && CmpParts(ys, xs) == -CmpParts(xs, ys)
    decreases xs, 0
  {
    if xs != [] {
      TreeReverse(xs[0], ys[0]);
      PartsReverse(xs[1..], ys[1..]);
    }
  }

  /** The order of the objects is total and transitive whatever hashes they have cached. */
  lemma {:induction false} TreeChain(a: Tree, b: Tree, c: Tree)
    ensures Chained(CmpTree(a, b), CmpTree(b, c), CmpTree(a, c))
    decreases a, 1
  {
    if Code(a) == Code(b) == Code(c) {
      if a.Scalar? {
        CmpScalarChain(a.data, b.data, c.data);
      } else if |a.parts| == |b.parts| == |c.parts| {
        PartsChain(a.parts, b.parts, c.parts);
      }
    }
  }

  lemma {:induction false} PartsChain(xs: seq<Tree>, ys: seq<Tree>, zs: seq<Tree>)
    requires |xs| == |ys| == |zs|
    ensures Chained(CmpParts(xs, ys), CmpParts(ys, zs), CmpParts(xs, zs))
    decreases xs, 0
  {
    if xs != [] {
      TreeChain(xs[0], ys[0], zs[0]);
      PartsChain(xs[1..], ys[1..], zs[1..]);
    }
  }

  lemma TreeSelf(a: Tree)
    ensures CmpTree(a, a) == 0
  {
    TreeReverse(a, a);
  }

  /** Trees that compare as zero can stand for each other. */
  lemma Interchange(a: Tree, b: Tree, c: Tree)
    requires CmpTree(a, b) == 0
    ensures CmpTree(b, a) == 0
    ensures CmpTree(a, c) == CmpTree(b, c) && CmpTree(c, a) == CmpTree(c, b)
  {
    TreeReverse(a, b);
    TreeReverse(a, c);
    TreeReverse(b, c);
    TreeChain(a, b, c);
    TreeChain(b, a, c);
    TreeChain(c, a, b);
    TreeChain(c, b, a);
    hide CmpTree;
  }

  lemma {:induction false} ZeroParts(xs: seq<Tree>, ys: seq<Tree>)
    requires |xs| == |ys|
    ensures CmpParts(xs, ys) == 0 <==> forall i :: 0 <= i < |xs| ==> CmpTree(xs[i], ys[i]) == 0
    decreases |xs|
  {
    hide CmpTree;
    if xs != [] {
      ZeroParts(xs[1..], ys[1..]);
      assert forall i :: 0 < i < |xs| ==> xs[i] == xs[1..][i - 1] && ys[i] == ys[1..][i - 1];
    }
  }

  lemma ZeroNode(a: Tree, b: Tree)
    requires CmpTree(a, b) == 0
    ensures a.Scalar? <==> b.Scalar?
    ensures a.Node? ==> a.kind == b.kind && a.stamp == b.stamp && |a.parts| == |b.parts|
    ensures a.Node? ==> forall i :: 0 <= i < |a.parts| ==> CmpTree(a.parts[i], b.parts[i]) == 0
  {
    if a.Node? { ZeroParts(a.parts, b.parts); }
  }

  lemma NodeZero(a: Tree, b: Tree)
    requires a.Node? && b.Node? && a.kind == b.kind && a.stamp == b.stamp && |a.parts| == |b.parts|
    requires forall i :: 0 <= i < |a.parts| ==> CmpTree(a.parts[i], b.parts[i]) == 0
    ensures CmpTree(a, b) == 0
  {
    ZeroParts(a.parts, b.parts);
  }

  // ---------------------------------------------------------------- size

  function TreeSize(t: Tree): nat
    decreases t, 1
  {
    if t.Scalar? then 1 else 1 + PartsSize(t.parts)
  }

  function PartsSize(ts: seq<Tree>): nat
    decreases ts, 0
  {
    if ts == [] then 0 else TreeSize(ts[0]) + PartsSize(ts[1..])
  }

  lemma {:induction false} PartIsSmaller(ts: seq<Tree>, i: nat)
    requires i < |ts|
    ensures TreeSize(ts[i]) <= PartsSize(ts)
    decreases |ts|
  {
    if i > 0 { PartIsSmaller(ts[1..], i - 1); }
  }

  lemma {:induction false} SameSize(a: Tree, b: Tree)
    requires CmpTree(a, b) == 0
    ensures TreeSize(a) == TreeSize(b)
    decreases a, 1
  {
    if a.Node? { SamePartsSize(a.parts, b.parts); }
  }

  lemma {:induction false} SamePartsSize(xs: seq<Tree>, ys: seq<Tree>)
    requires |xs| == |ys| && CmpParts(xs, ys) == 0
    ensures PartsSize(xs) == PartsSize(ys)
    decreases xs, 0
  {
    if xs != [] {
      SameSize(xs[0], ys[0]);
      SamePartsSize(xs[1..], ys[1..]);
    }
  }

  // ---------------------------------------------------------------- the value a tree stands for

  function Contents(t: Tree): Data
    decreases t, 1
  {
    if t.Scalar? then t.data else Build(t.kind, ContentsOf(t.parts))
  }

  function ContentsOf(ts: seq<Tree>): seq<Data>
    decreases ts, 0
  {
    if ts == [] then [] else [Contents(ts[0])] + ContentsOf(ts[1..])
  }

  function Build(kind: Kind, ds: seq<Data>): Data {
    match kind
    case VectorKind => Vector(ds)
    case ListKind => List(ds)
    case MapKind => Map(Pairs(ds))
  }

  function Pairs(ds: seq<Data>): seq<Entry> {
    if |ds| < 2 then [] else [Entry(ds[0], ds[1])] + Pairs(ds[2..])
  }

  lemma {:induction false} ContentsAt(ts: seq<Tree>)
    ensures |ContentsOf(ts)| == |ts| && forall i :: 0 <= i < |ts| ==> ContentsOf(ts)[i] == Contents(ts[i])
    decreases |ts|
  {
    hide Contents;
    if ts != [] {
      ContentsAt(ts[1..]);
      assert forall i :: 0 < i < |ts| ==> ts[i] == ts[1..][i - 1];
    }
  }

  lemma {:induction false} PairsAreInjective(xs: seq<Data>, ys: seq<Data>)
    requires |xs| == |ys| && |xs| % 2 == 0 && Pairs(xs) == Pairs(ys)
    ensures xs == ys
    decreases |xs|
  {
    if xs != [] {
      assert Pairs(xs)[0] == Pairs(ys)[0] && Pairs(xs)[1..] == Pairs(ys)[1..];
      PairsAreInjective(xs[2..], ys[2..]);
      assert xs == [xs[0], xs[1]] + xs[2..] && ys == [ys[0], ys[1]] + ys[2..];
    }
  }

  /** A value determines its parts. */
  lemma BuildIsInjective(kind: Kind, xs: seq<Data>, ys: seq<Data>)
    requires |xs| == |ys| && (kind.MapKind? ==> |xs| % 2 == 0) && Build(kind, xs) == Build(kind, ys)
    ensures xs == ys
  {
    if kind.MapKind? { PairsAreInjective(xs, ys); }
  }

  lemma {:induction false} CanonPairs(ds: seq<Data>)
    ensures CanonEntries(Pairs(ds)) == Pairs(CanonSeq(ds)) && |CanonSeq(ds)| == |ds|
    decreases |ds|
  {
    hide Canon;
    if |ds| >= 2 {
      var e := Entry(ds[0], ds[1]);
      CanonPairs(ds[2..]);
      assert ds[1..][1..] == ds[2..];
      assert CanonSeq(ds) == [Canon(ds[0])] + ([Canon(ds[1])] + CanonSeq(ds[2..]));
      assert CanonSeq(ds)[2..] == CanonSeq(ds[2..]);
      assert Pairs(ds)[1..] == Pairs(ds[2..]) && Pairs(ds)[0] == e;
    } else if |ds| == 1 {
      assert ds[1..] == [];
    }
  }

  /** Values with parts of the same contents have the same contents. */
  lemma CanonBuild(kind: Kind, xs: seq<Data>, ys: seq<Data>)
    requires CanonSeq(xs) == CanonSeq(ys)
    ensures Canon(Build(kind, xs)) == Canon(Build(kind, ys))
  {
    CanonPairs(xs);
    CanonPairs(ys);
  }

  lemma {:induction false} CanonSeqAt(xs: seq<Data>, ys: seq<Data>)
    requires |xs| == |ys| && forall i :: 0 <= i < |xs| ==> Canon(xs[i]) == Canon(ys[i])
    ensures CanonSeq(xs) == CanonSeq(ys)
    decreases |xs|
  {
    hide Canon;
    if xs != [] { CanonSeqAt(xs[1..], ys[1..]); }
  }

  /** A zero comparison of objects means equal contents, whatever hashes they have cached. */
  lemma {:induction false} ZeroIsSameContents(a: Tree, b: Tree)
    requires CmpTree(a, b) == 0
    ensures Canon(Contents(a)) == Canon(Contents(b))
    decreases a, 1
  {
    if a.Scalar? {
      assert Cmp(a.data, b.data) == 0;
      CmpZeroIsSame(a.data, b.data);
    } else {
      ZeroIsSameParts(a.parts, b.parts);
      CanonBuild(a.kind, ContentsOf(a.parts), ContentsOf(b.parts));
    }
  }

  lemma {:induction false} ZeroIsSameParts(xs: seq<Tree>, ys: seq<Tree>)
    requires |xs| == |ys| && CmpParts(xs, ys) == 0
    ensures CanonSeq(ContentsOf(xs)) == CanonSeq(ContentsOf(ys))
    decreases xs, 0
  {
    if xs != [] {
      ZeroIsSameContents(xs[0], ys[0]);
      ZeroIsSameParts(xs[1..], ys[1..]);
      hide Canon, CmpTree, Contents;
      assert ContentsOf(xs)[1..] == ContentsOf(xs[1..]) && ContentsOf(ys)[1..] == ContentsOf(ys[1..]);
    }
  }

  // ---------------------------------------------------------------- objects whose hashes are right

  /** The tree of a value whose containers have cached the right hashes. */
  function Fresh(d: Data): Tree
    decreases d, 1
  {
    match d
    case Vector(slots) => Node(VectorKind, Hash(d), FreshSeq(slots))
    case List(elements) => Node(ListKind, Hash(d), FreshSeq(elements))
    case Map(entries) => Node(MapKind, Hash(d), FreshEntries(entries))
    case _ => Scalar(d)
  }

  function FreshSeq(ds: seq<Data>): seq<Tree>
    decreases ds, 0
  {
    if ds == [] then [] else [Fresh(ds[0])] + FreshSeq(ds[1..])
  }

  function FreshEntries(es: seq<Entry>): seq<Tree>
    decreases es, 0
  {
    if es == [] then [] else [FreshEntry(es[0]).0] + ([FreshEntry(es[0]).1] + FreshEntries(es[1..]))
  }

  function FreshEntry(e: Entry): (Tree, Tree)
    decreases e, 1
  {
    (Fresh(e.key), Fresh(e.value))
  }

  /** For such objects the comparison is that of the values. */
  lemma {:induction false} FreshCompares(a: Data, b: Data)
    ensures CmpTree(Fresh(a), Fresh(b)) == Cmp(a, b)
    decreases a, 1
  {
    FreshLengths(a);
    FreshLengths(b);
    if TypeCode(a) == TypeCode(b) {
      if a.Vector? {
        if |a.slots| == |b.slots| { FreshSeqCompares(a.slots, b.slots); }
      } else if a.List? {
        if |a.elements| == |b.elements| { FreshSeqCompares(a.elements, b.elements); }
      } else if a.Map? {
        if |a.entries| == |b.entries| { FreshEntriesCompare(a.entries, b.entries); }
      }
    }
  }

  lemma FreshLengths(a: Data)
    ensures Code(Fresh(a)) == TypeCode(a) && (Fresh(a).Scalar? <==> !Composed(a))
    ensures a.Vector? ==> |Fresh(a).parts| == |a.slots|
    ensures a.List? ==> |Fresh(a).parts| == |a.elements|
    ensures a.Map? ==> |Fresh(a).parts| == 2 * |a.entries|
  {
    if a.Vector? { FreshSeqLength(a.slots); }
    if a.List? { FreshSeqLength(a.elements); }
    if a.Map? { FreshEntriesLength(a.entries); }
  }

  lemma {:induction false} FreshSeqLength(ds: seq<Data>)
    ensures |FreshSeq(ds)| == |ds|
  {
    if ds != [] { FreshSeqLength(ds[1..]); }
  }

  lemma {:induction false} FreshEntriesLength(es: seq<Entry>)
    ensures |FreshEntries(es)| == 2 * |es|
  {
    if es != [] { FreshEntriesLength(es[1..]); }
  }

  lemma {:induction false} FreshSeqCompares(xs: seq<Data>, ys: seq<Data>)
    requires |xs| == |ys|
    ensures |FreshSeq(xs)| == |FreshSeq(ys)| && CmpParts(FreshSeq(xs), FreshSeq(ys)) == CmpSeq(xs, ys)
    decreases xs, 0
  {
    FreshSeqLength(xs);
    FreshSeqLength(ys);
    if xs != [] {
      FreshCompares(xs[0], ys[0]);
      FreshSeqCompares(xs[1..], ys[1..]);
      hide Fresh, CmpTree, Cmp;
      assert FreshSeq(xs)[1..] == FreshSeq(xs[1..]) && FreshSeq(ys)[1..] == FreshSeq(ys[1..]);
    }
  }

  lemma {:induction false} FreshEntriesCompare(xs: seq<Entry>, ys: seq<Entry>)
    requires |xs| == |ys|
    ensures |FreshEntries(xs)| == |FreshEntries(ys)| && CmpParts(FreshEntries(xs), FreshEntries(ys)) == CmpEntries(xs, ys)
    decreases xs, 0
  {
    FreshEntriesLength(xs);
    FreshEntriesLength(ys);
    if xs != [] {
      var x, y := xs[0], ys[0];
      FreshEntryCompares(x, y);
      FreshEntriesCompare(xs[1..], ys[1..]);
      FirstPart(Fresh(x.value), FreshEntries(xs[1..]), Fresh(y.value), FreshEntries(ys[1..]));
      FirstPart(Fresh(x.key), [Fresh(x.value)] + FreshEntries(xs[1..]), Fresh(y.key), [Fresh(y.value)] + FreshEntries(ys[1..]));
      hide Fresh, CmpTree, Cmp, CmpParts;
    }
  }

  lemma {:induction false} FreshEntryCompares(x: Entry, y: Entry)
    ensures CmpTree(Fresh(x.key), Fresh(y.key)) == Cmp(x.key, y.key)
    ensures CmpTree(Fresh(x.value), Fresh(y.value)) == Cmp(x.value, y.value)
    decreases x, 1
  {
    FreshCompares(x.key, y.key);
    FreshCompares(x.value, y.value);
  }

  lemma FirstPart(a: Tree, xs: seq<Tree>, b: Tree, ys: seq<Tree>)
    requires |xs| == |ys|
    ensures CmpParts([a] + xs, [b] + ys) == if CmpTree(a, b) != 0 then CmpTree(a, b) else CmpParts(xs, ys)
  {
    hide CmpTree;
    assert ([a] + xs)[1..] == xs && ([b] + ys)[1..] == ys;
  }

  /** Such a tree stands for its value. */
  lemma {:induction false} FreshContents(d: Data)
    ensures Contents(Fresh(d)) == d
    decreases d, 1
  {
    match d
    case Vector(slots) => FreshSeqContents(slots);
    case List(elements) => FreshSeqContents(elements);
    case Map(entries) => FreshEntriesContents(entries);
    case _ =>
  }

  lemma {:induction false} FreshSeqContents(ds: seq<Data>)
    ensures ContentsOf(FreshSeq(ds)) == ds
    decreases ds, 0
  {
    if ds != [] {
      FreshContents(ds[0]);
      FreshSeqContents(ds[1..]);
      hide Fresh, Contents;
      assert FreshSeq(ds)[1..] == FreshSeq(ds[1..]);
    }
  }

  lemma {:induction false} FreshEntriesContents(es: seq<Entry>)
    ensures Pairs(ContentsOf(FreshEntries(es))) == es
    decreases es, 0
  {
    if es != [] {
      var e, rest := es[0], FreshEntries(es[1..]);
      FreshEntryContents(e);
      FreshEntriesContents(es[1..]);
      FirstContents(Fresh(e.value), rest);
      FirstContents(Fresh(e.key), [Fresh(e.value)] + rest);
      FirstPair(e.key, e.value, ContentsOf(rest));
      hide Fresh, Contents, Pairs, ContentsOf;
    }
  }

  lemma {:induction false} FreshEntryContents(e: Entry)
    ensures Contents(Fresh(e.key)) == e.key && Contents(Fresh(e.value)) == e.value
    decreases e, 1
  {
    FreshContents(e.key);
    FreshContents(e.value);
  }

  lemma FirstContents(t: Tree, ts: seq<Tree>)
    ensures ContentsOf([t] + ts) == [Contents(t)] + ContentsOf(ts)
  {
    hide Contents;
    assert ([t] + ts)[1..] == ts;
  }

  lemma FirstPair(a: Data, b: Data, ds: seq<Data>)
    ensures Pairs([a] + ([b] + ds)) == [Entry(a, b)] + Pairs(ds)
  {
    assert ([a] + ([b] + ds))[2..] == ds;
  }
}
