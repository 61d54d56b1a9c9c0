// iot_data_compress of src/c/data.c: hash-consing in place.
module Compression {
  // Objects refer to each other by reference and cache their hashes, so that sharing, rewriting, counting of references
  // and hashes that no longer fit the contents are what the model is about.

  import opened DataOrder
  import opened HashFolds
  import opened ObjectGraph
  import opened ObjectTrees

  // ---------------------------------------------------------------- the cache

  /** The keys of the cache in the order of its tree: ascending for the comparison. */
  ghost predicate Ordered(cache: seq<Ref>, s: Setting) {
    && (forall i :: 0 <= i < |cache| ==> cache[i] in s.trees)
    && (forall i, j :: 0 <= i < j < |cache| ==> CmpTree(s.trees[cache[i]], s.trees[cache[j]]) < 0)
  }

  /** The cache refers to each of its objects as key and as value. */
  ghost function Twice(cache: seq<Ref>): multiset<Ref> {
    multiset(cache) + multiset(cache)
  }

  /** Whatever is cached has been hashed. */
  ghost predicate Hashed(objects: Objects, cache: seq<Ref>) {
    forall c :: c in cache && c in objects ==> !objects[c].rehash
  }

  /** All slots of a cached object are cached, unless it is being worked on. */
  ghost predicate Settled(objects: Objects, cache: seq<Ref>, busy: set<Ref>) {
    forall c, i :: c in cache && c !in busy && c in objects && 0 <= i < |objects[c].slots| ==>
      objects[c].slots[i] in cache
  }

  /** Only what lies below the loose objects is ever cached, and that is closed. */
  ghost predicate Scope(objects: Objects, cache: seq<Ref>, s: Setting) {
    && (forall c :: c in cache ==> c in s.below)
    && (forall x :: x in s.below ==> Under(s, x))
    && (forall x, i :: x in objects && (x in s.loose || x in s.below) && 0 <= i < |objects[x].slots| ==> objects[x].slots[i] in s.below)
  }

  /** Nothing in the cache compares as zero. */
  ghost predicate Unlike(cache: seq<Ref>, s: Setting, x: Ref) {
    x in s.trees && forall c :: c in cache ==> c in s.trees && CmpTree(s.trees[c], s.trees[x]) != 0
  }

  /** Which slot is visited in round k: the value of a map entry comes before its key. */
  function Visited(shape: Shape, k: nat): nat {
    if shape != Composite(MapKind) then k else if k % 2 == 0 then k + 1 else k - 1
  }

  lemma InsertKeepsOrder(cache: seq<Ref>, k: nat, x: Ref, s: Setting)
    requires Ordered(cache, s) && k <= |cache| && x in s.trees
    requires forall j :: 0 <= j < k ==> CmpTree(s.trees[cache[j]], s.trees[x]) < 0
    requires forall j :: k <= j < |cache| ==> CmpTree(s.trees[x], s.trees[cache[j]]) < 0
    ensures Ordered(cache[..k] + [x] + cache[k..], s)
    ensures Twice(cache[..k] + [x] + cache[k..]) == Twice(cache) + multiset{x} + multiset{x}
  {
    hide CmpTree;
    assert cache == cache[..k] + cache[k..];
  }

  /** Behind the first entry that is greater all entries are greater. */
  lemma RestIsGreater(cache: seq<Ref>, k: nat, x: Ref, s: Setting)
    requires Ordered(cache, s) && k < |cache| && x in s.trees && CmpTree(s.trees[cache[k]], s.trees[x]) > 0
    ensures forall j :: k <= j < |cache| ==> CmpTree(s.trees[x], s.trees[cache[j]]) < 0
  {
    forall j | k <= j < |cache| ensures CmpTree(s.trees[x], s.trees[cache[j]]) < 0 {
      TreeReverse(s.trees[cache[k]], s.trees[x]);
      TreeChain(s.trees[x], s.trees[cache[k]], s.trees[cache[j]]);
      hide CmpTree;
    }
  }

  /** No two cached objects compare as zero. */
  lemma CachedOnce(cache: seq<Ref>, s: Setting, x: Ref, y: Ref)
    requires Ordered(cache, s) && x in cache && y in cache && x in s.trees && y in s.trees && CmpTree(s.trees[x], s.trees[y]) == 0
    ensures x == y
  {
    var i :| 0 <= i < |cache| && cache[i] == x;
    var j :| 0 <= j < |cache| && cache[j] == y;
    TreeReverse(s.trees[x], s.trees[y]);
    hide CmpTree;
  }

  /** Where the search ends without success nothing compares as zero. */
  lemma Absent(cache: seq<Ref>, k: nat, x: Ref, s: Setting)
    requires Ordered(cache, s) && x in s.trees && k <= |cache|
    requires forall j :: 0 <= j < k ==> CmpTree(s.trees[cache[j]], s.trees[x]) < 0
    requires k < |cache| ==> CmpTree(s.trees[cache[k]], s.trees[x]) > 0
    ensures Unlike(cache, s, x) && x !in cache
    ensures forall j :: k <= j < |cache| ==> CmpTree(s.trees[x], s.trees[cache[j]]) < 0
  {
    if k < |cache| { RestIsGreater(cache, k, x, s); }
    TreeSelf(s.trees[x]);
    hide CmpTree;
    forall c | c in cache ensures c in s.trees && CmpTree(s.trees[c], s.trees[x]) != 0 {
      var j :| 0 <= j < |cache| && cache[j] == c;
      TreeReverse(s.trees[c], s.trees[x]);
    }
  }

  /** What is being worked on is cached or one of the loose objects, and at least so large. */
  ghost predicate Working(cache: seq<Ref>, busy: set<Ref>, outside: multiset<Ref>, s: Setting, size: nat) {
    forall b :: b in busy ==> Worked(cache, b, outside, s) && TreeSize(s.trees[b]) >= size
  }

  ghost predicate Worked(cache: seq<Ref>, b: Ref, outside: multiset<Ref>, s: Setting) {
    b in s.trees && (b in cache || (b in s.loose && b in outside))
  }

  /** No object changes its kind. */
  ghost predicate Shapes(before: Objects, after: Objects, loose: set<Ref>) {
    forall x :: x in after ==> x in before && Kept(before[x], after[x], x in loose)
  }

  ghost predicate Untouched(before: Objects, after: Objects, busy: set<Ref>) {
    forall b :: b in busy && b in after ==> b in before && after[b].slots == before[b].slots
  }

  ghost predicate Grows(before: seq<Ref>, after: seq<Ref>) {
    forall c :: c in before ==> c in after
  }

  // ---------------------------------------------------------------- compression

  class Heap {
    var objects: Objects
    var cache: seq<Ref>

    /** An empty cache beside the objects. */
    constructor (os: Objects)
      ensures objects == os && cache == []
    {
      objects, cache := os, [];
    }

    /** What every step keeps: `outside` are the references of the callers. */
    ghost predicate Ready(outside: multiset<Ref>, s: Setting)
      reads this
    {
      && Valid(objects, outside + Twice(cache), s) && Ordered(cache, s) && Hashed(objects, cache) && Scope(objects, cache, s)
    }

    /** iot_data_free: the last reference takes the object with it and gives back the references it holds. */
    method Free(r: Ref, ghost held: multiset<Ref>, ghost s: Setting)
      requires Valid(objects, held, s) && r in held
      modifies this`objects
      ensures Valid(objects, held - multiset{r}, s) && Survive(old(objects), objects, s.loose)
      decreases if r in s.trees then TreeSize(s.trees[r]) else 0
    {
      hide Sound, Closed, Counted, Live, SoundAt, TreeSize, Survive, Kept;
      HeldIsLive(objects, held, s, r);
      var o := objects[r];
      ghost var was := objects;
      if o.constant || o.refs > 1 {
        if !o.constant { objects := objects[r := o.(refs := o.refs - 1)]; }
        OneReferenceLess(was, held, s, r, objects);
      } else {
        LastReference(objects, held, s, r);
        objects := objects - {r};
        ghost var rest := held - multiset{r};
        assert o.slots[0..] == o.slots;
        for i := 0 to |o.slots|
          invariant Valid(objects, rest + multiset(o.slots[i..]), s) && Survive(was, objects, s.loose)
        {
          ghost var before := objects;
          assert o.slots[i..] == [o.slots[i]] + o.slots[i + 1..];
          SlotIsSmaller(o, r, s, i);
          Free(o.slots[i], rest + multiset(o.slots[i..]), s);
          assert rest + multiset(o.slots[i..]) - multiset{o.slots[i]} == rest + multiset(o.slots[i + 1..]);
          SurviveOn(was, before, objects, s.loose);
        }
        assert rest + multiset(o.slots[|o.slots|..]) == rest;
      }
    }

    /** iot_data_hash: a hash that is out of date is computed from the slots and kept. */
    method HashOf(r: Ref, ghost held: multiset<Ref>, ghost s: Setting) returns (h: nat)
      requires Valid(objects, held, s) && r in objects && Under(s, r)
      modifies this`objects
      ensures Valid(objects, held, s) && Survive(old(objects), objects, s.loose) && objects.Keys == old(objects).Keys
      ensures r in s.trees && h == Stamp(s.trees[r]) && r in objects && !objects[r].rehash
      decreases if r in s.trees then TreeSize(s.trees[r]) else 0, 1
    {
      hide *;
      ghost var was := objects;
      h := objects[r].hash;
      if objects[r].shape.Leaf? {
        LeafIs(objects, held, s, r);
        StampIs(s.trees[r]);
      } else {
        StampsAt(objects, held, s, r);
        StampIs(s.trees[r]);
        if objects[r].rehash {
          h := FoldSlots(r, held, s);
          SurviveAt(was, objects, s.loose, r);
          HashSet(objects, held, s, r, was);
          objects := objects[r := objects[r].(hash := h, rehash := false)];
        }
      }
      if objects == was { SurviveItself(was, s.loose); }
    }

    /** The loops of iot_data_hash. */
    method FoldSlots(r: Ref, ghost held: multiset<Ref>, ghost s: Setting) returns (h: nat)
      requires Valid(objects, held, s) && r in objects && Under(s, r) && objects[r].shape.Composite?
      modifies this`objects
      ensures Valid(objects, held, s) && Survive(old(objects), objects, s.loose) && objects.Keys == old(objects).Keys
      ensures Known(old(objects)[r].slots, s.trees) && h == Fold(old(objects)[r].shape.kind, StampsOf(old(objects)[r].slots, s.trees))
      decreases if r in s.trees then TreeSize(s.trees[r]) else 0, 0
    {
      hide *;
      ghost var was := objects;
      var o := objects[r];
      var kind, slots := o.shape.kind, o.slots;
      StampsAt(objects, held, s, r);
      FoldWhole(kind, slots, s.trees, |slots|);
      ghost var hs := StampsOf(slots, s.trees);
      SurviveItself(was, s.loose);
      h := 0;
      if kind != MapKind {
        for i := 0 to |slots|
          invariant Valid(objects, held, s) && Survive(was, objects, s.loose) && objects.Keys == was.Keys
          invariant h == FoldAll(hs[..i])
        {
          ghost var before := objects;
          SurviveAt(was, objects, s.loose, r);
          SlotUnder(objects, held, s, r, i);
          var part := HashOf(slots[i], held, s);
          SurviveOn(was, before, objects, s.loose);
          FoldNext(slots, s.trees, i);
          h := Xor(h, part);
        }
      } else {
        for i := 0 to |slots| / 2
          invariant Valid(objects, held, s) && Survive(was, objects, s.loose) && objects.Keys == was.Keys
          invariant h == FoldPairs(hs[..2 * i])
        {
          ghost var before := objects;
          SurviveAt(was, objects, s.loose, r);
          SlotUnder(objects, held, s, r, 2 * i);
          SlotUnder(objects, held, s, r, 2 * i + 1);
          var key := HashOf(slots[2 * i], held, s);
          ghost var between := objects;
          SurviveOn(was, before, between, s.loose);
          var value := HashOf(slots[2 * i + 1], held, s);
          SurviveOn(was, between, objects, s.loose);
          FoldNextPair(slots, s.trees, i);
          MixPair(h, key, value);
          h := Xor(h, key);
          if value != key { h := Xor(h, value); }
        }
      }
    }

    /** iot_data_cmp (v1, v2, false): what is compared is the present content of the objects and their hashes. */
    method Compare(x: Ref, y: Ref, ghost held: multiset<Ref>, ghost s: Setting) returns (c: int)
      requires Valid(objects, held, s) && x in objects && y in objects && Under(s, x) && Under(s, y)
      modifies this`objects
      ensures Valid(objects, held, s) && Survive(old(objects), objects, s.loose) && objects.Keys == old(objects).Keys
      ensures x in s.trees && y in s.trees && c == CmpTree(s.trees[x], s.trees[y])
      decreases if x in s.trees then TreeSize(s.trees[x]) else 0
    {
      hide *;
      ghost var was := objects;
      SurviveItself(was, s.loose);
      CodeIs(objects, held, s, x);
      CodeIs(objects, held, s, y);
      ghost var a, b := s.trees[x], s.trees[y];
      CmpIs(a, b);
      if x == y {
        TreeSelf(a);
        return 0;
      }
      var shape, other := objects[x].shape, objects[y].shape;
      if CodeOf(shape) != CodeOf(other) { return CmpInt(CodeOf(shape), CodeOf(other)); }
      if shape.Leaf? {
        return CmpScalar(shape.data, other.data);
      }
      var xs, ys := objects[x].slots, objects[y].slots;
      if |xs| != |ys| { return CmpInt(|xs|, |ys|); }
      var hx := HashOf(x, held, s);
      ghost var between := objects;
      var hy := HashOf(y, held, s);
      SurviveOn(was, between, objects, s.loose);
      StampIs(a);
      StampIs(b);
      if hx != hy { return CmpInt(hx, hy); }
      PartsEnds(a.parts, b.parts);
      for i := 0 to |xs|
        invariant Valid(objects, held, s) && Survive(was, objects, s.loose) && objects.Keys == was.Keys
        invariant CmpParts(a.parts, b.parts) == CmpParts(a.parts[i..], b.parts[i..])
      {
        ghost var before := objects;
        SurviveAt(was, objects, s.loose, x);
        SurviveAt(was, objects, s.loose, y);
        SlotUnder(objects, held, s, x, i);
        SlotUnder(objects, held, s, y, i);
        SlotsCompare(objects, held, s, x, y, i);
        PartsNext(a.parts, b.parts, i);
        c := Compare(xs[i], ys[i], held, s);
        SurviveOn(was, before, objects, s.loose);
        if c != 0 { return; }
      }
      c := 0;
    }

    /** iot_data_map_get on the cache: where an object that compares as zero is or belongs. */
    method Find(x: Ref, ghost held: multiset<Ref>, ghost s: Setting) returns (k: nat, found: bool)
      requires Valid(objects, held, s) && Ordered(cache, s) && x in objects && Under(s, x)
      requires forall c :: c in cache ==> c in objects && Under(s, c)
      modifies this`objects
      ensures Valid(objects, held, s) && Survive(old(objects), objects, s.loose) && objects.Keys == old(objects).Keys
      ensures x in s.trees && k <= |cache| && forall j :: 0 <= j < |cache| ==> cache[j] in s.trees
      ensures found <==> k < |cache| && CmpTree(s.trees[cache[k]], s.trees[x]) == 0
      ensures !found ==> Unlike(cache, s, x) && x !in cache
      ensures forall j :: 0 <= j < k ==> CmpTree(s.trees[cache[j]], s.trees[x]) < 0
      ensures !found ==> forall j :: k <= j < |cache| ==> CmpTree(s.trees[x], s.trees[cache[j]]) < 0
    {
      hide *;
      ghost var was := objects;
      SurviveItself(was, s.loose);
      OrderedIsKnown(cache, s);
      CodeIs(objects, held, s, x);
      k, found := 0, false;
      while k < |cache|
        invariant k <= |cache| && Valid(objects, held, s) && Survive(was, objects, s.loose) && objects.Keys == was.Keys
        invariant forall j :: 0 <= j < k ==> CmpTree(s.trees[cache[j]], s.trees[x]) < 0
      {
        ghost var before := objects;
        assert cache[k] in cache;
        var c := Compare(cache[k], x, held, s);
        SurviveOn(was, before, objects, s.loose);
        if c == 0 { return k, true; }
        if c > 0 { break; }
        k := k + 1;
      }
      Absent(cache, k, x, s);
    }

    /** A cached object takes the place of the one in the slot. The cached object is referred to before the other is
        released, where the source releases first; neither can be the last reference to it. */
    method UseCached(p: Ref, i: nat, c: Ref, ghost busy: set<Ref>, ghost outside: multiset<Ref>, ghost s: Setting)
      requires Ready(outside, s) && p in s.trees && p in busy && Working(cache, busy, outside, s, TreeSize(s.trees[p]))
      requires p in objects && i < |objects[p].slots| && Settled(objects, cache, busy)
      requires c in cache && c in s.trees && objects[p].slots[i] in s.trees
      requires CmpTree(s.trees[c], s.trees[objects[p].slots[i]]) == 0
      modifies this`objects
      ensures Ready(outside, s) && Settled(objects, cache, busy)
      ensures Shapes(old(objects), objects, s.loose) && Untouched(old(objects), objects, busy - {p})
      ensures p in objects && p in old(objects) && i < |old(objects)[p].slots|
      ensures objects[p].slots == old(objects)[p].slots[i := c]
    {
      hide *;
      ghost var was, held := objects, outside + Twice(cache);
      ReadyParts(this, outside, s);
      SlotFacts(objects, cache, outside, busy, s, p, i);
      var x := objects[p].slots[i];
      OneReferenceMore(objects, held, s, c);
      objects := AddRef(objects, c);
      ghost var referred := objects;
      SurviveAt(was, referred, s.loose, p);
      SlotChanges(objects, held + multiset{c}, s, p, i, c);
      objects := objects[p := objects[p].(slots := objects[p].slots[i := c])];
      assert held + multiset{c} - multiset{c} + multiset{x} == held + multiset{x};
      Free(x, held + multiset{x}, s);
      assert held + multiset{x} - multiset{x} == held;
      BusyIsLive(objects, cache, busy, outside, s, TreeSize(s.trees[p]));
      Replaced(was, referred, objects, cache, busy, s, p, i, c);
      ReadyWhole(this, outside, s);
    }

    /** The two references of a new entry, its place in the order, and its hash, which the cache needs for its own. */
    method AddToCache(x: Ref, k: nat, ghost outside: multiset<Ref>, ghost s: Setting)
      requires Ready(outside, s) && x in objects && x in s.below && Under(s, x) && x in s.trees && k <= |cache|
      requires forall j :: 0 <= j < |cache| ==> cache[j] in s.trees
      requires forall j :: 0 <= j < k ==> CmpTree(s.trees[cache[j]], s.trees[x]) < 0
      requires forall j :: k <= j < |cache| ==> CmpTree(s.trees[x], s.trees[cache[j]]) < 0
      modifies this
      ensures Ready(outside, s) && cache == old(cache)[..k] + [x] + old(cache)[k..]
      ensures Survive(old(objects), objects, s.loose) && objects.Keys == old(objects).Keys
    {
      hide *;
      ghost var was, held := objects, outside + Twice(cache);
      ReadyParts(this, outside, s);
      OneReferenceMore(objects, held, s, x);
      objects := AddRef(objects, x);
      ghost var once := objects;
      OneReferenceMore(objects, held + multiset{x}, s, x);
      objects := AddRef(objects, x);
      ghost var twice := objects;
      SurviveOn(was, once, twice, s.loose);
      var h := HashOf(x, held + multiset{x} + multiset{x}, s);
      SurviveOn(was, twice, objects, s.loose);
      InsertKeepsOrder(cache, k, x, s);
      InsertKeepsScope(was, objects, cache, k, x, s);
      cache := cache[..k] + [x] + cache[k..];
      assert held + multiset{x} + multiset{x} == outside + Twice(cache);
      ReadyWhole(this, outside, s);
    }

    /** iot_data_cache_add on slot i of object p: the slot is given the cached object that compares as zero, or the one
        it has is cached and compressed itself. */
    method CacheAdd(p: Ref, i: nat, ghost busy: set<Ref>, ghost outside: multiset<Ref>, ghost s: Setting)
      requires Ready(outside, s) && p in s.trees && p in busy && Working(cache, busy, outside, s, TreeSize(s.trees[p]))
      requires p in objects && i < |objects[p].slots| && Settled(objects, cache, busy)
      modifies this
      ensures Ready(outside, s) && Settled(objects, cache, busy) && Grows(old(cache), cache)
      ensures Shapes(old(objects), objects, s.loose) && Untouched(old(objects), objects, busy - {p})
      ensures p in objects && p in old(objects) && i < |old(objects)[p].slots| == |objects[p].slots|
      ensures objects[p].slots[i] in cache
      ensures objects[p].slots == old(objects)[p].slots[i := objects[p].slots[i]]
      ensures Unlike(old(cache), s, old(objects)[p].slots[i]) ==> objects[p].slots == old(objects)[p].slots
      decreases TreeSize(s.trees[p]), 1
    {
      hide *;
      ghost var was, before := objects, cache;
      ReadyParts(this, outside, s);
      SlotFacts(objects, cache, outside, busy, s, p, i);
      var x := objects[p].slots[i];
      var k, found := Find(x, outside + Twice(cache), s);
      ghost var searched := objects;
      SurviveAt(was, searched, s.loose, p);
      CarriedOver(was, searched, cache, busy, s);
      ReadyWhole(this, outside, s);
      GrowsAlready(cache);
      if found {
        LikeIsFound(cache, s, x, k);
        UseCached(p, i, cache[k], busy, outside, s);
        Carried(was, searched, objects, busy - {p}, s.loose);
      } else {
        AddToCache(x, k, outside, s);
        ghost var inserted, middle := cache, objects;
        SurviveOn(was, searched, middle, s.loose);
        Inserted(searched, objects, before, k, x, busy, outside, s, TreeSize(s.trees[p]));
        if objects[x].shape.Composite? {
          CompressSlots(x, busy, outside, s);
        } else {
          SoundHere(this, outside, s, x);
          AllSettled(objects, cache, busy, x);
          NothingChanged(objects, busy, s.loose);
        }
        GrowsOn(before, inserted, cache);
        ReadyParts(this, outside, s);
        WorkingGrows(inserted, cache, busy, outside, s, TreeSize(s.trees[x]) + 1);
        BusyIsLive(objects, cache, busy, outside, s, TreeSize(s.trees[x]) + 1);
        Carried(was, middle, objects, busy, s.loose);
        FewerUntouched(was, objects, busy, p);
        assert was[p].slots[i := x] == was[p].slots;
        CachedAlready(inserted, cache, x);
      }
    }

    /** iot_data_compress_with_cache */
    method CompressSlots(x: Ref, ghost busy: set<Ref>, ghost outside: multiset<Ref>, ghost s: Setting)
      requires Ready(outside, s) && x in objects && x in s.trees && Worked(cache, x, outside, s)
      requires Working(cache, busy, outside, s, TreeSize(s.trees[x]) + 1) && Settled(objects, cache, busy + {x})
      modifies this
      ensures Ready(outside, s) && Settled(objects, cache, busy) && Grows(old(cache), cache)
      ensures Shapes(old(objects), objects, s.loose) && Untouched(old(objects), objects, busy) && x in objects
      ensures forall i :: 0 <= i < |objects[x].slots| ==> objects[x].slots[i] in cache
      ensures old(cache) == [] ==> FirstKept(old(objects)[x], objects[x])
      decreases TreeSize(s.trees[x]), 2
    {
      hide *;
      ghost var all, was := busy + {x}, objects;
      var shape, n := objects[x].shape, |objects[x].slots|;
      Starts(this, busy, outside, s, x);
      FirstStays(objects[x], objects[x]);
      for j := 0 to n
        invariant Ready(outside, s) && Settled(objects, cache, all) && Grows(old(cache), cache)
        invariant Working(cache, all, outside, s, TreeSize(s.trees[x]))
        invariant Shapes(was, objects, s.loose) && Untouched(was, objects, busy)
        invariant x in objects && objects[x].shape == shape && |objects[x].slots| == n
        invariant VisitedCached(objects[x].slots, shape, j, cache)
        invariant old(cache) == [] ==> FirstKept(was[x], objects[x]) && (j == 0 ==> cache == [])
      {
        ghost var before, cached, o := objects, cache, objects[x];
        VisitedInRange(this, outside, s, x, j);
        if cache == [] {
          ReadyParts(this, outside, s);
          SlotFacts(objects, cache, outside, all, s, x, Visited(shape, j));
          NothingAlike(s, o.slots[Visited(shape, j)]);
        }
        CacheAdd(x, Visited(shape, j), all, outside, s);
        GrowsOn(old(cache), cached, cache);
        WorkingGrows(cached, cache, all, outside, s, TreeSize(s.trees[x]));
        KeepsOthers(was, before, objects, busy, x, s.loose);
        if old(cache) == [] { FirstStaysOn(was[x], o, objects[x], j); }
        VisitedNext(o.slots, objects[x].slots, shape, j, cached, cache);
      }
      AllVisited(this, outside, s, x);
      AllSettled(objects, cache, busy, x);
    }

    /** iot_data_free on the cache: both references of every entry are given back. */
    method FreeCache(ghost outside: multiset<Ref>, ghost s: Setting)
      requires Ready(outside, s)
      modifies this
      ensures cache == [] && Valid(objects, outside, s) && Survive(old(objects), objects, s.loose)
    {
      hide *;
      ReadyParts(this, outside, s);
      ghost var was := objects;
      assert cache[0..] == cache;
      SurviveItself(was, s.loose);
      for i := 0 to |cache|
        invariant cache == old(cache) && Valid(objects, outside + Twice(cache[i..]), s) && Survive(was, objects, s.loose)
      {
        ghost var held, before := outside + Twice(cache[i..]), objects;
        TwiceNext(cache, i, outside);
        Free(cache[i], held, s);
        ghost var between := objects;
        Free(cache[i], held - multiset{cache[i]}, s);
        SurviveOn(before, between, objects, s.loose);
        SurviveOn(was, before, objects, s.loose);
      }
      TwiceNone(cache, outside);
      cache := [];
    }

    /** iot_data_compress, for any graph of objects in which none contains itself, whatever hashes they have cached.
        Every reference count is exact afterwards, and all contents are the same. Below the root, objects that compare as
        zero are one object. The root compares with everything as it did, unless its hash was out of date and is another
        when computed from the new slots. Its value, and so the hash computed from it, is the same if and only if the
        comparison told apart all values below it. */
    method Compress(root: Ref, ghost outside: multiset<Ref>, ghost trees: map<Ref, Tree>) returns (ghost after: map<Ref, Tree>)
      requires cache == [] && Graph(objects, outside, trees) && root in outside
      modifies this
      ensures cache == [] && Graph(objects, outside, after)
      ensures root in objects && root in old(objects) && Shapes(old(objects), objects, {root})
      ensures forall x :: x in objects ==> x in trees && x in after && Canon(Contents(after[x])) == Canon(Contents(trees[x]))
      ensures SharedBelow(objects, root, after)
      ensures forall x :: Below(objects, root, x) ==> x in after && x in trees && CmpTree(after[x], trees[x]) == 0
      ensures CmpTree(after[root], trees[root]) == 0 <==> Stamp(after[root]) == Stamp(trees[root])
      ensures !old(objects)[root].rehash ==> Stamp(after[root]) == Stamp(trees[root])
      ensures Contents(after[root]) == Contents(trees[root]) <==> ToldApart(old(objects), root, trees)
      ensures FirstKept(old(objects)[root], objects[root])
    {
      hide *;
      ghost var was, s := objects, Setting(trees, {root}, BelowSet(objects, root));
      CompressStarts(this, outside, s, root);
      FirstStays(was[root], was[root]);
      if objects[root].shape.Composite? {
        CompressSlots(root, {}, outside, s);
      } else {
        SoundHere(this, outside, s, root);
        AllSettled(objects, cache, {}, root);
        NothingChanged(objects, {}, s.loose);
      }
      ghost var compressed, cached := objects, cache;
      ReadyParts(this, outside, s);
      FreeCache(outside, s);
      HeldIsLive(objects, outside, s, root);
      CompressEnds(was, compressed, objects, cached, outside, s, root);
      after := Readings(objects, s);
    }
  }

  /** The slot that is visited first keeps its object. */
  ghost predicate FirstKept(o: Object, o': Object) {
    var i := Visited(o.shape, 0);
    i < |o.slots| ==> i < |o'.slots| && o'.slots[i] == o.slots[i]
  }

  lemma FirstStays(o: Object, o': Object)
    requires o' == o
    ensures FirstKept(o, o')
  {
  }

  lemma FirstStaysOn(o: Object, o': Object, o'': Object, j: nat)
    requires FirstKept(o, o') && o'.shape == o.shape && |o'.slots| == |o.slots| == |o''.slots|
    requires 0 <= Visited(o.shape, j) < |o'.slots|
    requires j == 0 ==> o''.slots == o'.slots
    requires o''.slots == o'.slots[Visited(o.shape, j) := o''.slots[Visited(o.shape, j)]]
    ensures FirstKept(o, o'')
  {
  }

  lemma NothingAlike(s: Setting, x: Ref)
    requires x in s.trees
    ensures Unlike([], s, x)
  {
  }

  lemma OrderedIsKnown(cache: seq<Ref>, s: Setting)
    requires Ordered(cache, s)
    ensures forall j :: 0 <= j < |cache| ==> cache[j] in s.trees
  {
  }

  lemma LikeIsFound(cache: seq<Ref>, s: Setting, x: Ref, k: nat)
    requires k < |cache| && x in s.trees && cache[k] in s.trees && CmpTree(s.trees[cache[k]], s.trees[x]) == 0
    ensures !Unlike(cache, s, x) && cache[k] in cache
  {
  }

  // ---------------------------------------------------------------- what the steps carry over

  lemma CarriedOver(was: Objects, objects: Objects, cache: seq<Ref>, busy: set<Ref>, s: Setting)
    requires Survive(was, objects, s.loose) && Hashed(was, cache) && Scope(was, cache, s) && Settled(was, cache, busy)
    ensures Hashed(objects, cache) && Scope(objects, cache, s) && Settled(objects, cache, busy)
  {
    forall x | x in objects
      ensures x in was && objects[x].slots == was[x].slots && (!was[x].rehash ==> !objects[x].rehash)
    {
      SurviveAt(was, objects, s.loose, x);
    }
    hide Survive, Under;
  }

  lemma Carried(was: Objects, middle: Objects, objects: Objects, busy: set<Ref>, loose: set<Ref>)
    requires Survive(was, middle, loose) && Shapes(middle, objects, loose) && Untouched(middle, objects, busy)
    ensures Shapes(was, objects, loose) && Untouched(was, objects, busy)
    ensures forall p :: p in busy && p in objects ==> p in was && objects[p].slots == was[p].slots
  {
    forall x | x in objects ensures x in was && Kept(was[x], objects[x], x in loose) && x in middle && middle[x].slots == was[x].slots {
      assert x in middle && Kept(middle[x], objects[x], x in loose) && Kept(was[x], middle[x], x in loose);
    }
  }

  lemma FewerUntouched(was: Objects, objects: Objects, busy: set<Ref>, p: Ref)
    requires Untouched(was, objects, busy)
    ensures Untouched(was, objects, busy - {p})
  {
  }

  lemma InsertKeepsScope(was: Objects, objects: Objects, cache: seq<Ref>, k: nat, x: Ref, s: Setting)
    requires Survive(was, objects, s.loose) && Hashed(was, cache) && Scope(was, cache, s) && k <= |cache|
    requires x in s.below && x in objects && !objects[x].rehash
    ensures Hashed(objects, cache[..k] + [x] + cache[k..]) && Scope(objects, cache[..k] + [x] + cache[k..], s)
  {
    forall y | y in objects
      ensures y in was && objects[y].slots == was[y].slots && (!was[y].rehash ==> !objects[y].rehash)
    {
      SurviveAt(was, objects, s.loose, y);
    }
    assert cache == cache[..k] + cache[k..];
    hide Survive, Under;
  }

  // ---------------------------------------------------------------- the loop over the slots

  ghost predicate VisitedCached(slots: seq<Ref>, shape: Shape, j: nat, cache: seq<Ref>) {
    forall k :: 0 <= k < j && 0 <= Visited(shape, k) < |slots| ==> slots[Visited(shape, k)] in cache
  }

  lemma Starts(heap: Heap, busy: set<Ref>, outside: multiset<Ref>, s: Setting, x: Ref)
    requires heap.Ready(outside, s) && x in heap.objects && x in s.trees && Worked(heap.cache, x, outside, s)
    requires Working(heap.cache, busy, outside, s, TreeSize(s.trees[x]) + 1)
    ensures Working(heap.cache, busy + {x}, outside, s, TreeSize(s.trees[x])) && Grows(heap.cache, heap.cache)
    ensures Shapes(heap.objects, heap.objects, s.loose) && Untouched(heap.objects, heap.objects, busy)
    ensures VisitedCached(heap.objects[x].slots, heap.objects[x].shape, 0, heap.cache)
    ensures x !in busy
  {
    hide Valid, Ordered, Twice, TreeSize, Scope, Hashed;
  }

  lemma VisitedInRange(heap: Heap, outside: multiset<Ref>, s: Setting, x: Ref, j: nat)
    requires heap.Ready(outside, s) && x in heap.objects && j < |heap.objects[x].slots|
    ensures 0 <= Visited(heap.objects[x].shape, j) < |heap.objects[x].slots|
  {
    assert SoundAt(heap.objects[x], x, s);
    hide CmpTree, Fold, Scope, Hashed, Ordered;
  }

  lemma KeepsOthers(was: Objects, before: Objects, after: Objects, busy: set<Ref>, x: Ref, loose: set<Ref>)
    requires Shapes(was, before, loose) && Shapes(before, after, loose)
    requires Untouched(was, before, busy) && Untouched(before, after, busy + {x} - {x}) && x !in busy
    requires x in after
    ensures Shapes(was, after, loose) && Untouched(was, after, busy) && x in before && x in was
    ensures after[x].shape == before[x].shape == was[x].shape && |after[x].slots| == |before[x].slots| == |was[x].slots|
  {
    assert busy + {x} - {x} == busy;
    forall y | y in after ensures y in was && Kept(was[y], after[y], y in loose) {
      assert y in before && Kept(before[y], after[y], y in loose) && Kept(was[y], before[y], y in loose);
    }
  }

  lemma VisitedNext(slots: seq<Ref>, slots': seq<Ref>, shape: Shape, j: nat, cache: seq<Ref>, cache': seq<Ref>)
    requires VisitedCached(slots, shape, j, cache) && Grows(cache, cache')
    requires 0 <= Visited(shape, j) < |slots| == |slots'| && slots'[Visited(shape, j)] in cache'
    requires slots' == slots[Visited(shape, j) := slots'[Visited(shape, j)]]
    ensures VisitedCached(slots', shape, j + 1, cache')
  {
    forall k | 0 <= k < j ensures Visited(shape, k) != Visited(shape, j) {
    }
  }

  lemma AllVisited(heap: Heap, outside: multiset<Ref>, s: Setting, x: Ref)
    requires heap.Ready(outside, s) && x in heap.objects
    requires VisitedCached(heap.objects[x].slots, heap.objects[x].shape, |heap.objects[x].slots|, heap.cache)
    ensures forall i :: 0 <= i < |heap.objects[x].slots| ==> heap.objects[x].slots[i] in heap.cache
  {
    hide *;
    var shape, slots := heap.objects[x].shape, heap.objects[x].slots;
    forall i | 0 <= i < |slots| ensures slots[i] in heap.cache {
      VisitedInRange(heap, outside, s, x, i);
      VisitedTwice(shape, i);
      WasVisited(slots, shape, |slots|, heap.cache, Visited(shape, i));
    }
  }

  lemma VisitedTwice(shape: Shape, i: nat)
    ensures Visited(shape, Visited(shape, i)) == i
  {
  }

  lemma WasVisited(slots: seq<Ref>, shape: Shape, j: nat, cache: seq<Ref>, k: nat)
    requires VisitedCached(slots, shape, j, cache) && k < j && Visited(shape, k) < |slots|
    ensures slots[Visited(shape, k)] in cache
  {
  }

  // ---------------------------------------------------------------- the end of the cache

  lemma TwiceNext(cache: seq<Ref>, i: nat, outside: multiset<Ref>)
    requires i < |cache|
    ensures var held := outside + Twice(cache[i..]);
      && cache[i] in held && cache[i] in held - multiset{cache[i]}
      && held - multiset{cache[i]} - multiset{cache[i]} == outside + Twice(cache[i + 1..])
  {
    assert cache[i..] == [cache[i]] + cache[i + 1..];
  }

  lemma TwiceNone(cache: seq<Ref>, outside: multiset<Ref>)
    ensures outside + Twice(cache[|cache|..]) == outside
  {
  }

  // ---------------------------------------------------------------- what lies below the root

  /** A graph of objects in which none contains itself, with the trees of its objects and exact reference counts. */
  ghost predicate Graph(objects: Objects, held: multiset<Ref>, trees: map<Ref, Tree>) {
    Exact(objects, trees) && Closed(objects) && Counted(objects, held) && Live(objects, held)
  }

  /** A way down from the root. */
  ghost predicate Path(objects: Objects, root: Ref, p: seq<Ref>) {
    && p != [] && p[0] == root
    && forall i :: 0 <= i < |p| - 1 ==> p[i] in objects && p[i + 1] in objects[p[i]].slots
  }

  ghost predicate Below(objects: Objects, root: Ref, x: Ref) {
    exists p :: Path(objects, root, p) && |p| > 1 && p[|p| - 1] == x
  }

  ghost function BelowSet(objects: Objects, root: Ref): set<Ref> {
    set x | x in objects && Below(objects, root, x)
  }

  /** Below the root no two objects compare as zero. */
  ghost predicate SharedBelow(objects: Objects, root: Ref, trees: map<Ref, Tree>) {
    forall x, y :: Below(objects, root, x) && Below(objects, root, y) ==>
      x in trees && y in trees && (CmpTree(trees[x], trees[y]) == 0 ==> x == y)
  }

  /** Objects below the root that compare as zero have the same value: none of their empty arrays were allocated
      differently. */
  ghost predicate ToldApart(objects: Objects, root: Ref, trees: map<Ref, Tree>) {
    forall x, y :: Below(objects, root, x) && Below(objects, root, y) ==>
      x in trees && y in trees && (CmpTree(trees[x], trees[y]) == 0 ==> Contents(trees[x]) == Contents(trees[y]))
  }

  /** So it is where all hashes are right and no empty array was given a buffer. */
  lemma PlainIsToldApart(objects: Objects, held: multiset<Ref>, root: Ref, trees: map<Ref, Tree>)
    requires Graph(objects, held, trees) && root in objects
    requires forall x :: x in objects ==> trees[x] == Fresh(Contents(trees[x])) && Plain(Contents(trees[x]))
    ensures ToldApart(objects, root, trees)
  {
    hide CmpTree, Contents, Fresh, Cmp, Plain, Counted, Live;
    forall x, y | Below(objects, root, x) && Below(objects, root, y)
      ensures x in trees && y in trees && (CmpTree(trees[x], trees[y]) == 0 ==> Contents(trees[x]) == Contents(trees[y]))
    {
      BelowIsThere(objects, trees, root, x);
      BelowIsThere(objects, trees, root, y);
      FreshCompares(Contents(trees[x]), Contents(trees[y]));
      EqualIsStructural(Contents(trees[x]), Contents(trees[y]));
    }
  }

  lemma PathGrows(objects: Objects, root: Ref, p: seq<Ref>, i: nat)
    requires Path(objects, root, p) && p[|p| - 1] in objects && i < |objects[p[|p| - 1]].slots|
    ensures Path(objects, root, p + [objects[p[|p| - 1]].slots[i]])
    ensures Below(objects, root, objects[p[|p| - 1]].slots[i])
  {
    var q := p + [objects[p[|p| - 1]].slots[i]];
    forall j | 0 <= j < |q| - 1 ensures q[j] in objects && q[j + 1] in objects[q[j]].slots {
      if j < |p| - 1 { assert p[j] in objects && p[j + 1] in objects[p[j]].slots; }
    }
    assert Path(objects, root, q) && |q| > 1 && q[|q| - 1] == objects[p[|p| - 1]].slots[i];
  }

  lemma PathShrinks(objects: Objects, root: Ref, p: seq<Ref>) returns (i: nat)
    requires Path(objects, root, p) && |p| > 1
    ensures Path(objects, root, p[..|p| - 1]) && p[|p| - 2] in objects && i < |objects[p[|p| - 2]].slots|
    ensures objects[p[|p| - 2]].slots[i] == p[|p| - 1] && p[..|p| - 1][|p| - 2] == p[|p| - 2]
  {
    var n := |p| - 2;
    assert p[n] in objects && p[n + 1] in objects[p[n]].slots;
    i :| i < |objects[p[n]].slots| && objects[p[n]].slots[i] == p[n + 1];
  }

  /** Whatever lies below the root is there and is smaller. */
  lemma {:induction false} PathIsThere(objects: Objects, trees: map<Ref, Tree>, root: Ref, p: seq<Ref>)
    requires Exact(objects, trees) && Closed(objects) && root in objects && Path(objects, root, p)
    ensures p[|p| - 1] in objects && p[|p| - 1] in trees && root in trees
    ensures |p| > 1 ==> TreeSize(trees[p[|p| - 1]]) < TreeSize(trees[root])
    decreases |p|
  {
    hide Path, TreeSize, ExactAt;
    PathStarts(objects, root, p);
    if |p| > 1 {
      var i := PathShrinks(objects, root, p);
      PathIsThere(objects, trees, root, p[..|p| - 1]);
      SlotIsExact(objects, trees, p[|p| - 2], i);
    } else {
      ExactIsKnown(objects, trees, root);
    }
  }

  lemma PathStarts(objects: Objects, root: Ref, p: seq<Ref>)
    requires Path(objects, root, p)
    ensures p != [] && p[0] == root
  {
  }

  lemma ExactIsKnown(objects: Objects, trees: map<Ref, Tree>, r: Ref)
    requires Exact(objects, trees) && r in objects
    ensures r in trees
  {
    assert ExactAt(objects[r], r, trees);
  }

  lemma SlotIsExact(objects: Objects, trees: map<Ref, Tree>, r: Ref, i: nat)
    requires Exact(objects, trees) && Closed(objects) && r in objects && i < |objects[r].slots|
    ensures var x := objects[r].slots[i];
      && x in objects && x in trees && r in trees && TreeSize(trees[x]) < TreeSize(trees[r])
      && trees[r].Node? && |trees[r].parts| == |objects[r].slots| && trees[r].parts[i] == trees[x]
      && (trees[r].kind.MapKind? ==> |objects[r].slots| % 2 == 0)
  {
    assert ExactAt(objects[r], r, trees);
    PresentPart(objects[r], trees, i);
    hide Fold, TreeSize;
  }

  lemma BelowIsThere(objects: Objects, trees: map<Ref, Tree>, root: Ref, x: Ref)
    requires Exact(objects, trees) && Closed(objects) && root in objects && Below(objects, root, x)
    ensures x in objects && x in trees && root in trees && TreeSize(trees[x]) < TreeSize(trees[root])
  {
    var p :| Path(objects, root, p) && |p| > 1 && p[|p| - 1] == x;
    PathIsThere(objects, trees, root, p);
    hide Path, Exact, TreeSize;
  }

  lemma SlotsAreBelow(objects: Objects, root: Ref, x: Ref, i: nat)
    requires root in objects && x in objects && (x == root || Below(objects, root, x)) && i < |objects[x].slots|
    ensures Below(objects, root, objects[x].slots[i])
  {
    hide Path;
    if x == root {
      PathOfOne(objects, root);
      PathGrows(objects, root, [root], i);
    } else {
      var p :| Path(objects, root, p) && |p| > 1 && p[|p| - 1] == x;
      PathGrows(objects, root, p, i);
    }
  }

  lemma PathOfOne(objects: Objects, root: Ref)
    ensures Path(objects, root, [root])
  {
  }

  lemma CompressStarts(heap: Heap, outside: multiset<Ref>, s: Setting, root: Ref)
    requires heap.cache == [] && Graph(heap.objects, outside, s.trees) && root in outside
    requires s == Setting(s.trees, {root}, BelowSet(heap.objects, root))
    ensures heap.Ready(outside, s) && root in heap.objects && root in s.trees && Worked(heap.cache, root, outside, s)
    ensures Working(heap.cache, {}, outside, s, TreeSize(s.trees[root]) + 1)
    ensures Settled(heap.objects, heap.cache, {} + {root})
  {
    hide Below, ExactAt, Counted, TreeSize, SoundAt;
    var objects := heap.objects;
    assert outside + Twice([]) == outside;
    ExactIsSound(objects, s);
    ExactIsKnown(objects, s.trees, root);
    forall x | x in s.below ensures Under(s, x) {
      BelowIsThere(objects, s.trees, root, x);
    }
    forall x, i | x in objects && (x in s.loose || x in s.below) && 0 <= i < |objects[x].slots|
      ensures objects[x].slots[i] in s.below
    {
      SlotsAreBelow(objects, root, x, i);
    }
  }

  // ---------------------------------------------------------------- the objects afterwards

  /** The tree that the present slots and hashes of an object give. */
  ghost function Reading(objects: Objects, r: Ref, s: Setting): Tree
    requires Sound(objects, s) && Closed(objects) && r in objects
    decreases if r in s.trees then TreeSize(s.trees[r]) else 0, 1
  {
    var o := objects[r];
    assert SoundAt(o, r, s);
    match o.shape
    case Leaf(data) => Scalar(data)
    case Composite(kind) =>
      var parts := seq(|o.slots|, i requires 0 <= i < |o.slots| => SlotReading(objects, r, i, s));
      Node(kind, if o.rehash then Fold(kind, seq(|parts|, i requires 0 <= i < |parts| => Stamp(parts[i]))) else o.hash, parts)
  }

  ghost function SlotReading(objects: Objects, r: Ref, i: nat, s: Setting): Tree
    requires Sound(objects, s) && Closed(objects) && r in objects && i < |objects[r].slots|
    decreases if r in s.trees then TreeSize(s.trees[r]) else 0, 0
  {
    assert SoundAt(objects[r], r, s);
    SlotIsSmaller(objects[r], r, s, i);
    Reading(objects, objects[r].slots[i], s)
  }

  ghost function Readings(objects: Objects, s: Setting): (after: map<Ref, Tree>)
    requires Sound(objects, s) && Closed(objects)
    ensures after.Keys == objects.Keys
  {
    map r | r in objects :: Reading(objects, r, s)
  }

  lemma ReadingIs(objects: Objects, s: Setting, r: Ref)
    requires Sound(objects, s) && Closed(objects) && r in objects
    ensures var o, after := objects[r], Readings(objects, s);
      Known(o.slots, after) && r in after && after[r] == Present(o, after) && ExactAt(o, r, after)
  {
    var o, after := objects[r], Readings(objects, s);
    assert SoundAt(o, r, s);
    hide CmpTree, Fold, Stamp, Hash;
    match o.shape
    case Leaf(_) =>
    case Composite(kind) =>
      var parts := seq(|o.slots|, i requires 0 <= i < |o.slots| => SlotReading(objects, r, i, s));
      assert parts == PartsOf(o.slots, after);
      assert seq(|parts|, i requires 0 <= i < |parts| => Stamp(parts[i])) == StampsOf(o.slots, after);
  }

  lemma ReadingsAreExact(objects: Objects, s: Setting)
    requires Sound(objects, s) && Closed(objects)
    ensures Exact(objects, Readings(objects, s))
  {
    hide Sound, Closed, ExactAt, Readings, Present;
    forall r | r in objects ensures ExactAt(objects[r], r, Readings(objects, s)) {
      ReadingIs(objects, s, r);
    }
  }

  /** A slot before and after. */
  lemma SlotsOf(objects: Objects, s: Setting, r: Ref)
    requires Sound(objects, s) && Closed(objects) && r in objects
    ensures var o, after := objects[r], Readings(objects, s);
      && r in s.trees && r in after
      && (o.shape.Leaf? ==> after[r] == s.trees[r] && s.trees[r].Scalar?)
      && (o.shape.Composite? ==> after[r].Node? && s.trees[r].Node? && after[r].kind == s.trees[r].kind == o.shape.kind)
      && (o.shape.Composite? ==> |after[r].parts| == |s.trees[r].parts| == |o.slots|)
      && (o.shape == Composite(MapKind) ==> |o.slots| % 2 == 0)
      && forall i :: 0 <= i < |o.slots| ==>
        && o.slots[i] in objects && o.slots[i] in s.trees && TreeSize(s.trees[o.slots[i]]) < TreeSize(s.trees[r])
        && after[r].parts[i] == after[o.slots[i]] && CmpTree(s.trees[o.slots[i]], s.trees[r].parts[i]) == 0
  {
    var o := objects[r];
    assert SoundAt(o, r, s);
    ReadingIs(objects, s, r);
    hide Readings, CmpTree, Fold, TreeSize, Sound;
    forall i | 0 <= i < |o.slots| ensures TreeSize(s.trees[o.slots[i]]) < TreeSize(s.trees[r]) {
      SlotIsSmaller(o, r, s, i);
    }
  }

  /** All contents are the same, up to how empty arrays were allocated. */
  lemma {:induction false} ReadingContents(objects: Objects, s: Setting, r: Ref)
    requires Sound(objects, s) && Closed(objects) && r in objects
    ensures r in s.trees && Canon(Contents(Readings(objects, s)[r])) == Canon(Contents(s.trees[r]))
    decreases if r in s.trees then TreeSize(s.trees[r]) else 0
  {
    hide *;
    SlotsOf(objects, s, r);
    ReadingsKeys(objects, s);
    var o, after := objects[r], Readings(objects, s);
    if o.shape.Composite? {
      var a, b := after[r], s.trees[r];
      ContentsAt(a.parts);
      ContentsAt(b.parts);
      ContentsIs(a);
      ContentsIs(b);
      forall i | 0 <= i < |o.slots| ensures Canon(Contents(a.parts[i])) == Canon(Contents(b.parts[i])) {
        ReadingContents(objects, s, o.slots[i]);
        ZeroIsSameContents(s.trees[o.slots[i]], b.parts[i]);
      }
      CanonSeqAt(ContentsOf(a.parts), ContentsOf(b.parts));
      CanonBuild(a.kind, ContentsOf(a.parts), ContentsOf(b.parts));
    }
  }

  lemma ReadingsKeys(objects: Objects, s: Setting)
    requires Sound(objects, s) && Closed(objects)
    ensures forall r :: r in objects <==> r in Readings(objects, s)
  {
    hide Reading, Sound, Closed;
  }

  lemma ContentsIs(t: Tree)
    requires t.Node?
    ensures Contents(t) == Build(t.kind, ContentsOf(t.parts))
  {
  }

  /** Below what is loose everything compares as it did. */
  lemma {:induction false} ReadingZero(objects: Objects, held: multiset<Ref>, s: Setting, r: Ref)
    requires Valid(objects, held, s) && r in objects && Under(s, r)
    ensures r in s.trees && r in Readings(objects, s) && CmpTree(Readings(objects, s)[r], s.trees[r]) == 0
    decreases if r in s.trees then TreeSize(s.trees[r]) else 0
  {
    hide *;
    ValidParts(objects, held, s);
    SlotsOf(objects, s, r);
    ReadingsKeys(objects, s);
    var o, after := objects[r], Readings(objects, s);
    if o.shape.Composite? {
      forall i | 0 <= i < |o.slots|
        ensures o.slots[i] in after && CmpTree(after[o.slots[i]], s.trees[o.slots[i]]) == 0
        ensures CmpTree(after[r].parts[i], s.trees[r].parts[i]) == 0
      {
        SlotUnder(objects, held, s, r, i);
        ReadingZero(objects, held, s, o.slots[i]);
        Interchange(after[o.slots[i]], s.trees[o.slots[i]], s.trees[r].parts[i]);
      }
      SameAnswer(objects, held, s, r);
      NodeZero(after[r], s.trees[r]);
    } else {
      TreeSelf(s.trees[r]);
    }
  }

  lemma ValidParts(objects: Objects, held: multiset<Ref>, s: Setting)
    requires Valid(objects, held, s)
    ensures Sound(objects, s) && Closed(objects)
  {
  }

  lemma ZeroStamps(objects: Objects, s: Setting, r: Ref)
    requires Sound(objects, s) && Closed(objects) && r in objects && r in s.trees && r in Readings(objects, s)
    requires CmpTree(Readings(objects, s)[r], s.trees[r]) == 0
    ensures Stamp(Readings(objects, s)[r]) == Stamp(s.trees[r])
  {
    SlotsOf(objects, s, r);
    hide Readings, Sound, Closed, CmpTree, TreeSize, Hash;
    ZeroNode(Readings(objects, s)[r], s.trees[r]);
  }

  lemma SameAnswer(objects: Objects, held: multiset<Ref>, s: Setting, r: Ref)
    requires Valid(objects, held, s) && r in objects && Under(s, r) && objects[r].shape.Composite?
    requires forall i :: 0 <= i < |objects[r].slots| ==>
      var x := objects[r].slots[i];
      x in objects && x in s.trees && x in Readings(objects, s) && CmpTree(Readings(objects, s)[x], s.trees[x]) == 0
    ensures r in Readings(objects, s) && r in s.trees && Readings(objects, s)[r].Node? && s.trees[r].Node?
    ensures Readings(objects, s)[r].stamp == s.trees[r].stamp
  {
    hide *;
    ValidParts(objects, held, s);
    var o, after := objects[r], Readings(objects, s);
    ReadingIs(objects, s, r);
    StampsAt(objects, held, s, r);
    forall i | 0 <= i < |o.slots| ensures o.slots[i] in after && o.slots[i] in s.trees && Stamp(after[o.slots[i]]) == Stamp(s.trees[o.slots[i]]) {
      ZeroStamps(objects, s, o.slots[i]);
    }
    SameStamps(o.slots, after, s.trees);
    PresentIs(o, after);
  }

  lemma SameStamps(slots: seq<Ref>, a: map<Ref, Tree>, b: map<Ref, Tree>)
    requires forall i :: 0 <= i < |slots| ==> slots[i] in a && slots[i] in b && Stamp(a[slots[i]]) == Stamp(b[slots[i]])
    ensures Known(slots, a) && Known(slots, b) && StampsOf(slots, a) == StampsOf(slots, b)
  {
    hide Stamp;
  }

  lemma PresentIs(o: Object, trees: map<Ref, Tree>)
    requires Known(o.slots, trees) && o.shape.Composite?
    ensures Present(o, trees) ==
      Node(o.shape.kind, if o.rehash then Fold(o.shape.kind, StampsOf(o.slots, trees)) else o.hash, PartsOf(o.slots, trees))
  {
  }

  // ---------------------------------------------------------------- the end

  /** Everything below the root is cached, and was below it from the start. */
  ghost predicate Cached(objects: Objects, cached: seq<Ref>, s: Setting, root: Ref) {
    && root in objects && Ordered(cached, s) && (forall c :: c in cached ==> c in s.below)
    && forall x, i :: x in objects && (x == root || x in cached) && 0 <= i < |objects[x].slots| ==> objects[x].slots[i] in cached
  }

  lemma CachedAtTheEnd(compressed: Objects, objects: Objects, cached: seq<Ref>, s: Setting, root: Ref)
    requires Survive(compressed, objects, s.loose) && Settled(compressed, cached, {}) && root in objects && root in compressed
    requires Ordered(cached, s) && Scope(compressed, cached, s)
    requires forall i :: 0 <= i < |compressed[root].slots| ==> compressed[root].slots[i] in cached
    ensures Cached(objects, cached, s, root)
  {
    hide CmpTree, Under;
    forall x, i | x in objects && (x == root || x in cached) && 0 <= i < |objects[x].slots| ensures objects[x].slots[i] in cached {
      SurviveAt(compressed, objects, s.loose, x);
    }
  }

  lemma {:induction false} PathIsCached(objects: Objects, cached: seq<Ref>, s: Setting, root: Ref, p: seq<Ref>)
    requires Cached(objects, cached, s, root) && Path(objects, root, p) && |p| > 1
    ensures p[|p| - 1] in cached
    decreases |p|
  {
    hide Path, Ordered;
    var i := PathShrinks(objects, root, p);
    if |p| > 2 {
      PathIsCached(objects, cached, s, root, p[..|p| - 1]);
    } else {
      PathStarts(objects, root, p);
    }
  }

  lemma BelowIsCached(objects: Objects, cached: seq<Ref>, s: Setting, root: Ref, x: Ref)
    requires Cached(objects, cached, s, root) && Below(objects, root, x)
    ensures x in cached && x in s.below
  {
    var p :| Path(objects, root, p) && |p| > 1 && p[|p| - 1] == x;
    PathIsCached(objects, cached, s, root, p);
    hide Path, Ordered;
  }

  lemma CacheShares(objects: Objects, held: multiset<Ref>, cached: seq<Ref>, s: Setting, root: Ref)
    requires Valid(objects, held, s) && Cached(objects, cached, s, root) && forall x :: x in s.below ==> Under(s, x)
    ensures SharedBelow(objects, root, Readings(objects, s))
    ensures forall x :: Below(objects, root, x) ==>
      x in Readings(objects, s) && x in s.trees && CmpTree(Readings(objects, s)[x], s.trees[x]) == 0
  {
    hide *;
    ValidParts(objects, held, s);
    ReadingsKeys(objects, s);
    CachedIsOrdered(objects, cached, s, root);
    CachedHasRoot(objects, cached, s, root);
    var after := Readings(objects, s);
    forall x | Below(objects, root, x)
      ensures x in cached && x in after && x in s.trees && CmpTree(after[x], s.trees[x]) == 0
    {
      BelowIsCached(objects, cached, s, root, x);
      BelowIsLive(objects, held, s, root, x);
      ReadingZero(objects, held, s, x);
    }
    forall x, y | Below(objects, root, x) && Below(objects, root, y) && CmpTree(after[x], after[y]) == 0
      ensures x == y
    {
      Interchange(after[x], s.trees[x], after[y]);
      Interchange(after[y], s.trees[y], s.trees[x]);
      CachedOnce(cached, s, x, y);
    }
    SharedIs(objects, root, after);
  }

  lemma SharedIs(objects: Objects, root: Ref, trees: map<Ref, Tree>)
    requires forall x :: Below(objects, root, x) ==> x in trees
    requires forall x, y :: Below(objects, root, x) && Below(objects, root, y) && CmpTree(trees[x], trees[y]) == 0 ==> x == y
    ensures SharedBelow(objects, root, trees)
  {
    hide Below, CmpTree;
  }

  lemma CachedIsOrdered(objects: Objects, cached: seq<Ref>, s: Setting, root: Ref)
    requires Cached(objects, cached, s, root)
    ensures Ordered(cached, s)
  {
  }

  lemma BelowIsLive(objects: Objects, held: multiset<Ref>, s: Setting, root: Ref, x: Ref)
    requires Valid(objects, held, s) && root in objects && Below(objects, root, x)
    ensures x in objects
  {
    var p :| Path(objects, root, p) && |p| > 1 && p[|p| - 1] == x;
    var i := PathShrinks(objects, root, p);
    hide Path, Sound, Counted;
  }

  /** Where the comparison tells the values apart they all stay. */
  lemma {:induction false} ValueStays(was: Objects, objects: Objects, held: multiset<Ref>, cached: seq<Ref>, s: Setting, root: Ref, x: Ref)
    requires Exact(was, s.trees) && Closed(was) && root in was && s.below == BelowSet(was, root)
    requires Valid(objects, held, s) && Cached(objects, cached, s, root) && Shapes(was, objects, s.loose)
    requires ToldApart(was, root, s.trees)
    requires x in objects && (x == root || x in cached)
    ensures x in s.trees && x in Readings(objects, s) && Contents(Readings(objects, s)[x]) == Contents(s.trees[x])
    decreases if x in s.trees then TreeSize(s.trees[x]) else 0
  {
    hide *;
    ValidParts(objects, held, s);
    SlotsOf(objects, s, x);
    ReadingsKeys(objects, s);
    var o, after := objects[x], Readings(objects, s);
    if o.shape.Composite? {
      var a, b := after[x], s.trees[x];
      ContentsAt(a.parts);
      ContentsAt(b.parts);
      ContentsIs(a);
      ContentsIs(b);
      ShapesAt(was, objects, s.loose, x);
      forall i | 0 <= i < |o.slots| ensures Contents(a.parts[i]) == Contents(b.parts[i]) {
        var c, d := o.slots[i], was[x].slots[i];
        SlotIsCached(was, objects, cached, s, root, x, i);
        ValueStays(was, objects, held, cached, s, root, c);
        SlotIsExact(was, s.trees, x, i);
        BothBelow(was, cached, s, root, x, i, c);
      }
      assert ContentsOf(a.parts) == ContentsOf(b.parts);
    }
  }

  lemma ShapesAt(was: Objects, objects: Objects, loose: set<Ref>, x: Ref)
    requires Shapes(was, objects, loose) && x in objects
    ensures x in was && objects[x].shape == was[x].shape && |objects[x].slots| == |was[x].slots|
  {
  }

  lemma SlotIsCached(was: Objects, objects: Objects, cached: seq<Ref>, s: Setting, root: Ref, x: Ref, i: nat)
    requires Cached(objects, cached, s, root) && x in objects && (x == root || x in cached) && i < |objects[x].slots|
    ensures objects[x].slots[i] in cached && objects[x].slots[i] in s.below && (x == root || x in s.below)
  {
    hide Ordered;
  }

  lemma BothBelow(was: Objects, cached: seq<Ref>, s: Setting, root: Ref, x: Ref, i: nat, c: Ref)
    requires ToldApart(was, root, s.trees) && s.below == BelowSet(was, root) && root in was
    requires x in was && i < |was[x].slots| && (x == root || x in s.below) && c in s.below
    requires c in s.trees && was[x].slots[i] in s.trees && CmpTree(s.trees[c], s.trees[was[x].slots[i]]) == 0
    ensures Contents(s.trees[c]) == Contents(s.trees[was[x].slots[i]])
  {
    hide Below, CmpTree, Contents;
    SlotsAreBelow(was, root, x, i);
  }

  /** If the value stays, so does what every way down leads to: the object found there now has the value of the one that
      was found there before. */
  lemma {:induction false} Follows(was: Objects, objects: Objects, held: multiset<Ref>, s: Setting, root: Ref, p: seq<Ref>) returns (q: seq<Ref>)
    requires Exact(was, s.trees) && Closed(was) && root in was && Valid(objects, held, s) && root in objects
    requires root in s.trees && root in Readings(objects, s) && Contents(Readings(objects, s)[root]) == Contents(s.trees[root])
    requires Path(was, root, p)
    ensures Path(objects, root, q) && |q| == |p| > 0
    ensures var x, y := p[|p| - 1], q[|q| - 1];
      && x in was && x in s.trees && y in objects && y in s.trees && y in Readings(objects, s)
      && CmpTree(s.trees[y], s.trees[x]) == 0 && Contents(Readings(objects, s)[y]) == Contents(s.trees[x])
    decreases |p|
  {
    hide *;
    ValidParts(objects, held, s);
    ReadingsKeys(objects, s);
    PathStarts(was, root, p);
    if |p| == 1 {
      q := [root];
      PathOfOne(objects, root);
      TreeSelf(s.trees[root]);
    } else {
      var i := PathShrinks(was, root, p);
      var front := Follows(was, objects, held, s, root, p[..|p| - 1]);
      var x, y := p[|p| - 2], front[|front| - 1];
      SlotIsExact(was, s.trees, x, i);
      SlotsOf(objects, s, y);
      ZeroNode(s.trees[y], s.trees[x]);
      SameParts(s.trees[x], Readings(objects, s)[y], i);
      PathGrows(objects, root, front, i);
      var c := objects[y].slots[i];
      Interchange(s.trees[c], s.trees[y].parts[i], s.trees[p[|p| - 1]]);
      q := front + [c];
    }
  }

  /** Trees of the same value have parts of the same value. */
  lemma SameParts(a: Tree, b: Tree, i: nat)
    requires a.Node? && b.Node? && a.kind == b.kind && |a.parts| == |b.parts| && (a.kind.MapKind? ==> |a.parts| % 2 == 0)
    requires Contents(a) == Contents(b) && i < |a.parts|
    ensures Contents(a.parts[i]) == Contents(b.parts[i])
  {
    ContentsAt(a.parts);
    ContentsAt(b.parts);
    ContentsIs(a);
    ContentsIs(b);
    hide Contents;
    BuildIsInjective(a.kind, ContentsOf(a.parts), ContentsOf(b.parts));
  }

  /** Values that stay were told apart. */
  lemma StayingIsToldApart(was: Objects, objects: Objects, held: multiset<Ref>, cached: seq<Ref>, s: Setting, root: Ref)
    requires Exact(was, s.trees) && Closed(was) && root in was && Valid(objects, held, s)
    requires Cached(objects, cached, s, root)
    requires root in s.trees && root in Readings(objects, s) && Contents(Readings(objects, s)[root]) == Contents(s.trees[root])
    ensures ToldApart(was, root, s.trees)
  {
    hide *;
    CachedIsOrdered(objects, cached, s, root);
    CachedHasRoot(objects, cached, s, root);
    forall x, y | Below(was, root, x) && Below(was, root, y)
      ensures x in s.trees && y in s.trees && (CmpTree(s.trees[x], s.trees[y]) == 0 ==> Contents(s.trees[x]) == Contents(s.trees[y]))
    {
      var p := PathTo(was, root, x);
      var q := PathTo(was, root, y);
      var p' := Follows(was, objects, held, s, root, p);
      var q' := Follows(was, objects, held, s, root, q);
      var x', y' := p'[|p'| - 1], q'[|q'| - 1];
      if CmpTree(s.trees[x], s.trees[y]) == 0 {
        PathIsCached(objects, cached, s, root, p');
        PathIsCached(objects, cached, s, root, q');
        Interchange(s.trees[x'], s.trees[x], s.trees[y']);
        Interchange(s.trees[y'], s.trees[y], s.trees[x]);
        CachedOnce(cached, s, x', y');
      }
    }
    ToldApartIs(was, root, s.trees);
  }

  lemma PathTo(objects: Objects, root: Ref, x: Ref) returns (p: seq<Ref>)
    requires Below(objects, root, x)
    ensures Path(objects, root, p) && |p| > 1 && p[|p| - 1] == x
  {
    p :| Path(objects, root, p) && |p| > 1 && p[|p| - 1] == x;
  }

  lemma CachedHasRoot(objects: Objects, cached: seq<Ref>, s: Setting, root: Ref)
    requires Cached(objects, cached, s, root)
    ensures root in objects
  {
  }

  lemma ToldApartIs(objects: Objects, root: Ref, trees: map<Ref, Tree>)
    requires forall x, y :: Below(objects, root, x) && Below(objects, root, y) ==>
      x in trees && y in trees && (CmpTree(trees[x], trees[y]) == 0 ==> Contents(trees[x]) == Contents(trees[y]))
    ensures ToldApart(objects, root, trees)
  {
  }

  /** The root's hash is what it was, unless it was out of date. */
  lemma RootStamp(was: Objects, objects: Objects, held: multiset<Ref>, s: Setting, root: Ref)
    requires Exact(was, s.trees) && root in was && Valid(objects, held, s) && root in objects && Shapes(was, objects, s.loose)
    requires root in s.trees && s.loose == {root} && root in Readings(objects, s)
    ensures !was[root].rehash ==> Stamp(Readings(objects, s)[root]) == Stamp(s.trees[root])
  {
    assert ExactAt(was[root], root, s.trees);
    assert Kept(was[root], objects[root], true);
    ReadingIs(objects, s, root);
    hide Readings, Hash, Fold, CmpTree, TreeSize, Sound, Closed, Counted;
  }

  lemma RootZero(objects: Objects, held: multiset<Ref>, s: Setting, root: Ref)
    requires Valid(objects, held, s) && root in objects && s.loose == {root} && root in s.trees && root in Readings(objects, s)
    requires forall i :: 0 <= i < |objects[root].slots| ==> Under(s, objects[root].slots[i])
    ensures CmpTree(Readings(objects, s)[root], s.trees[root]) == 0 <==> Stamp(Readings(objects, s)[root]) == Stamp(s.trees[root])
  {
    hide *;
    ValidParts(objects, held, s);
    SlotsOf(objects, s, root);
    ReadingsKeys(objects, s);
    var o, after := objects[root], Readings(objects, s);
    var a, b := after[root], s.trees[root];
    StampIs(a);
    StampIs(b);
    if CmpTree(a, b) == 0 { ZeroStamps(objects, s, root); }
    if o.shape.Composite? {
      forall i | 0 <= i < |o.slots| ensures CmpTree(a.parts[i], b.parts[i]) == 0 {
        ReadingZero(objects, held, s, o.slots[i]);
        Interchange(after[o.slots[i]], s.trees[o.slots[i]], b.parts[i]);
      }
      if a.stamp == b.stamp { NodeZero(a, b); }
    } else {
      TreeSelf(b);
    }
  }

  /** All that compression promises, put together. */
  lemma CompressEnds(was: Objects, compressed: Objects, objects: Objects, cached: seq<Ref>, outside: multiset<Ref>, s: Setting, root: Ref)
    requires Graph(was, outside, s.trees) && root in was && s == Setting(s.trees, {root}, BelowSet(was, root))
    requires Shapes(was, compressed, s.loose) && Survive(compressed, objects, s.loose) && Settled(compressed, cached, {})
    requires Ordered(cached, s) && Scope(compressed, cached, s) && root in compressed
    requires forall i :: 0 <= i < |compressed[root].slots| ==> compressed[root].slots[i] in cached
    requires Valid(objects, outside, s) && root in objects && FirstKept(was[root], compressed[root])
    ensures Sound(objects, s) && Closed(objects)
    ensures var after, trees := Readings(objects, s), s.trees;
      && Graph(objects, outside, after) && Shapes(was, objects, {root}) && SharedBelow(objects, root, after)
      && (forall x :: x in objects ==> x in trees && x in after && Canon(Contents(after[x])) == Canon(Contents(trees[x])))
      && (forall x :: Below(objects, root, x) ==> x in after && x in trees && CmpTree(after[x], trees[x]) == 0)
      && (CmpTree(after[root], trees[root]) == 0 <==> Stamp(after[root]) == Stamp(trees[root]))
      && (!was[root].rehash ==> Stamp(after[root]) == Stamp(trees[root]))
      && (Contents(after[root]) == Contents(trees[root]) <==> ToldApart(was, root, trees))
      && FirstKept(was[root], objects[root])
  {
    hide *;
    ValidParts(objects, outside, s);
    ReadingsKeys(objects, s);
    var after := Readings(objects, s);
    ReadingsAreExact(objects, s);
    GraphOf(was, outside, s);
    GraphIs(objects, outside, s, after);
    Released(was, compressed, objects, s.loose, root);
    CachedAtTheEnd(compressed, objects, cached, s, root);
    ScopeIsUnder(compressed, cached, s);
    forall x | x in objects ensures x in s.trees && Canon(Contents(after[x])) == Canon(Contents(s.trees[x])) {
      ReadingContents(objects, s, x);
    }
    CacheShares(objects, outside, cached, s, root);
    RootStamp(was, objects, outside, s, root);
    forall i | 0 <= i < |objects[root].slots| ensures Under(s, objects[root].slots[i]) {
      SlotIsCached(was, objects, cached, s, root, root, i);
    }
    RootZero(objects, outside, s, root);
    if ToldApart(was, root, s.trees) { ValueStays(was, objects, outside, cached, s, root, root); }
    if Contents(after[root]) == Contents(s.trees[root]) { StayingIsToldApart(was, objects, outside, cached, s, root); }
  }

  lemma GraphOf(objects: Objects, held: multiset<Ref>, s: Setting)
    requires Graph(objects, held, s.trees)
    ensures Exact(objects, s.trees) && Closed(objects)
  {
  }

  lemma GraphIs(objects: Objects, held: multiset<Ref>, s: Setting, trees: map<Ref, Tree>)
    requires Valid(objects, held, s) && Exact(objects, trees)
    ensures Graph(objects, held, trees)
  {
  }

  lemma ScopeIsUnder(objects: Objects, cache: seq<Ref>, s: Setting)
    requires Scope(objects, cache, s)
    ensures forall x :: x in s.below ==> Under(s, x)
  {
    hide Under;
  }

  lemma Released(was: Objects, compressed: Objects, after: Objects, loose: set<Ref>, root: Ref)
    requires Shapes(was, compressed, loose) && Survive(compressed, after, loose) && root in after && root in was && root in compressed
    requires FirstKept(was[root], compressed[root])
    ensures Shapes(was, after, loose) && FirstKept(was[root], after[root])
  {
    forall x | x in after ensures x in was && Kept(was[x], after[x], x in loose) {
      assert x in compressed && Kept(compressed[x], after[x], x in loose) && Kept(was[x], compressed[x], x in loose);
    }
    assert after[root].slots == compressed[root].slots;
  }

  // ---------------------------------------------------------------- facts by name

  lemma ReadyParts(heap: Heap, outside: multiset<Ref>, s: Setting)
    requires heap.Ready(outside, s)
    ensures Valid(heap.objects, outside + Twice(heap.cache), s) && Ordered(heap.cache, s)
    ensures Hashed(heap.objects, heap.cache) && Scope(heap.objects, heap.cache, s)
    ensures forall i :: 0 <= i < |heap.cache| ==> heap.cache[i] in s.trees
    ensures forall c :: c in heap.cache ==> c in heap.objects && c in s.trees && Under(s, c)
  {
    forall c | c in heap.cache ensures c in heap.objects && c in s.trees && Under(s, c) {
      assert c in outside + Twice(heap.cache);
      assert c in s.below;
    }
    hide CmpTree, SoundAt, Counted, Closed;
  }

  lemma ReadyWhole(heap: Heap, outside: multiset<Ref>, s: Setting)
    requires Valid(heap.objects, outside + Twice(heap.cache), s) && Ordered(heap.cache, s)
    requires Hashed(heap.objects, heap.cache) && Scope(heap.objects, heap.cache, s)
    ensures heap.Ready(outside, s)
  {
  }

  lemma SoundHere(heap: Heap, outside: multiset<Ref>, s: Setting, x: Ref)
    requires heap.Ready(outside, s) && x in heap.objects
    ensures heap.objects[x].shape.Leaf? ==> heap.objects[x].slots == []
  {
    assert SoundAt(heap.objects[x], x, s);
    hide CmpTree, Fold, Ordered, Scope, Hashed;
  }

  /** What is worked on is live. */
  lemma BusyIsLive(objects: Objects, cache: seq<Ref>, busy: set<Ref>, outside: multiset<Ref>, s: Setting, size: nat)
    requires Valid(objects, outside + Twice(cache), s) && Working(cache, busy, outside, s, size)
    ensures forall b :: b in busy ==> b in objects && b in s.trees
  {
    hide Sound, Closed, Counted;
  }

  lemma Replaced(was: Objects, referred: Objects, after: Objects, cache: seq<Ref>, busy: set<Ref>, s: Setting, p: Ref, i: nat, c: Ref)
    requires Survive(was, referred, s.loose) && referred.Keys == was.Keys && p in was && i < |was[p].slots|
    requires p in busy && p in after && i < |referred[p].slots| && c in cache
    requires Survive(referred[p := referred[p].(slots := referred[p].slots[i := c])], after, s.loose)
    requires Settled(was, cache, busy) && Hashed(was, cache) && Scope(was, cache, s)
    ensures Shapes(was, after, s.loose) && Untouched(was, after, busy - {p}) && Settled(after, cache, busy)
    ensures Hashed(after, cache) && Scope(after, cache, s)
    ensures after[p].slots == was[p].slots[i := c]
  {
    var changed := referred[p := referred[p].(slots := referred[p].slots[i := c])];
    forall x | x in after
      ensures x in was && Kept(was[x], after[x], x in s.loose)
      ensures after[x].slots == if x == p then was[p].slots[i := c] else was[x].slots
    {
      assert x in changed && Kept(changed[x], after[x], x in s.loose) && after[x].slots == changed[x].slots;
      assert x in referred && Kept(was[x], referred[x], x in s.loose) && referred[x].slots == was[x].slots;
    }
    hide Survive, Under;
  }

  lemma GrowsAlready(cache: seq<Ref>)
    ensures Grows(cache, cache)
  {
  }

  lemma GrowsOn(a: seq<Ref>, b: seq<Ref>, c: seq<Ref>)
    requires Grows(a, b) && Grows(b, c)
    ensures Grows(a, c)
  {
  }

  lemma CachedAlready(a: seq<Ref>, b: seq<Ref>, x: Ref)
    requires Grows(a, b) && x in a
    ensures x in b
  {
  }

  lemma NothingChanged(objects: Objects, busy: set<Ref>, loose: set<Ref>)
    ensures Shapes(objects, objects, loose) && Untouched(objects, objects, busy)
  {
  }

  lemma WorkingGrows(a: seq<Ref>, b: seq<Ref>, busy: set<Ref>, outside: multiset<Ref>, s: Setting, size: nat)
    requires Working(a, busy, outside, s, size) && Grows(a, b)
    ensures Working(b, busy, outside, s, size)
  {
  }

  lemma Inserted(was: Objects, objects: Objects, cache: seq<Ref>, k: nat, x: Ref, busy: set<Ref>,
                 outside: multiset<Ref>, s: Setting, size: nat)
    requires Survive(was, objects, s.loose) && objects.Keys == was.Keys && Settled(was, cache, busy) && k <= |cache|
    requires x in s.trees && TreeSize(s.trees[x]) < size && Working(cache, busy, outside, s, size)
    ensures var cache' := cache[..k] + [x] + cache[k..];
      && Grows(cache, cache') && x in cache' && Worked(cache', x, outside, s)
      && Working(cache', busy, outside, s, TreeSize(s.trees[x]) + 1) && Settled(objects, cache', busy + {x})
  {
    var cache' := cache[..k] + [x] + cache[k..];
    assert cache == cache[..k] + cache[k..];
    WorkingGrows(cache, cache', busy, outside, s, size);
    forall c | c in objects ensures c in was && objects[c].slots == was[c].slots {
      SurviveAt(was, objects, s.loose, c);
    }
    hide TreeSize;
  }

  lemma AllSettled(objects: Objects, cache: seq<Ref>, busy: set<Ref>, x: Ref)
    requires Settled(objects, cache, busy + {x}) && x in objects
    requires forall i :: 0 <= i < |objects[x].slots| ==> objects[x].slots[i] in cache
    ensures Settled(objects, cache, busy)
  {
  }

  lemma SlotFacts(objects: Objects, cache: seq<Ref>, outside: multiset<Ref>, busy: set<Ref>, s: Setting, p: Ref, i: nat)
    requires Valid(objects, outside + Twice(cache), s) && Hashed(objects, cache) && Scope(objects, cache, s)
    requires p in s.trees && p in busy && Working(cache, busy, outside, s, TreeSize(s.trees[p]))
    requires p in objects && i < |objects[p].slots|
    ensures var x := objects[p].slots[i];
      x in objects && x in s.trees && x in s.below && Under(s, x) && TreeSize(s.trees[x]) < TreeSize(s.trees[p])
    ensures p in s.loose || !objects[p].rehash
    ensures forall c :: c in cache ==> c in objects && c in s.trees
  {
    assert SoundAt(objects[p], p, s);
    SlotIsSmaller(objects[p], p, s, i);
    assert Worked(cache, p, outside, s);
    forall c | c in cache ensures c in objects && c in s.trees {
      assert c in outside + Twice(cache);
      assert SoundAt(objects[c], c, s);
    }
    hide SoundAt, TreeSize, Counted;
  }

  lemma StampIs(t: Tree)
    ensures Stamp(t) == if t.Scalar? then Hash(t.data) else t.stamp
  {
  }

  lemma CmpIs(a: Tree, b: Tree)
    ensures Code(a) != Code(b) ==> CmpTree(a, b) == CmpInt(Code(a), Code(b))
    ensures Code(a) == Code(b) ==> (a.Scalar? <==> b.Scalar?)
    ensures Code(a) == Code(b) && a.Scalar? ==> TypeCode(a.data) == TypeCode(b.data) && CmpTree(a, b) == CmpScalar(a.data, b.data)
    ensures Code(a) == Code(b) && a.Node? ==>
      CmpTree(a, b) == if |a.parts| != |b.parts| then CmpInt(|a.parts|, |b.parts|)
                       else if a.stamp != b.stamp then CmpInt(a.stamp, b.stamp) else CmpParts(a.parts, b.parts)
  {
    hide CmpScalar, CmpParts;
  }

  /** iot_data_map_hash */
  lemma MixPair(h: nat, key: nat, value: nat)
    ensures Xor(h, HashPair(key, value)) == if value != key then Xor(Xor(h, key), value) else Xor(h, key)
  {
    XorAssociates(h, key, value);
    hide Xor;
  }

  lemma HeldIsLive(objects: Objects, held: multiset<Ref>, s: Setting, r: Ref)
    requires Valid(objects, held, s) && r in held
    ensures r in objects && SoundAt(objects[r], r, s) && r in s.trees && WellShaped(objects[r]) && Known(objects[r].slots, s.trees)
    ensures objects[r].constant || objects[r].refs > 0
  {
    assert SoundAt(objects[r], r, s);
    hide CmpTree, Fold, Hash;
  }

  // ---------------------------------------------------------------- two empty arrays in a vector

  /** An empty array that was given a buffer, and one that was not. */
  const BUFFERED: Simple := Array(true, 0, 1, [], true)
  const BARE: Simple := Array(true, 0, 1, [], false)

  /** A vector of the two as it is made. Its hash is up to date, or out of date after a change of the vector. */
  function TwoArrays(pending: bool): Objects {
    map[0 := Object(Leaf(BUFFERED), [], 1, false, SEED, false),
        1 := Object(Leaf(BARE), [], 1, false, 0, false),
        2 := Object(Composite(VectorKind), [0, 1], 1, false, SEED, pending)]
  }

  function TwoTrees(): map<Ref, Tree> {
    map[0 := Scalar(BUFFERED), 1 := Scalar(BARE), 2 := Node(VectorKind, SEED, [Scalar(BUFFERED), Scalar(BARE)])]
  }

  lemma ArrayHashes()
    ensures Hash(BUFFERED) == SEED && Hash(BARE) == 0 && CmpTree(Scalar(BUFFERED), Scalar(BARE)) == 0
    ensures FoldAll([SEED, 0]) == SEED && FoldAll([SEED, SEED]) == 0 && HashSeq([BUFFERED, BUFFERED]) == 0
  {
    assert HashBytes([], SEED) == SEED && CmpBytes([], []) == 0;
    assert [SEED, 0][1..] == [0] && [SEED, SEED][1..] == [SEED] && [BUFFERED, BUFFERED][1..] == [BUFFERED];
    assert FoldAll([0]) == Xor(0, FoldAll([])) && FoldAll([SEED]) == Xor(SEED, FoldAll([]));
    assert HashSeq([BUFFERED]) == Xor(SEED, HashSeq([]));
    XorSame(SEED);
    hide CmpTree;
  }

  lemma {:induction false} XorSame(n: nat)
    ensures Xor(n, n) == 0
  {
    if n > 0 { XorSame(n / 2); }
  }

  lemma TwoArraysAreGraph(pending: bool)
    ensures Graph(TwoArrays(pending), multiset{2}, TwoTrees())
  {
    var objects, trees := TwoArrays(pending), TwoTrees();
    ArrayHashes();
    hide Hash, FoldAll, Xor, CmpTree;
    assert StampsOf([0, 1], trees) == [SEED, 0];
    assert PartsOf([0, 1], trees) == [Scalar(BUFFERED), Scalar(BARE)];
    assert ExactAt(objects[0], 0, trees) && ExactAt(objects[1], 1, trees) && ExactAt(objects[2], 2, trees);
    assert Places(objects, 0) == {(2, 0)} && Places(objects, 1) == {(2, 1)} && Places(objects, 2) == {};
  }

  /** Compressing the vector leaves it with the first array twice. A hash that was up to date stays: the vector still
      equals what it was, though its hash is not that of its value any more. A hash that was out of date is another. */
  method MergeTwoArrays(pending: bool) returns (heap: Heap, ghost after: map<Ref, Tree>)
    ensures fresh(heap) && 2 in heap.objects && Graph(heap.objects, multiset{2}, after) && 2 in after && 2 in TwoTrees()
    ensures heap.objects[2].slots == [0, 0] && heap.objects[2].hash == SEED
    ensures Contents(after[2]) == Vector([BUFFERED, BUFFERED]) && Hash(Contents(after[2])) == 0
    ensures Stamp(after[2]) == if pending then 0 else SEED
    ensures EqualTrees(after[2], TwoTrees()[2]) <==> !pending
  {
    hide *;
    heap := new Heap(TwoArrays(pending));
    TwoArraysAreGraph(pending);
    after := heap.Compress(2, multiset{2}, TwoTrees());
    TwoMerged(pending, heap.objects, after);
  }

  lemma TwoMerged(pending: bool, objects: Objects, after: map<Ref, Tree>)
    requires Graph(objects, multiset{2}, after) && 2 in objects && Shapes(TwoArrays(pending), objects, {2})
    requires SharedBelow(objects, 2, after) && FirstKept(TwoArrays(pending)[2], objects[2])
    requires 2 in after && 2 in TwoTrees()
    requires CmpTree(after[2], TwoTrees()[2]) == 0 <==> Stamp(after[2]) == Stamp(TwoTrees()[2])
    ensures objects[2].slots == [0, 0] && objects[2].hash == SEED
    ensures Contents(after[2]) == Vector([BUFFERED, BUFFERED]) && Hash(Contents(after[2])) == 0
    ensures Stamp(after[2]) == if pending then 0 else SEED
    ensures EqualTrees(after[2], TwoTrees()[2]) <==> !pending
  {
    hide *;
    GraphParts(objects, multiset{2}, after);
    TwoSlots(pending, objects);
    var c := objects[2].slots[1];
    SlotIsExact(objects, after, 2, 0);
    SlotIsExact(objects, after, 2, 1);
    ArrayAt(pending, objects, after, 0);
    ArrayAt(pending, objects, after, c);
    SlotsAreBelow(objects, 2, 2, 0);
    SlotsAreBelow(objects, 2, 2, 1);
    SharedAt(objects, 2, after, 0, c, Scalar(BUFFERED));
    assert objects[2].slots == [0, 0];
    TwoTreesAfter(pending, objects, after);
  }

  lemma GraphParts(objects: Objects, held: multiset<Ref>, trees: map<Ref, Tree>)
    requires Graph(objects, held, trees)
    ensures Exact(objects, trees) && Closed(objects)
  {
  }

  lemma TwoSlots(pending: bool, objects: Objects)
    requires 2 in objects && Shapes(TwoArrays(pending), objects, {2}) && FirstKept(TwoArrays(pending)[2], objects[2])
    ensures |objects[2].slots| == 2 && objects[2].slots[0] == 0
    ensures objects[2].shape == Composite(VectorKind) && objects[2].hash == SEED && objects[2].rehash == pending
  {
    assert Kept(TwoArrays(pending)[2], objects[2], true);
  }

  lemma ArrayAt(pending: bool, objects: Objects, after: map<Ref, Tree>, c: Ref)
    requires Exact(objects, after) && Closed(objects) && Shapes(TwoArrays(pending), objects, {2}) && c in objects
    requires 2 in objects && 2 in after && c in after && TreeSize(after[c]) < TreeSize(after[2])
    ensures c in after && (c == 0 || c == 1) && after[c] == Scalar(if c == 0 then BUFFERED else BARE)
    ensures CmpTree(after[c], Scalar(BUFFERED)) == 0
  {
    assert ExactAt(objects[c], c, after);
    assert c in TwoArrays(pending) && objects[c].shape == TwoArrays(pending)[c].shape;
    ArrayHashes();
    TreeSelf(Scalar(BUFFERED));
    Interchange(Scalar(BUFFERED), Scalar(BARE), Scalar(BUFFERED));
    hide CmpTree, Hash, Fold, TreeSize;
  }

  lemma SharedAt(objects: Objects, root: Ref, after: map<Ref, Tree>, x: Ref, y: Ref, t: Tree)
    requires SharedBelow(objects, root, after) && Below(objects, root, x) && Below(objects, root, y) && x in after && y in after
    requires CmpTree(after[x], t) == 0 && CmpTree(after[y], t) == 0
    ensures x == y
  {
    hide Below, CmpTree;
    Interchange(after[x], t, after[y]);
    Interchange(after[y], t, t);
  }

  lemma TwoTreesAfter(pending: bool, objects: Objects, after: map<Ref, Tree>)
    requires Exact(objects, after) && 2 in objects && 2 in after && 2 in TwoTrees() && 0 in after && after[0] == Scalar(BUFFERED)
    requires objects[2].slots == [0, 0] && objects[2].shape == Composite(VectorKind)
    requires objects[2].hash == SEED && objects[2].rehash == pending
    requires CmpTree(after[2], TwoTrees()[2]) == 0 <==> Stamp(after[2]) == Stamp(TwoTrees()[2])
    ensures Contents(after[2]) == Vector([BUFFERED, BUFFERED]) && Hash(Contents(after[2])) == 0
    ensures Stamp(after[2]) == if pending then 0 else SEED
    ensures EqualTrees(after[2], TwoTrees()[2]) <==> !pending
  {
    assert ExactAt(objects[2], 2, after);
    ArrayHashes();
    hide Xor, CmpTree, FoldAll, HashSeq, TreeSize, HashBytes;
    assert StampsOf([0, 0], after) == [SEED, SEED];
    assert PartsOf([0, 0], after) == [Scalar(BUFFERED), Scalar(BUFFERED)];
    assert [Scalar(BUFFERED), Scalar(BUFFERED)][1..] == [Scalar(BUFFERED)];
    assert ContentsOf([Scalar(BUFFERED)]) == [BUFFERED];
    assert Contents(after[2]) == Vector([BUFFERED, BUFFERED]);
  }
}
