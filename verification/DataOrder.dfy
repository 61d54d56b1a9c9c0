// The value model of iot_data_t without floats, its hash, and the order iot_data_cmp defines on it.
module DataOrder {
  import opened Bytes

  // ---------------------------------------------------------------- values

  datatype IntType = Int8 | UInt8 | Int16 | UInt16 | Int32 | UInt32 | Int64 | UInt64

  /** A data value as a caller sees it. `Missing` is the NULL pointer (an unset vector slot).
      `Array` carries what the comparison reads: element count, element type code and raw memory.
      `supplied` records whether the allocator was given a non-NULL buffer, which the hash of an
      empty array depends on. `Map` lists its entries in iteration order. */
  datatype Data =
    | Missing
    | Int(kind: IntType, value: int)
    | Bool(truth: bool)
    | Pointer(address: nat)
    | Str(chars: seq<Byte>)
    | Null
    | Array(binary: bool, length: nat, element: nat, bytes: seq<Byte>, supplied: bool)
    | Vector(slots: seq<Data>)
    | List(elements: seq<Data>)
    | Map(entries: seq<Entry>)

  datatype Entry = Entry(key: Data, value: Data)

  /** Position of a type in the type enumeration; the NULL pointer comes before every value. */
  function TypeCode(d: Data): int {
    match d
    case Missing => -1
    case Int(Int8, _) => 0
    case Int(UInt8, _) => 1
    case Int(Int16, _) => 2
    case Int(UInt16, _) => 3
    case Int(Int32, _) => 4
    case Int(UInt32, _) => 5
    case Int(Int64, _) => 6
    case Int(UInt64, _) => 7
    case Bool(_) => 10
    case Pointer(_) => 11
    case Str(_) => 12
    case Null => 13
    case Array(binary, _, _, _, _) => if binary then 14 else 15
    case Vector(_) => 16
    case List(_) => 17
    case Map(_) => 18
  }

  predicate Composed(d: Data) {
    d.Vector? || d.List? || d.Map?
  }

  /** The slots of a vector that nothing was put into. */
  function Unset(n: nat): seq<Data> {
    if n == 0 then [] else [Missing] + Unset(n - 1)
  }

  lemma {:induction false} UnsetAt(n: nat)
    ensures |Unset(n)| == n && forall i :: 0 <= i < n ==> Unset(n)[i] == Missing
  {
    if n > 0 { UnsetAt(n - 1); }
  }

  // ---------------------------------------------------------------- hash

  const SEED: nat := 538
  const WORD: nat := 0x1_0000_0000

  /** Bitwise exclusive or. */
  function Xor(a: nat, b: nat): nat
    decreases a + b
  {
    if a == 0 then b
    else if b == 0 then a
    else 2 * Xor(a / 2, b / 2) + (if a % 2 != b % 2 then 1 else 0)
  }

  /** Bernstein's djb2 hash, version 2, on unsigned 32-bit words. */
  function HashBytes(bytes: seq<Byte>, hash: nat): nat {
    if bytes == [] then hash
    else HashBytes(bytes[1..], Xor((hash * 33) % WORD, bytes[0]))
  }

  /** What a map entry contributes: equal key and value hashes would cancel, so only one is applied. */
  function HashPair(key: nat, value: nat): nat {
    if value != key then Xor(key, value) else key
  }

  function Hash(d: Data): nat
    decreases d, 1
  {
    match d
    case Missing => 0
    case Int(_, value) => value % WORD
    case Bool(_) => 0
    case Pointer(address) => address % WORD
    case Str(chars) => HashBytes(chars, SEED)
    case Null => 0
    case Array(_, _, _, bytes, supplied) => if supplied then HashBytes(bytes, SEED) else 0
    case Vector(slots) => HashSeq(slots)
    case List(elements) => HashSeq(elements)
    case Map(entries) => HashEntries(entries)
  }

  function HashSeq(ds: seq<Data>): nat
    decreases ds, 0
  {
    if ds == [] then 0 else Xor(Hash(ds[0]), HashSeq(ds[1..]))
  }

  function HashEntries(es: seq<Entry>): nat
    decreases es, 0
  {
    if es == [] then 0 else Xor(HashEntry(es[0]), HashEntries(es[1..]))
  }

  function HashEntry(e: Entry): nat
    decreases e, 1
  {
    HashPair(Hash(e.key), Hash(e.value))
  }

  // ---------------------------------------------------------------- comparison

  function CmpInt(a: int, b: int): int {
    if a == b then 0 else if a < b then -1 else 1
  }

  /** strcmp on NUL-free strings, and memcmp on blocks of equal length: unsigned bytes, left to right. */
  function CmpBytes(a: seq<Byte>, b: seq<Byte>): int {
    if a == [] || b == [] then CmpInt(|a|, |b|)
    else if a[0] != b[0] then (if a[0] < b[0] then -1 else 1)
    else CmpBytes(a[1..], b[1..])
  }

  /** What is compared before the contents of a container: element counts, then hashes. */
  function CmpHead(n: nat, h: nat, m: nat, g: nat): (r: int)
    ensures r == 0 <==> n == m && h == g
  {
    if n != m then CmpInt(n, m) else CmpInt(h, g)
  }

  /** The cases that look at stored values only. */
  function CmpScalar(a: Data, b: Data): int
    requires TypeCode(a) == TypeCode(b) && !Composed(a)
  {
    match a
    case Missing => 0
    case Int(_, value) => CmpInt(value, b.value)
    case Bool(truth) => if truth == b.truth then 0 else if truth then 1 else -1
    case Pointer(address) => CmpInt(address, b.address)
    case Str(chars) => CmpBytes(chars, b.chars)
    case Null => 0
    case Array(_, length, element, bytes, _) =>
      if length != b.length then CmpInt(length, b.length)
      else if element != b.element then CmpInt(element, b.element)
      else CmpBytes(bytes, b.bytes)
  }

  /** iot_data_cmp (v1, v2, false), as a sign. */
  function Cmp(a: Data, b: Data): int
    decreases a, 1
  {
    if TypeCode(a) != TypeCode(b) then CmpInt(TypeCode(a), TypeCode(b))
    else if a.Vector? then
      var head := CmpHead(|a.slots|, Hash(a), |b.slots|, Hash(b));
      if head != 0 then head else CmpSeq(a.slots, b.slots)
    else if a.List? then
      var head := CmpHead(|a.elements|, Hash(a), |b.elements|, Hash(b));
      if head != 0 then head else CmpSeq(a.elements, b.elements)
    else if a.Map? then
      var head := CmpHead(|a.entries|, Hash(a), |b.entries|, Hash(b));
      if head != 0 then head else CmpEntries(a.entries, b.entries)
    else CmpScalar(a, b)
  }

  /** The element loop: stops at the first difference. Both sides have the same length. */
  function CmpSeq(xs: seq<Data>, ys: seq<Data>): int
    requires |xs| == |ys|
    decreases xs, 0
  {
    if xs == [] then 0
    else if Cmp(xs[0], ys[0]) != 0 then Cmp(xs[0], ys[0])
    else CmpSeq(xs[1..], ys[1..])
  }

  /** The map loop. */
  function CmpEntries(xs: seq<Entry>, ys: seq<Entry>): int
    requires |xs| == |ys|
    decreases xs, 0
  {
    if xs == [] then 0
    else if CmpEntry(xs[0], ys[0]) != 0 then CmpEntry(xs[0], ys[0])
    else CmpEntries(xs[1..], ys[1..])
  }

  /** Key first, then value. */
  function CmpEntry(x: Entry, y: Entry): int
    decreases x, 1
  {
    if Cmp(x.key, y.key) != 0 then Cmp(x.key, y.key) else Cmp(x.value, y.value)
  }

  /** iot_data_equal: hashes first, then the comparison. */
  predicate Equal(a: Data, b: Data) {
    Hash(a) == Hash(b) && Cmp(a, b) == 0
  }

  // ---------------------------------------------------------------- a total order

  /** p, q and r are the signs of (a,b), (b,c) and (a,c) under one transitive order. */
  predicate Chained(p: int, q: int, r: int) {
    p <= 0 && q <= 0 ==> r <= 0 && (r == 0 <==> p == 0 && q == 0)
  }

  predicate Sign(r: int) { r == -1 || r == 0 || r == 1 }

  lemma {:induction false} CmpBytesReverse(a: seq<Byte>, b: seq<Byte>)
    ensures Sign(CmpBytes(a, b)) && CmpBytes(b, a) == -CmpBytes(a, b)
    ensures CmpBytes(a, b) == 0 <==> a == b
  {
    if a != [] && b != [] {
      CmpBytesReverse(a[1..], b[1..]);
      assert a == [a[0]] + a[1..] && b == [b[0]] + b[1..];
    }
  }

  lemma {:induction false} CmpBytesChain(a: seq<Byte>, b: seq<Byte>, c: seq<Byte>)
    ensures Chained(CmpBytes(a, b), CmpBytes(b, c), CmpBytes(a, c))
  {
    if a != [] && b != [] && c != [] {
      CmpBytesChain(a[1..], b[1..], c[1..]);
    }
  }

  lemma CmpScalarReverse(a: Data, b: Data)
    requires TypeCode(a) == TypeCode(b) && !Composed(a)
    ensures Sign(CmpScalar(a, b)) && CmpScalar(b, a) == -CmpScalar(a, b)
  {
    if a.Str? { CmpBytesReverse(a.chars, b.chars); }
    if a.Array? { CmpBytesReverse(a.bytes, b.bytes); }
  }

  lemma CmpScalarChain(a: Data, b: Data, c: Data)
    requires TypeCode(a) == TypeCode(b) == TypeCode(c) && !Composed(a)
    ensures Chained(CmpScalar(a, b), CmpScalar(b, c), CmpScalar(a, c))
  {
    if a.Str? { CmpBytesChain(a.chars, b.chars, c.chars); }
    if a.Array? { CmpBytesChain(a.bytes, b.bytes, c.bytes); }
  }

  /** Swapping the arguments flips the sign: the comparison is total and antisymmetric. */
  lemma {:induction false} CmpReverse(a: Data, b: Data)
    ensures Sign(Cmp(a, b)) && Cmp(b, a) == -Cmp(a, b)
    decreases a, 1
  {
    if TypeCode(a) == TypeCode(b) {
      if a.Vector? {
        if |a.slots| == |b.slots| { CmpSeqReverse(a.slots, b.slots); }
      } else if a.List? {
        if |a.elements| == |b.elements| { CmpSeqReverse(a.elements, b.elements); }
      } else if a.Map? {
        if |a.entries| == |b.entries| { CmpEntriesReverse(a.entries, b.entries); }
      } else {
        CmpScalarReverse(a, b);
      }
    }
  }

  lemma {:induction false} CmpSeqReverse(xs: seq<Data>, ys: seq<Data>)
    requires |xs| == |ys|
    ensures Sign(CmpSeq(xs, ys)) && CmpSeq(ys, xs) == -CmpSeq(xs, ys)
    decreases xs, 0
  {
    if xs != [] {
      CmpReverse(xs[0], ys[0]);
      CmpSeqReverse(xs[1..], ys[1..]);
    }
  }

  lemma {:induction false} CmpEntriesReverse(xs: seq<Entry>, ys: seq<Entry>)
    requires |xs| == |ys|
    ensures Sign(CmpEntries(xs, ys)) && CmpEntries(ys, xs) == -CmpEntries(xs, ys)
    decreases xs, 0
  {
    if xs != [] {
      CmpEntryReverse(xs[0], ys[0]);
      CmpEntriesReverse(xs[1..], ys[1..]);
    }
  }

  lemma {:induction false} CmpEntryReverse(x: Entry, y: Entry)
    ensures Sign(CmpEntry(x, y)) && CmpEntry(y, x) == -CmpEntry(x, y)
    decreases x, 1
  {
    CmpReverse(x.key, y.key);
    CmpReverse(x.value, y.value);
  }

  /** Transitivity, with strictness: the result is zero only when both steps are. */
  lemma {:induction false} CmpChain(a: Data, b: Data, c: Data)
    ensures Chained(Cmp(a, b), Cmp(b, c), Cmp(a, c))
    decreases a, 1
  {
    if TypeCode(a) == TypeCode(b) == TypeCode(c) {
      if a.Vector? {
        if |a.slots| == |b.slots| == |c.slots| { CmpSeqChain(a.slots, b.slots, c.slots); }
      } else if a.List? {
        if |a.elements| == |b.elements| == |c.elements| { CmpSeqChain(a.elements, b.elements, c.elements); }
      } else if a.Map? {
        if |a.entries| == |b.entries| == |c.entries| { CmpEntriesChain(a.entries, b.entries, c.entries); }
      } else {
        CmpScalarChain(a, b, c);
      }
    }
  }

  lemma {:induction false} CmpSeqChain(xs: seq<Data>, ys: seq<Data>, zs: seq<Data>)
    requires |xs| == |ys| == |zs|
    ensures Chained(CmpSeq(xs, ys), CmpSeq(ys, zs), CmpSeq(xs, zs))
    decreases xs, 0
  {
    if xs != [] {
      CmpChain(xs[0], ys[0], zs[0]);
      CmpSeqChain(xs[1..], ys[1..], zs[1..]);
    }
  }

  lemma {:induction false} CmpEntriesChain(xs: seq<Entry>, ys: seq<Entry>, zs: seq<Entry>)
    requires |xs| == |ys| == |zs|
    ensures Chained(CmpEntries(xs, ys), CmpEntries(ys, zs), CmpEntries(xs, zs))
    decreases xs, 0
  {
    if xs != [] {
      CmpEntryChain(xs[0], ys[0], zs[0]);
      CmpEntriesChain(xs[1..], ys[1..], zs[1..]);
    }
  }

  lemma {:induction false} CmpEntryChain(x: Entry, y: Entry, z: Entry)
    ensures Chained(CmpEntry(x, y), CmpEntry(y, z), CmpEntry(x, z))
    decreases x, 1
  {
    CmpChain(x.key, y.key, z.key);
    CmpChain(x.value, y.value, z.value);
  }

  // ---------------------------------------------------------------- equality

  /** The value with every empty array recorded as allocated without a buffer. Two values are
      structurally equal when their canonical forms are the same. */
  function Canon(d: Data): Data
    decreases d, 1
  {
    match d
    case Array(_, _, _, bytes, _) => d.(supplied := bytes != [])
    case Vector(slots) => Vector(CanonSeq(slots))
    case List(elements) => List(CanonSeq(elements))
    case Map(entries) => Map(CanonEntries(entries))
    case _ => d
  }

  function CanonSeq(ds: seq<Data>): (r: seq<Data>)
    decreases ds, 0
  {
    if ds == [] then [] else [Canon(ds[0])] + CanonSeq(ds[1..])
  }

  function CanonEntries(es: seq<Entry>): (r: seq<Entry>)
    decreases es, 0
  {
    if es == [] then [] else [CanonEntry(es[0])] + CanonEntries(es[1..])
  }

  function CanonEntry(e: Entry): Entry
    decreases e, 1
  {
    Entry(Canon(e.key), Canon(e.value))
  }

  /** No empty array in the value was given a buffer at allocation. */
  predicate Plain(d: Data) {
    Canon(d) == d
  }

  /** A zero result always means structural equality. */
  lemma {:induction false} CmpZeroIsSame(a: Data, b: Data)
    requires Cmp(a, b) == 0
    ensures Canon(a) == Canon(b)
    decreases a, 1
  {
    match a
    case Str(chars) => CmpBytesReverse(chars, b.chars);
    case Array(_, _, _, bytes, _) => CmpBytesReverse(bytes, b.bytes);
    case Vector(slots) => CmpSeqZeroIsSame(slots, b.slots);
    case List(elements) => CmpSeqZeroIsSame(elements, b.elements);
    case Map(entries) => CmpEntriesZeroIsSame(entries, b.entries);
    case _ =>
  }

  lemma {:induction false} CmpSeqZeroIsSame(xs: seq<Data>, ys: seq<Data>)
    requires |xs| == |ys| && CmpSeq(xs, ys) == 0
    ensures CanonSeq(xs) == CanonSeq(ys)
    decreases xs, 0
  {
    if xs != [] {
      CmpZeroIsSame(xs[0], ys[0]);
      CmpSeqZeroIsSame(xs[1..], ys[1..]);
    }
  }

  lemma {:induction false} CmpEntriesZeroIsSame(xs: seq<Entry>, ys: seq<Entry>)
    requires |xs| == |ys| && CmpEntries(xs, ys) == 0
    ensures CanonEntries(xs) == CanonEntries(ys)
    decreases xs, 0
  {
    if xs != [] {
      CmpEntryZeroIsSame(xs[0], ys[0]);
      CmpEntriesZeroIsSame(xs[1..], ys[1..]);
    }
  }

  lemma {:induction false} CmpEntryZeroIsSame(x: Entry, y: Entry)
    requires CmpEntry(x, y) == 0
    ensures CanonEntry(x) == CanonEntry(y)
    decreases x, 1
  {
    CmpZeroIsSame(x.key, y.key);
    CmpZeroIsSame(x.value, y.value);
  }

  lemma CmpSelf(a: Data)
    ensures Cmp(a, a) == 0
  {
    CmpReverse(a, a);
  }

  /** On plain data the comparison and the equality test both decide structural equality. */
  lemma EqualIsStructural(a: Data, b: Data)
    requires Plain(a) && Plain(b)
    ensures Cmp(a, b) == 0 <==> a == b
    ensures Equal(a, b) <==> a == b
  {
    CmpSelf(a);
    if Cmp(a, b) == 0 { CmpZeroIsSame(a, b); }
  }

  // ---------------------------------------------------------------- equality of any two values

  /** The hashes of all containers in the value, outermost first, left to right. */
  function Hashes(d: Data): seq<nat>
    decreases d, 1
  {
    match d
    case Vector(slots) => [Hash(d)] + HashesSeq(slots)
    case List(elements) => [Hash(d)] + HashesSeq(elements)
    case Map(entries) => [Hash(d)] + HashesEntries(entries)
    case _ => []
  }

  function HashesSeq(ds: seq<Data>): seq<nat>
    decreases ds, 0
  {
    if ds == [] then [] else Hashes(ds[0]) + HashesSeq(ds[1..])
  }

  function HashesEntries(es: seq<Entry>): seq<nat>
    decreases es, 0
  {
    if es == [] then [] else HashesEntry(es[0]) + HashesEntries(es[1..])
  }

  function HashesEntry(e: Entry): seq<nat>
    decreases e, 1
  {
    Hashes(e.key) + Hashes(e.value)
  }

  lemma SplitEqual(a: seq<nat>, b: seq<nat>, c: seq<nat>, d: seq<nat>)
    requires |a| == |c|
    ensures a + b == c + d <==> a == c && b == d
  {
    if a + b == c + d {
      assert a == (a + b)[..|a|] && b == (a + b)[|a|..] && c == (c + d)[..|a|] && d == (c + d)[|a|..];
    }
  }

  /** Values of equal contents have their containers at the same places, and compare as equal if and only if all the
      hashes agree. */
  lemma {:induction false} CmpByHashes(a: Data, b: Data)
    requires Canon(a) == Canon(b)
    ensures |Hashes(a)| == |Hashes(b)|
    ensures Cmp(a, b) == 0 <==> Hashes(a) == Hashes(b)
    decreases a, 1
  {
    match a
    case Vector(slots) =>
      CmpSeqByHashes(slots, b.slots);
      SplitEqual([Hash(a)], HashesSeq(slots), [Hash(b)], HashesSeq(b.slots));
    case List(elements) =>
      CmpSeqByHashes(elements, b.elements);
      SplitEqual([Hash(a)], HashesSeq(elements), [Hash(b)], HashesSeq(b.elements));
    case Map(entries) =>
      CmpEntriesByHashes(entries, b.entries);
      SplitEqual([Hash(a)], HashesEntries(entries), [Hash(b)], HashesEntries(b.entries));
    case Str(chars) => CmpBytesReverse(chars, b.chars);
    case Array(_, _, _, bytes, _) => CmpBytesReverse(bytes, b.bytes);
    case _ =>
  }

  lemma {:induction false} CmpSeqByHashes(xs: seq<Data>, ys: seq<Data>)
    requires CanonSeq(xs) == CanonSeq(ys)
    ensures |xs| == |ys| && |HashesSeq(xs)| == |HashesSeq(ys)|
    ensures CmpSeq(xs, ys) == 0 <==> HashesSeq(xs) == HashesSeq(ys)
    decreases xs, 0
  {
    if xs != [] {
      CanonSeqParts(xs, ys);
      CmpByHashes(xs[0], ys[0]);
      CmpSeqByHashes(xs[1..], ys[1..]);
      SplitEqual(Hashes(xs[0]), HashesSeq(xs[1..]), Hashes(ys[0]), HashesSeq(ys[1..]));
    }
  }

  lemma CanonSeqParts(xs: seq<Data>, ys: seq<Data>)
    requires CanonSeq(xs) == CanonSeq(ys) && xs != []
    ensures ys != [] && Canon(xs[0]) == Canon(ys[0]) && CanonSeq(xs[1..]) == CanonSeq(ys[1..])
  {
    hide Canon;
    assert CanonSeq(xs)[0] == CanonSeq(ys)[0] && CanonSeq(xs)[1..] == CanonSeq(ys)[1..];
  }

  lemma {:induction false} CmpEntriesByHashes(xs: seq<Entry>, ys: seq<Entry>)
    requires CanonEntries(xs) == CanonEntries(ys)
    ensures |xs| == |ys| && |HashesEntries(xs)| == |HashesEntries(ys)|
    ensures CmpEntries(xs, ys) == 0 <==> HashesEntries(xs) == HashesEntries(ys)
    decreases xs, 0
  {
    if xs != [] {
      CanonEntriesParts(xs, ys);
      CmpEntryByHashes(xs[0], ys[0]);
      CmpEntriesByHashes(xs[1..], ys[1..]);
      SplitEqual(HashesEntry(xs[0]), HashesEntries(xs[1..]), HashesEntry(ys[0]), HashesEntries(ys[1..]));
    }
  }

  lemma CanonEntriesParts(xs: seq<Entry>, ys: seq<Entry>)
    requires CanonEntries(xs) == CanonEntries(ys) && xs != []
    ensures ys != [] && CanonEntry(xs[0]) == CanonEntry(ys[0]) && CanonEntries(xs[1..]) == CanonEntries(ys[1..])
  {
    hide CanonEntry;
    assert CanonEntries(xs)[0] == CanonEntries(ys)[0] && CanonEntries(xs)[1..] == CanonEntries(ys)[1..];
  }

  lemma {:induction false} CmpEntryByHashes(x: Entry, y: Entry)
    requires CanonEntry(x) == CanonEntry(y)
    ensures |HashesEntry(x)| == |HashesEntry(y)|
    ensures CmpEntry(x, y) == 0 <==> HashesEntry(x) == HashesEntry(y)
    decreases x, 1
  {
    CmpByHashes(x.key, y.key);
    CmpByHashes(x.value, y.value);
    SplitEqual(Hashes(x.key), Hashes(x.value), Hashes(y.key), Hashes(y.value));
  }

  /** Any two values: the equality test holds exactly if their contents are the same, their hashes are, and the hashes
      of the containers inside are, one by one. */
  lemma EqualByHashes(a: Data, b: Data)
    ensures Equal(a, b) <==> Canon(a) == Canon(b) && Hash(a) == Hash(b) && Hashes(a) == Hashes(b)
  {
    if Cmp(a, b) == 0 { CmpZeroIsSame(a, b); }
    if Canon(a) == Canon(b) { CmpByHashes(a, b); }
  }

  /** For two arrays the equality test is structural exactly when the arrays are not empty or were
      allocated alike; the comparison alone does not see the difference. */
  lemma EqualArrays(a: Data, b: Data)
    requires a.Array? && b.Array? && Canon(a) == Canon(b)
    requires a.bytes != [] ==> a.supplied && b.supplied
    ensures Cmp(a, b) == 0
    ensures Equal(a, b) <==> a.bytes != [] || a.supplied == b.supplied
  {
    CmpBytesReverse(a.bytes, b.bytes);
  }

  /** An empty array with a buffer and one without: equal content, unequal data, and a vector
      holding one differs even for the comparison from a vector holding the other. */
  lemma EmptyArraysDiffer()
    ensures var a, b := Array(true, 0, 1, [], true), Array(true, 0, 1, [], false);
            Canon(a) == Canon(b) && !Equal(a, b)
            && Canon(Vector([a])) == Canon(Vector([b])) && Cmp(Vector([a]), Vector([b])) != 0
  {
    var a, b := Array(true, 0, 1, [], true), Array(true, 0, 1, [], false);
    assert CanonSeq([a]) == [Canon(a)] + CanonSeq([]) && CanonSeq([b]) == [Canon(b)] + CanonSeq([]);
    assert HashSeq([a]) == Xor(Hash(a), HashSeq([])) && HashSeq([b]) == Xor(Hash(b), HashSeq([]));
  }
}
