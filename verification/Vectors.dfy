// The vector of src/c/data.c and its cached hash.
module Vectors {
  // An array of slots, some of them unset, with an XOR hash that is kept up while slots are filled and recomputed when a
  // flag says so.

  import opened DataOrder
  import opened HashFolds
  import opened Sequences

  /** An unset slot adds nothing to the hash. */
  lemma HashSeqFill(values: seq<Data>, k: nat, v: Data)
    requires k < |values| && values[k] == Missing
    ensures HashSeq(values[k := v]) == Xor(HashSeq(values), Hash(v))
  {
    var l, r := values[..k], values[k + 1..];
    HashSeqInsert(l, v, r);
    HashSeqInsert(l, Missing, r);
    hide HashSeq, Hash;
    assert values == l + [Missing] + r && values[k := v] == l + [v] + r;
    XorZero(HashSeq(l + r));
    assert Hash(Missing) == 0 by { HashOfMissing(); }
  }

  lemma HashOfMissing()
    ensures Hash(Missing) == 0
  {
  }

  lemma XorZero(a: nat)
    ensures Xor(a, 0) == a
  {
  }

  /** The set slots, in order. */
  function Compacted(values: seq<Data>): seq<Data> {
    if values == [] then []
    else if values[0] == Missing then Compacted(values[1..])
    else [values[0]] + Compacted(values[1..])
  }

  lemma {:induction false} CompactedHash(values: seq<Data>)
    ensures HashSeq(Compacted(values)) == HashSeq(values)
  {
    if values != [] {
      hide Hash, Xor;
      CompactedHash(values[1..]);
      if values[0] == Missing {
        HashOfMissing();
        assert Xor(0, HashSeq(values[1..])) == HashSeq(values[1..]) by { ZeroXor(HashSeq(values[1..])); }
      }
    }
  }

  lemma ZeroXor(a: nat)
    ensures Xor(0, a) == a
  {
  }

  class DataVector {
    var values: array<Data>
    var size: nat
    var hash: nat
    var rehash: bool

    ghost predicate Sized()
      reads this`values, this`size
    {
      size <= values.Length
    }

    ghost function Slots(): seq<Data>
      requires Sized()
      reads this`values, this`size, values
    {
      values[..size]
    }

    ghost predicate Valid()
      reads this, values
    {
      Sized() && (!rehash ==> hash == HashSeq(Slots()))
    }

    /** A vector of unset slots. */
    constructor (n: nat)
      ensures Valid() && fresh(values) && size == n && hash == 0 && !rehash
      ensures forall i :: 0 <= i < n ==> Slots()[i] == Missing
    {
      values := new Data[n](_ => Missing);
      size, hash, rehash := n, 0, false;
      new;
      UnsetHash(values[..]);
      assert values[..n] == values[..];
    }

    /** iot_data_vector_add: a set slot makes the hash stale, an unset one takes the value in. */
    method Add(index: nat, v: Data)
      requires Valid() && index < size
      modifies this`hash, this`rehash, values
      ensures Valid() && Slots() == old(Slots())[index := v]
      ensures if old(values[index]) != Missing then rehash && hash == old(hash)
              else rehash == old(rehash) && hash == Xor(old(hash), Hash(v))
    {
      hide HashSeq, Hash, Xor;
      if values[index] != Missing {
        rehash := true;
      } else {
        HashSeqFill(Slots(), index, v);
        hash := Xor(hash, Hash(v));
      }
      values[index] := v;
      assert values[..size] == old(values[..size])[index := v];
    }

    /** iot_data_vector_iter_replace_value, with the iterator on slot `index`. */
    method IterReplace(index: nat, v: Data) returns (was: Data)
      requires Valid() && v != Missing
      modifies this`hash, this`rehash, values
      ensures Valid() && was == (if index < size then old(Slots())[index] else Missing)
      ensures Slots() == if index < size then old(Slots())[index := v] else old(Slots())
    {
      was := Missing;
      if index < size {
        was := values[index];
        Add(index, v);
      }
    }

    /** iot_data_vector_resize. A vector that keeps its size keeps its contents, but loses the flag: its hash
        is right afterwards exactly if it was already. */
    method Resize(n: nat)
      requires Valid()
      modifies this`values, this`size, this`rehash
      ensures Sized() && size == n && (values == old(values) || fresh(values))
      ensures Slots() == (if n <= old(size) then old(Slots())[..n] else old(Slots()) + Unset(n - old(size)))
      ensures hash == old(hash) && rehash == (n != old(size))
      ensures n != old(size) ==> Valid()
      ensures n == old(size) ==> (Valid() <==> old(hash) == HashSeq(old(Slots())))
      ensures n == old(size) && !old(rehash) ==> Valid()
    {
      hide HashSeq;
      if n > size {
        var bigger := new Data[n](_ => Missing);
        forall i | 0 <= i < size {
          bigger[i] := values[i];
        }
        UnsetAt(n - size);
        values := bigger;
      }
      rehash := size != n;
      size := n;
      assert n > old(size) ==> values[..n] == old(values[..size]) + Unset(n - old(size));
      assert n <= old(size) ==> values[..n] == old(values[..size])[..n];
      assert n == old(size) ==> old(values[..size])[..n] == old(values[..size]);
    }

    /** The inner loop of iot_data_vector_compact: the next set slot after i moves to i. */
    method PullUp(i: nat) returns (found: bool)
      requires Sized() && i < size && values[i] == Missing
      modifies values
      ensures Compacted(Slots()) == Compacted(old(Slots()))
      ensures found ==> exists j :: i < j < size && old(values[j]) != Missing
      ensures found ==> values[i] != Missing && forall k :: 0 <= k < i ==> values[k] == old(values[k])
      ensures !found ==> Slots() == old(Slots()) && forall k :: 0 <= k < size ==> values[k] == old(values[k])
      ensures !found ==> forall k :: i <= k < size ==> values[k] == Missing
    {
      found := false;
      var j := i + 1;
      while j < size
        invariant i < j <= size && Slots() == old(Slots())
        invariant forall k :: i <= k < j ==> values[k] == Missing
      {
        if values[j] != Missing {
          MoveKeepsSet(Slots(), i, j);
          values[i] := values[j];
          values[j] := Missing;
          found := true;
          assert values[..size] == old(values[..size])[i := old(values[j])][j := Missing];
          break;
        }
        j := j + 1;
      }
      assert !found ==> forall k :: 0 <= k < size ==> values[k] == Slots()[k] && old(values[k]) == old(Slots())[k];
    }

    /** iot_data_vector_compact: in place, keeping the order of the set slots and the hash. */
    method Compact() returns (n: nat)
      requires Valid()
      modifies this`size, values
      ensures Valid() && Slots() == Compacted(old(Slots())) && n == size
    {
      hide HashSeq;
      n := size;
      ghost var p: nat := 0;
      ghost var was := Slots();
      for i := 0 to size
        invariant size == old(size) && p <= i && n == size - (i - p)
        invariant Compacted(Slots()) == Compacted(was)
        invariant forall k :: 0 <= k < p ==> values[k] != Missing
        invariant p < i ==> forall k :: p <= k < size ==> values[k] == Missing
      {
        if values[i] == Missing {
          n := n - 1;
          var found := PullUp(i);
          if found {
            assert p == i;
            n := n + 1;
            p := p + 1;
          }
        } else {
          p := p + 1;
        }
      }
      SetThenUnset(Slots(), p);
      CompactedHash(was);
      assert values[..size][..p] == values[..p];
      size := n;
      assert Slots() == Compacted(was);
    }

    /** iot_data_hash for a vector. */
    method HashValue() returns (h: nat)
      requires Valid()
      modifies this`hash, this`rehash
      ensures Valid() && !rehash && h == HashSeq(Slots()) == Hash(Vector(Slots()))
    {
      if rehash {
        hash := 0;
        rehash := false;
        for i := 0 to size
          invariant !rehash && hash == HashSeq(Slots()[..i])
        {
          HashSeqNext(Slots(), i);
          hash := Xor(hash, Hash(values[i]));
        }
        assert Slots()[..size] == Slots();
      }
      h := hash;
    }
  }

  // ---------------------------------------------------------------- runs

  datatype Call =
    | AddAt(index: nat, v: Data)
    | ReplaceAt(index: nat, v: Data)
    | ResizeTo(n: nat)
    | Squeeze
    | ReadHash

  /** Slots are filled within the size, and a resize changes it. */
  predicate Allowed(slots: seq<Data>, c: Call) {
    match c
    case AddAt(index, _) => index < |slots|
    case ReplaceAt(_, v) => v != Missing
    case ResizeTo(n) => n != |slots|
    case _ => true
  }

  function Effect(slots: seq<Data>, c: Call): seq<Data>
    requires Allowed(slots, c)
  {
    match c
    case AddAt(index, v) => slots[index := v]
    case ReplaceAt(index, v) => if index < |slots| then slots[index := v] else slots
    case ResizeTo(n) => if n <= |slots| then slots[..n] else slots + Unset(n - |slots|)
    case Squeeze => Compacted(slots)
    case ReadHash => slots
  }

  predicate AllAllowed(slots: seq<Data>, calls: seq<Call>)
    decreases |calls|
  {
    calls != [] ==> Allowed(slots, calls[0]) && AllAllowed(Effect(slots, calls[0]), calls[1..])
  }

  function Effects(slots: seq<Data>, calls: seq<Call>): seq<Data>
    requires AllAllowed(slots, calls)
    decreases |calls|
  {
    if calls == [] then slots else Effects(Effect(slots, calls[0]), calls[1..])
  }

  method Perform(vector: DataVector, c: Call)
    requires vector.Valid() && Allowed(vector.Slots(), c)
    modifies vector, vector.values
    ensures vector.Valid() && vector.Slots() == Effect(old(vector.Slots()), c)
    ensures vector.values == old(vector.values) || fresh(vector.values)
  {
    hide HashSeq, Hash, Compacted;
    match c
    case AddAt(index, v) => vector.Add(index, v);
    case ReplaceAt(index, v) => var was := vector.IterReplace(index, v);
    case ResizeTo(n) => vector.Resize(n);
    case Squeeze => var n := vector.Compact();
    case ReadHash => var h := vector.HashValue();
  }

  /** After any run of calls that never resizes to the present size the hash is the fold over the slots. */
  method Run(vector: DataVector, calls: seq<Call>) returns (hash: nat)
    requires vector.Valid() && AllAllowed(vector.Slots(), calls)
    modifies vector, vector.values
    ensures vector.Valid() && vector.Slots() == Effects(old(vector.Slots()), calls)
    ensures hash == Hash(Vector(Effects(old(vector.Slots()), calls)))
  {
    hide Effect, Allowed, Hash, HashSeq;
    ghost var rest := calls;
    for i := 0 to |calls|
      invariant rest == calls[i..]
      invariant vector.Valid() && (vector.values == old(vector.values) || fresh(vector.values))
      invariant AllAllowed(vector.Slots(), rest)
      invariant Effects(vector.Slots(), rest) == Effects(old(vector.Slots()), calls)
    {
      Perform(vector, calls[i]);
      rest := rest[1..];
    }
    hash := vector.HashValue();
  }

  // ---------------------------------------------------------------- the lost flag

  /** A vector whose only value is replaced has a stale hash, and a resize to the same size makes it pass
      for the right one. */
  method SameSizeLosesFlag() returns (vector: DataVector)
    ensures fresh(vector) && vector.Sized() && vector.Slots() == [Int(UInt8, 2)]
    ensures !vector.rehash && vector.hash == 1 && HashSeq(vector.Slots()) == 2
  {
    var v := new DataVector(1);
    assert v.Slots() == [Missing];
    XorZero(1);
    ZeroXor(1);
    HashOfOne(Int(UInt8, 1));
    HashOfOne(Int(UInt8, 2));
    assert [Missing][0 := Int(UInt8, 1)] == [Int(UInt8, 1)] && [Int(UInt8, 1)][0 := Int(UInt8, 2)] == [Int(UInt8, 2)];
    v.Add(0, Int(UInt8, 1));
    v.Add(0, Int(UInt8, 2));
    v.Resize(1);
    assert v.Slots() == [Int(UInt8, 2)];
    vector := v;
  }

  lemma HashOfOne(d: Data)
    ensures HashSeq([d]) == Hash(d)
  {
    XorZero(Hash(d));
  }

  lemma {:induction false} CompactedConcat(a: seq<Data>, b: seq<Data>)
    ensures Compacted(a + b) == Compacted(a) + Compacted(b)
  {
    if a == [] {
      NoPrefix(b);
      NoPrefix(Compacted(b));
    } else {
      assert (a + b)[1..] == a[1..] + b;
      CompactedConcat(a[1..], b);
      Assoc([a[0]], Compacted(a[1..]), Compacted(b));
    }
  }

  lemma {:induction false} AllUnset(values: seq<Data>)
    requires forall k :: 0 <= k < |values| ==> values[k] == Missing
    ensures Compacted(values) == []
  {
    if values != [] { AllUnset(values[1..]); }
  }

  lemma {:induction false} AllSet(values: seq<Data>)
    requires forall k :: 0 <= k < |values| ==> values[k] != Missing
    ensures Compacted(values) == values
  {
    if values != [] { AllSet(values[1..]); }
  }

  lemma SetThenUnset(values: seq<Data>, p: nat)
    requires p <= |values| && (forall k :: 0 <= k < p ==> values[k] != Missing)
    requires forall k :: p <= k < |values| ==> values[k] == Missing
    ensures Compacted(values) == values[..p]
  {
    AllSet(values[..p]);
    AllUnset(values[p..]);
    CompactedConcat(values[..p], values[p..]);
    assert values == values[..p] + values[p..];
    NoSuffix(values[..p]);
  }

  /** The set slots from i on start with the one at j, whether it has moved yet or not. */
  lemma MoveKeepsSet(values: seq<Data>, i: nat, j: nat)
    requires i < j < |values| && values[j] != Missing && forall k :: i <= k < j ==> values[k] == Missing
    ensures Compacted(values[i := values[j]][j := Missing]) == Compacted(values)
  {
    var moved := values[i := values[j]][j := Missing];
    var l, m, m', r, x := values[..i], values[i..j], moved[i + 1..j + 1], values[j + 1..], values[j];
    AllUnset(m);
    AllUnset(m');
    SplitsAround(values, i, j);
    hide Compacted;
    CompactedConcat(l, m + ([x] + r));
    CompactedConcat(m, [x] + r);
    CompactedConcat(l, [x] + (m' + r));
    CompactedConcat(m', r);
    CompactedSet(x, r);
    CompactedSet(x, m' + r);
    NoPrefix(Compacted([x] + r));
    NoPrefix(Compacted(r));
  }

  lemma SplitsAround(values: seq<Data>, i: nat, j: nat)
    requires i < j < |values|
    ensures values == values[..i] + (values[i..j] + ([values[j]] + values[j + 1..]))
    ensures var moved := values[i := values[j]][j := Missing];
      moved == values[..i] + ([values[j]] + (moved[i + 1..j + 1] + values[j + 1..]))
  {
  }

  lemma CompactedSet(x: Data, r: seq<Data>)
    requires x != Missing
    ensures Compacted([x] + r) == [x] + Compacted(r)
  {
    assert ([x] + r)[1..] == r;
  }

  lemma {:induction false} UnsetHash(values: seq<Data>)
    requires forall i :: 0 <= i < |values| ==> values[i] == Missing
    ensures HashSeq(values) == 0
  {
    if values != [] { UnsetHash(values[1..]); }
  }
}
