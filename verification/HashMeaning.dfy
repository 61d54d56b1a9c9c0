// Which number the hash of a value is, bit by bit.
module HashMeaning {
  import opened Bytes
  import opened DataOrder
  import opened HashFolds

  /** Bit k of the binary form. */
  function Bit(n: nat, k: nat): nat {
    if k == 0 then n % 2 else Bit(n / 2, k - 1)
  }

  lemma {:induction false} ZeroBits(k: nat)
    ensures Bit(0, k) == 0
  {
    if k > 0 { ZeroBits(k - 1); }
  }

  lemma {:induction false} XorByBits(a: nat, b: nat, k: nat)
    ensures Bit(Xor(a, b), k) == (if Bit(a, k) != Bit(b, k) then 1 else 0)
    decreases k
  {
    XorBits(a, b);
    if k > 0 { XorByBits(a / 2, b / 2, k - 1); }
  }

  /** The successive values of the hash of a text: times 33 in 32 bits, then the next byte into the low bits. */
  ghost predicate Bernstein(text: seq<Byte>, h: seq<nat>) {
    && |h| == |text| + 1
    && forall i :: 0 <= i < |text| ==> Mixed(h[i + 1], h[i] * 33 % 0x1_0000_0000, text[i])
  }

  ghost predicate Mixed(r: nat, a: nat, b: nat) {
    forall k: nat :: Bit(r, k) == (if Bit(a, k) != Bit(b, k) then 1 else 0)
  }

  lemma {:induction false} HashSteps(text: seq<Byte>, hash: nat) returns (h: seq<nat>)
    ensures Bernstein(text, h) && h[0] == hash && HashBytes(text, hash) == h[|text|]
    decreases text
  {
    h := [hash];
    if text != [] {
      var a := hash * 33 % WORD;
      var rest := HashSteps(text[1..], Xor(a, text[0]));
      forall k: nat
        ensures Bit(rest[0], k) == (if Bit(a, k) != Bit(text[0], k) then 1 else 0)
      {
        XorByBits(a, text[0], k);
      }
      h := h + rest;
      forall i | 0 <= i < |text|
        ensures Mixed(h[i + 1], h[i] * 33 % 0x1_0000_0000, text[i])
      {
        if i > 0 { assert text[1..][i - 1] == text[i] && rest[i - 1] == h[i]; }
      }
    }
  }

  /** The hash of a text is the last of the values that start at 538 and take in one byte each. */
  lemma TextHash(text: seq<Byte>) returns (h: seq<nat>)
    ensures Bernstein(text, h) && h[0] == 538 && Hash(Str(text)) == h[|text|]
  {
    hide HashBytes, Bernstein;
    h := HashSteps(text, 538);
  }

  /** What the parts of a vector or a list, and the keys and values of a map, bring into the hash of the whole. */
  function SlotHashes(ds: seq<Data>): seq<nat> {
    seq(|ds|, i requires 0 <= i < |ds| => Hash(ds[i]))
  }

  /** A value whose hash is that of its key is left out: the two would cancel. */
  function EntryHashes(es: seq<Entry>): seq<nat> {
    if es == [] then []
    else
      var key, value := Hash(es[0].key), Hash(es[0].value);
      (if key == value then [key] else [key, value]) + EntryHashes(es[1..])
  }

  function Ones(hs: seq<nat>, k: nat): nat {
    if hs == [] then 0 else Bit(hs[0], k) + Ones(hs[1..], k)
  }

  lemma {:induction false} SeqHashByBits(ds: seq<Data>, k: nat)
    ensures Bit(HashSeq(ds), k) == Ones(SlotHashes(ds), k) % 2
  {
    hide Hash, Xor, Bit;
    if ds == [] {
      ZeroBits(k);
    } else {
      XorByBits(Hash(ds[0]), HashSeq(ds[1..]), k);
      SeqHashByBits(ds[1..], k);
      BitRange(Hash(ds[0]), k);
      assert SlotHashes(ds)[1..] == SlotHashes(ds[1..]);
    }
  }

  lemma {:induction false} BitRange(n: nat, k: nat)
    ensures Bit(n, k) == 0 || Bit(n, k) == 1
  {
    if k > 0 { BitRange(n / 2, k - 1); }
  }

  lemma {:induction false} EntriesHashByBits(es: seq<Entry>, k: nat)
    ensures Bit(HashEntries(es), k) == Ones(EntryHashes(es), k) % 2
  {
    hide Hash, Xor, Bit;
    if es == [] {
      ZeroBits(k);
    } else {
      var key, value := Hash(es[0].key), Hash(es[0].value);
      XorByBits(HashEntry(es[0]), HashEntries(es[1..]), k);
      EntriesHashByBits(es[1..], k);
      XorByBits(key, value, k);
      BitRange(key, k);
      BitRange(value, k);
      OnesOfPair(key, value, EntryHashes(es[1..]), k);
    }
  }

  /** A bit of the hash of a container is set exactly if an odd number of its parts have it. */
  lemma ContainerHash(ds: seq<Data>, es: seq<Entry>, k: nat)
    ensures Bit(Hash(Vector(ds)), k) == Ones(SlotHashes(ds), k) % 2
    ensures Bit(Hash(List(ds)), k) == Ones(SlotHashes(ds), k) % 2
    ensures Bit(Hash(Map(es)), k) == Ones(EntryHashes(es), k) % 2
  {
    hide Bit, HashSeq, HashEntries, Ones;
    SeqHashByBits(ds, k);
    EntriesHashByBits(es, k);
  }

  lemma OnesOfPair(a: nat, b: nat, hs: seq<nat>, k: nat)
    ensures Ones([a] + hs, k) == Bit(a, k) + Ones(hs, k)
    ensures Ones([a, b] + hs, k) == Bit(a, k) + Bit(b, k) + Ones(hs, k)
  {
    hide Bit;
    assert ([a] + hs)[1..] == hs && ([a, b] + hs)[1..] == [b] + hs && ([b] + hs)[1..] == hs;
  }
}
