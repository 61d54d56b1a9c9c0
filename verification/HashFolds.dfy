// Exclusive-or folds: the order of the parts of a container does not matter to its hash.
module HashFolds {
  import opened DataOrder
  import opened Sequences

  lemma {:induction false} XorCommutes(a: nat, b: nat)
    ensures Xor(a, b) == Xor(b, a)
    decreases a + b
  {
    if a != 0 && b != 0 { XorCommutes(a / 2, b / 2); }
  }

  lemma {:induction false} XorBits(a: nat, b: nat)
    ensures Xor(a, b) / 2 == Xor(a / 2, b / 2)
    ensures Xor(a, b) % 2 == (if a % 2 != b % 2 then 1 else 0)
  {
  }

  lemma {:induction false} XorAssociates(a: nat, b: nat, c: nat)
    ensures Xor(Xor(a, b), c) == Xor(a, Xor(b, c))
    decreases a + b + c
  {
    if a != 0 && b != 0 && c != 0 {
      XorAssociates(a / 2, b / 2, c / 2);
      XorBits(a, b);
      XorBits(b, c);
      XorBits(Xor(a, b), c);
      XorBits(a, Xor(b, c));
    }
  }

  /** Inserting one contribution anywhere. */
  lemma {:induction false} HashEntriesInsert(l: seq<Entry>, e: Entry, r: seq<Entry>)
    ensures HashEntries(l + [e] + r) == Xor(HashEntries(l + r), HashEntry(e))
  {
    hide Hash, HashEntry, Xor;
    if l == [] {
      assert l + [e] + r == [e] + r && l + r == r;
      XorCommutes(HashEntry(e), HashEntries(r));
    } else {
      assert (l + [e] + r)[1..] == l[1..] + [e] + r && (l + r)[1..] == l[1..] + r;
      HashEntriesInsert(l[1..], e, r);
      XorAssociates(HashEntry(l[0]), HashEntries(l[1..] + r), HashEntry(e));
    }
  }

  lemma {:induction false} HashSeqInsert(l: seq<Data>, d: Data, r: seq<Data>)
    ensures HashSeq(l + [d] + r) == Xor(HashSeq(l + r), Hash(d))
  {
    hide Hash, Xor;
    if l == [] {
      assert l + [d] + r == [d] + r && l + r == r;
      XorCommutes(Hash(d), HashSeq(r));
    } else {
      assert (l + [d] + r)[1..] == l[1..] + [d] + r && (l + r)[1..] == l[1..] + r;
      HashSeqInsert(l[1..], d, r);
      XorAssociates(Hash(l[0]), HashSeq(l[1..] + r), Hash(d));
    }
  }

  lemma HashPrefix(es: seq<Entry>, k: nat)
    requires 0 < k <= |es|
    ensures HashEntries(es[..k]) == Xor(HashEntries(es[..k - 1]), HashEntry(es[k - 1]))
  {
    hide HashEntries, HashEntry, Xor;
    var l := es[..k - 1];
    assert es[..k] == l + [es[k - 1]] + [] && l + [] == l;
    HashEntriesInsert(l, es[k - 1], []);
  }

  lemma HashSeqNext(values: seq<Data>, k: nat)
    requires k < |values|
    ensures HashSeq(values[..k + 1]) == Xor(HashSeq(values[..k]), Hash(values[k]))
  {
    HashSeqInsert(values[..k], values[k], []);
    hide HashSeq, Xor, Hash;
    NoSuffix(values[..k]);
    assert values[..k + 1] == values[..k] + [values[k]] + [];
  }
}
