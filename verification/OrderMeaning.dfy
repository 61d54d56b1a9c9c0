// The order of values, written down without the comparison: which of two values comes first.
module OrderMeaning {
  import opened Bytes
  import opened DataOrder
  import opened OrderedEntries

  /** The value has this type in the enumeration of types. NULL has none and stands below all of them. */
  ghost predicate HasType(d: Data, code: int) {
    || (code == -1 && d.Missing?)
    || (code == 0 && d.Int? && d.kind == Int8)
    || (code == 1 && d.Int? && d.kind == UInt8)
    || (code == 2 && d.Int? && d.kind == Int16)
    || (code == 3 && d.Int? && d.kind == UInt16)
    || (code == 4 && d.Int? && d.kind == Int32)
    || (code == 5 && d.Int? && d.kind == UInt32)
    || (code == 6 && d.Int? && d.kind == Int64)
    || (code == 7 && d.Int? && d.kind == UInt64)
    || (code == 10 && d.Bool?)
    || (code == 11 && d.Pointer?)
    || (code == 12 && d.Str?)
    || (code == 13 && d.Null?)
    || (code == 14 && d.Array? && d.binary)
    || (code == 15 && d.Array? && !d.binary)
    || (code == 16 && d.Vector?)
    || (code == 17 && d.List?)
    || (code == 18 && d.Map?)
  }

  ghost predicate TypeBefore(a: Data, b: Data) {
    exists m, n :: HasType(a, m) && HasType(b, n) && m < n
  }

  /** At the first place where they differ, the left one has the smaller byte or has ended. */
  ghost predicate BytesBefore(a: seq<Byte>, b: seq<Byte>) {
    exists k: nat :: FirstDifference(a, b, k) && (k == |a| || (k < |b| && a[k] < b[k]))
  }

  ghost predicate FirstDifference(a: seq<Byte>, b: seq<Byte>, k: nat) {
    && k <= |a| && k <= |b| && (k < |a| || k < |b|)
    && a[..k] == b[..k] && (k < |a| && k < |b| ==> a[k] != b[k])
  }

  ghost predicate ArrayBefore(a: Data, b: Data)
    requires a.Array? && b.Array?
  {
    || a.length < b.length
    || (a.length == b.length && a.element < b.element)
    || (a.length == b.length && a.element == b.element && BytesBefore(a.bytes, b.bytes))
  }

  /** Same contents, and the same hashes inside: what the comparison cannot tell apart. */
  ghost predicate Alike(a: Data, b: Data) {
    Canon(a) == Canon(b) && Hashes(a) == Hashes(b)
  }

  ghost predicate HeadBefore(n: nat, h: nat, m: nat, g: nat) {
    n < m || (n == m && h < g)
  }

  ghost predicate Precedes(a: Data, b: Data)
    decreases a, 2
  {
    || TypeBefore(a, b)
    || (a.Int? && b.Int? && a.kind == b.kind && a.value < b.value)
    || (a.Bool? && b.Bool? && !a.truth && b.truth)
    || (a.Pointer? && b.Pointer? && a.address < b.address)
    || (a.Str? && b.Str? && BytesBefore(a.chars, b.chars))
    || (a.Array? && b.Array? && a.binary == b.binary && ArrayBefore(a, b))
    || (a.Vector? && b.Vector? && HeadBefore(|a.slots|, Hash(a), |b.slots|, Hash(b)))
    || (a.Vector? && b.Vector? && |a.slots| == |b.slots| && Hash(a) == Hash(b) && SeqBefore(a.slots, b.slots))
    || (a.List? && b.List? && HeadBefore(|a.elements|, Hash(a), |b.elements|, Hash(b)))
    || (a.List? && b.List? && |a.elements| == |b.elements| && Hash(a) == Hash(b) && SeqBefore(a.elements, b.elements))
    || (a.Map? && b.Map? && HeadBefore(|a.entries|, Hash(a), |b.entries|, Hash(b)))
    || (a.Map? && b.Map? && |a.entries| == |b.entries| && Hash(a) == Hash(b) && EntriesBefore(a.entries, b.entries))
  }

  /** At the first place where the two differ the left one comes first. */
  ghost predicate SeqBefore(xs: seq<Data>, ys: seq<Data>)
    requires |xs| == |ys|
    decreases xs, 2
  {
    exists k: nat :: SeqDifferAt(xs, ys, k)
  }

  ghost predicate SeqDifferAt(xs: seq<Data>, ys: seq<Data>, k: nat)
    requires |xs| == |ys|
    decreases xs, 1
  {
    k < |xs| && SeqAlike(xs, ys, k) && Precedes(xs[k], ys[k])
  }

  ghost predicate SeqAlike(xs: seq<Data>, ys: seq<Data>, k: nat)
    requires k <= |xs| == |ys|
  {
    forall i :: 0 <= i < k ==> Alike(xs[i], ys[i])
  }

  ghost predicate EntriesBefore(xs: seq<Entry>, ys: seq<Entry>)
    requires |xs| == |ys|
    decreases xs, 2
  {
    exists k: nat :: EntriesDifferAt(xs, ys, k)
  }

  ghost predicate EntriesDifferAt(xs: seq<Entry>, ys: seq<Entry>, k: nat)
    requires |xs| == |ys|
    decreases xs, 1
  {
    k < |xs| && EntriesAlike(xs, ys, k) && EntryBefore(xs[k], ys[k])
  }

  ghost predicate EntriesAlike(xs: seq<Entry>, ys: seq<Entry>, k: nat)
    requires k <= |xs| == |ys|
  {
    forall i :: 0 <= i < k ==> EntryAlike(xs[i], ys[i])
  }

  ghost predicate EntryAlike(x: Entry, y: Entry) {
    Alike(x.key, y.key) && Alike(x.value, y.value)
  }

  /** The key decides, and the value if the keys are alike. */
  ghost predicate EntryBefore(x: Entry, y: Entry)
    decreases x, 1
  {
    Precedes(x.key, y.key) || (Alike(x.key, y.key) && Precedes(x.value, y.value))
  }

  // ---------------------------------------------------------------- the comparison computes it

  lemma TypesInOrder(a: Data, b: Data)
    ensures TypeCode(a) < TypeCode(b) <==> TypeBefore(a, b)
  {
    assert HasType(a, TypeCode(a)) && HasType(b, TypeCode(b));
    forall m, n | HasType(a, m) && HasType(b, n)
      ensures m == TypeCode(a) && n == TypeCode(b)
    {
    }
  }

  lemma {:induction false} BytesInOrder(a: seq<Byte>, b: seq<Byte>)
    ensures CmpBytes(a, b) < 0 <==> BytesBefore(a, b)
  {
    if a == [] || b == [] {
      if b != [] { assert FirstDifference(a, b, 0); }
    } else if a[0] != b[0] {
      assert FirstDifference(a, b, 0);
      forall k: nat | FirstDifference(a, b, k)
        ensures k == 0
      {
        if k > 0 { SameStart(a, b, k); }
      }
    } else {
      BytesInOrder(a[1..], b[1..]);
      BytesBehind(a, b);
    }
  }

  lemma SameStart(a: seq<Byte>, b: seq<Byte>, k: nat)
    requires 0 < k <= |a| && k <= |b| && a[..k] == b[..k]
    ensures a[0] == b[0]
  {
    assert a[0] == a[..k][0] && b[0] == b[..k][0];
  }

  lemma BytesBehind(a: seq<Byte>, b: seq<Byte>)
    requires a != [] && b != [] && a[0] == b[0]
    ensures BytesBefore(a, b) <==> BytesBefore(a[1..], b[1..])
  {
    if BytesBefore(a, b) {
      var k: nat :| FirstDifference(a, b, k) && (k == |a| || (k < |b| && a[k] < b[k]));
      assert k > 0;
      assert a[1..][..k - 1] == a[..k][1..] && b[1..][..k - 1] == b[..k][1..];
      assert FirstDifference(a[1..], b[1..], k - 1);
    }
    if BytesBefore(a[1..], b[1..]) {
      var k: nat :| FirstDifference(a[1..], b[1..], k) && (k == |a[1..]| || (k < |b[1..]| && a[1..][k] < b[1..][k]));
      assert a[..k + 1] == [a[0]] + a[1..][..k] && b[..k + 1] == [b[0]] + b[1..][..k];
      assert FirstDifference(a, b, k + 1);
    }
  }

  lemma AlikeIsZero(a: Data, b: Data)
    ensures Alike(a, b) <==> Cmp(a, b) == 0
  {
    hide *;
    if Cmp(a, b) == 0 {
      CmpZeroIsSame(a, b);
      CmpByHashes(a, b);
      IsAlike(a, b);
    }
    if Alike(a, b) {
      IsAlike(a, b);
      CmpByHashes(a, b);
    }
  }

  lemma IsAlike(a: Data, b: Data)
    ensures Alike(a, b) <==> Canon(a) == Canon(b) && Hashes(a) == Hashes(b)
  {
    hide Canon, Hashes;
  }

  /** For any two values the comparison answers with a negative number exactly if the left one comes first. */
  lemma {:induction false} CmpIsTheOrder(a: Data, b: Data)
    ensures Cmp(a, b) < 0 <==> Precedes(a, b)
    decreases a, 1
  {
    hide Hash, Alike;
    TypesInOrder(a, b);
    if TypeCode(a) == TypeCode(b) {
      match a
      case Vector(slots) => if |slots| == |b.slots| { SeqInOrder(slots, b.slots); }
      case List(elements) => if |elements| == |b.elements| { SeqInOrder(elements, b.elements); }
      case Map(entries) => if |entries| == |b.entries| { EntriesInOrder(entries, b.entries); }
      case Str(chars) => BytesInOrder(chars, b.chars);
      case Array(_, _, _, bytes, _) => BytesInOrder(bytes, b.bytes);
      case _ =>
    }
  }

  lemma {:induction false} SeqInOrder(xs: seq<Data>, ys: seq<Data>)
    requires |xs| == |ys|
    ensures CmpSeq(xs, ys) < 0 <==> SeqBefore(xs, ys)
    decreases xs, 0
  {
    hide Cmp, Alike, Precedes;
    if xs != [] {
      CmpIsTheOrder(xs[0], ys[0]);
      AlikeIsZero(xs[0], ys[0]);
      SeqInOrder(xs[1..], ys[1..]);
      SeqBehind(xs, ys);
    }
  }

  lemma SeqBehind(xs: seq<Data>, ys: seq<Data>)
    requires |xs| == |ys| > 0
    ensures SeqBefore(xs, ys)
            <==> Precedes(xs[0], ys[0]) || (Alike(xs[0], ys[0]) && SeqBefore(xs[1..], ys[1..]))
  {
    hide *;
    SeqDifferAtStart(xs, ys);
    if SeqBefore(xs, ys) {
      var k := SeqDifference(xs, ys);
      if k > 0 {
        SeqDifferLater(xs, ys, k - 1);
        SeqDiffer(xs[1..], ys[1..], k - 1);
      }
    }
    if Precedes(xs[0], ys[0]) { SeqDiffer(xs, ys, 0); }
    if Alike(xs[0], ys[0]) && SeqBefore(xs[1..], ys[1..]) {
      var k := SeqDifference(xs[1..], ys[1..]);
      SeqDifferLater(xs, ys, k);
      SeqDiffer(xs, ys, k + 1);
    }
  }

  lemma SeqDiffer(xs: seq<Data>, ys: seq<Data>, k: nat)
    requires |xs| == |ys| && SeqDifferAt(xs, ys, k)
    ensures SeqBefore(xs, ys)
  {
    hide SeqDifferAt;
  }

  lemma SeqDifference(xs: seq<Data>, ys: seq<Data>) returns (k: nat)
    requires |xs| == |ys| && SeqBefore(xs, ys)
    ensures SeqDifferAt(xs, ys, k)
  {
    hide SeqDifferAt;
    k :| SeqDifferAt(xs, ys, k);
  }

  lemma SeqDifferAtStart(xs: seq<Data>, ys: seq<Data>)
    requires |xs| == |ys| > 0
    ensures SeqDifferAt(xs, ys, 0) <==> Precedes(xs[0], ys[0])
  {
    hide Alike, Precedes;
  }

  lemma SeqDifferLater(xs: seq<Data>, ys: seq<Data>, k: nat)
    requires |xs| == |ys| > 0
    ensures SeqDifferAt(xs, ys, k + 1) <==> Alike(xs[0], ys[0]) && SeqDifferAt(xs[1..], ys[1..], k)
  {
    hide Alike, Precedes;
    if k < |xs[1..]| {
      if SeqAlike(xs, ys, k + 1) {
        forall i | 0 <= i < k
          ensures Alike(xs[1..][i], ys[1..][i])
        {
          assert xs[1..][i] == xs[i + 1] && ys[1..][i] == ys[i + 1];
        }
      }
      if Alike(xs[0], ys[0]) && SeqAlike(xs[1..], ys[1..], k) {
        forall i | 0 <= i < k + 1
          ensures Alike(xs[i], ys[i])
        {
          if i > 0 { assert Alike(xs[1..][i - 1], ys[1..][i - 1]); }
        }
      }
    }
  }

  lemma {:induction false} EntriesInOrder(xs: seq<Entry>, ys: seq<Entry>)
    requires |xs| == |ys|
    ensures CmpEntries(xs, ys) < 0 <==> EntriesBefore(xs, ys)
    decreases xs, 0
  {
    hide Cmp, Alike, Precedes;
    if xs != [] {
      EntryInOrder(xs[0], ys[0]);
      EntriesInOrder(xs[1..], ys[1..]);
      EntriesBehind(xs, ys);
    }
  }

  lemma {:induction false} EntryInOrder(x: Entry, y: Entry)
    ensures CmpEntry(x, y) < 0 <==> EntryBefore(x, y)
    ensures CmpEntry(x, y) == 0 <==> EntryAlike(x, y)
    decreases x, 1
  {
    hide Cmp, Alike, Precedes;
    CmpIsTheOrder(x.key, y.key);
    CmpIsTheOrder(x.value, y.value);
    AlikeIsZero(x.key, y.key);
    AlikeIsZero(x.value, y.value);
  }

  lemma EntriesBehind(xs: seq<Entry>, ys: seq<Entry>)
    requires |xs| == |ys| > 0
    ensures EntriesBefore(xs, ys)
            <==> EntryBefore(xs[0], ys[0]) || (EntryAlike(xs[0], ys[0]) && EntriesBefore(xs[1..], ys[1..]))
  {
    hide *;
    EntriesDifferAtStart(xs, ys);
    if EntriesBefore(xs, ys) {
      var k := EntriesDifference(xs, ys);
      if k > 0 {
        EntriesDifferLater(xs, ys, k - 1);
        EntriesDiffer(xs[1..], ys[1..], k - 1);
      }
    }
    if EntryBefore(xs[0], ys[0]) { EntriesDiffer(xs, ys, 0); }
    if EntryAlike(xs[0], ys[0]) && EntriesBefore(xs[1..], ys[1..]) {
      var k := EntriesDifference(xs[1..], ys[1..]);
      EntriesDifferLater(xs, ys, k);
      EntriesDiffer(xs, ys, k + 1);
    }
  }

  lemma EntriesDiffer(xs: seq<Entry>, ys: seq<Entry>, k: nat)
    requires |xs| == |ys| && EntriesDifferAt(xs, ys, k)
    ensures EntriesBefore(xs, ys)
  {
    hide EntriesDifferAt;
  }

  lemma EntriesDifference(xs: seq<Entry>, ys: seq<Entry>) returns (k: nat)
    requires |xs| == |ys| && EntriesBefore(xs, ys)
    ensures EntriesDifferAt(xs, ys, k)
  {
    hide EntriesDifferAt;
    k :| EntriesDifferAt(xs, ys, k);
  }

  lemma EntriesDifferAtStart(xs: seq<Entry>, ys: seq<Entry>)
    requires |xs| == |ys| > 0
    ensures EntriesDifferAt(xs, ys, 0) <==> EntryBefore(xs[0], ys[0])
  {
    hide EntryAlike, EntryBefore;
  }

  lemma EntriesDifferLater(xs: seq<Entry>, ys: seq<Entry>, k: nat)
    requires |xs| == |ys| > 0
    ensures EntriesDifferAt(xs, ys, k + 1) <==> EntryAlike(xs[0], ys[0]) && EntriesDifferAt(xs[1..], ys[1..], k)
  {
    hide EntryAlike, EntryBefore;
    if k < |xs[1..]| {
      if EntriesAlike(xs, ys, k + 1) {
        forall i | 0 <= i < k
          ensures EntryAlike(xs[1..][i], ys[1..][i])
        {
          assert xs[1..][i] == xs[i + 1] && ys[1..][i] == ys[i + 1];
        }
      }
      if EntryAlike(xs[0], ys[0]) && EntriesAlike(xs[1..], ys[1..], k) {
        forall i | 0 <= i < k + 1
          ensures EntryAlike(xs[i], ys[i])
        {
          if i > 0 { assert EntryAlike(xs[1..][i - 1], ys[1..][i - 1]); }
        }
      }
    }
  }

  /** The three answers: the left one first, the right one first, or nothing to tell them apart. */
  lemma OneOfThree(a: Data, b: Data)
    ensures Cmp(a, b) == if Precedes(a, b) then -1 else if Precedes(b, a) then 1 else 0
    ensures Alike(a, b) <==> !Precedes(a, b) && !Precedes(b, a)
  {
    hide *;
    CmpIsTheOrder(a, b);
    CmpIsTheOrder(b, a);
    Reversed(a, b);
    AlikeIsZero(a, b);
  }

  lemma Reversed(a: Data, b: Data)
    ensures -1 <= Cmp(a, b) <= 1 && Cmp(b, a) == -Cmp(a, b)
  {
    hide Cmp;
    CmpReverse(a, b);
  }

  // ---------------------------------------------------------------- the keys of a map

  /** The entries of a map stand in the order of their keys. */
  lemma KeysInOrder(es: seq<Entry>)
    ensures Ascending(es) <==> forall i, j :: 0 <= i < j < |es| ==> Precedes(es[i].key, es[j].key)
  {
    hide Cmp, Precedes;
    forall i, j | 0 <= i < j < |es|
      ensures Cmp(es[i].key, es[j].key) < 0 <==> Precedes(es[i].key, es[j].key)
    {
      CmpIsTheOrder(es[i].key, es[j].key);
    }
  }

  /** Keys that are integers of one type stand in the order of the numbers. */
  lemma NumbersIncrease(es: seq<Entry>, kind: IntType)
    requires forall e :: e in es ==> e.key.Int? && e.key.kind == kind
    ensures Ascending(es) <==> forall i, j :: 0 <= i < j < |es| ==> es[i].key.value < es[j].key.value
  {
    forall i, j | 0 <= i < j < |es|
      ensures Cmp(es[i].key, es[j].key) < 0 <==> es[i].key.value < es[j].key.value
    {
      assert es[i] in es && es[j] in es;
    }
  }
}
