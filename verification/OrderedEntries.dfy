// The meaning of a map: its entries in ascending key order.
module OrderedEntries {
  // What adding, removing and looking up a key do to them. Keys are compared with DataOrder.Cmp throughout.

  import opened DataOrder
  import opened Options

  ghost predicate Below(es: seq<Entry>, key: Data) {
    forall i :: 0 <= i < |es| ==> Cmp(es[i].key, key) < 0
  }

  ghost predicate AboveKey(es: seq<Entry>, key: Data) {
    forall i :: 0 <= i < |es| ==> Cmp(key, es[i].key) < 0
  }

  /** Strictly ascending keys: in particular no key occurs twice. */
  ghost predicate Ascending(es: seq<Entry>) {
    forall i, j :: 0 <= i < j < |es| ==> Cmp(es[i].key, es[j].key) < 0
  }

  function Get(es: seq<Entry>, key: Data): Option<Data> {
    if es == [] then None
    else if Cmp(es[0].key, key) == 0 then Some(es[0].value)
    else Get(es[1..], key)
  }

  /** The stored key stays when the key is already there. */
  function Put(es: seq<Entry>, key: Data, value: Data): seq<Entry> {
    if es == [] then [Entry(key, value)]
    else if Cmp(es[0].key, key) == 0 then [Entry(es[0].key, value)] + es[1..]
    else if Cmp(key, es[0].key) < 0 then [Entry(key, value)] + es
    else [es[0]] + Put(es[1..], key, value)
  }

  function Drop(es: seq<Entry>, key: Data): seq<Entry> {
    if es == [] then []
    else if Cmp(es[0].key, key) == 0 then es[1..]
    else [es[0]] + Drop(es[1..], key)
  }

  /** No key is the NULL pointer. */
  ghost predicate RealKeys(es: seq<Entry>) {
    forall e :: e in es ==> e.key != Missing
  }

  lemma {:induction false} PutRealKeys(es: seq<Entry>, key: Data, value: Data)
    requires RealKeys(es) && key != Missing
    ensures RealKeys(Put(es, key, value))
  {
    hide Cmp;
    if es != [] { PutRealKeys(es[1..], key, value); }
  }

  lemma {:induction false} DropRealKeys(es: seq<Entry>, key: Data)
    requires RealKeys(es)
    ensures RealKeys(Drop(es, key))
  {
    hide Cmp;
    if es != [] { DropRealKeys(es[1..], key); }
  }

  // ---------------------------------------------------------------- the three operations at a known place

  /** Nothing, or one entry with the given key. */
  ghost predicate Spot(m: seq<Entry>, key: Data) {
    m == [] || (|m| == 1 && Cmp(m[0].key, key) == 0)
  }

  /** How the operations act on l + m + r when l is below the key, r above it and m is its spot. */
  lemma {:induction false} AtSpot(l: seq<Entry>, m: seq<Entry>, r: seq<Entry>, key: Data, value: Data)
    requires Below(l, key) && Spot(m, key) && AboveKey(r, key)
    ensures Get(l + m + r, key) == if m == [] then None else Some(m[0].value)
    ensures Put(l + m + r, key, value) == l + [Entry(if m == [] then key else m[0].key, value)] + r
    ensures Drop(l + m + r, key) == l + r
  {
    hide Cmp;
    var s := l + m + r;
    if l == [] {
      AtStart(m, r, key, value);
      assert s == m + r;
    } else {
      CmpReverse(l[0].key, key);
      var l' := l[1..];
      AtSpot(l', m, r, key, value);
      var e := [Entry(if m == [] then key else m[0].key, value)];
      assert s[0] == l[0] && s[1..] == l' + m + r;
      assert l + e + r == [l[0]] + (l' + e + r);
      assert l + r == [l[0]] + (l' + r);
    }
  }

  lemma AtStart(m: seq<Entry>, r: seq<Entry>, key: Data, value: Data)
    requires Spot(m, key) && AboveKey(r, key)
    ensures Get(m + r, key) == if m == [] then None else Some(m[0].value)
    ensures Put(m + r, key, value) == [Entry(if m == [] then key else m[0].key, value)] + r
    ensures Drop(m + r, key) == r
  {
    hide Cmp;
    if m == [] {
      assert m + r == r;
      NotAbove(r, key);
      if r != [] { CmpReverse(key, r[0].key); }
    } else {
      assert (m + r)[1..] == r;
    }
  }

  lemma {:induction false} NotAbove(r: seq<Entry>, key: Data)
    requires AboveKey(r, key)
    ensures Get(r, key) == None && Drop(r, key) == r
  {
    hide Cmp;
    if r != [] {
      CmpReverse(key, r[0].key);
      NotAbove(r[1..], key);
    }
  }

  lemma {:induction false} AbsentKey(es: seq<Entry>, key: Data, i: nat)
    requires Get(es, key) == None && i < |es|
    ensures Cmp(es[i].key, key) != 0
  {
    hide Cmp;
    if i != 0 { AbsentKey(es[1..], key, i - 1); }
  }

  // ---------------------------------------------------------------- ascending order around a place

  lemma AscendingParts(l: seq<Entry>, m: seq<Entry>, r: seq<Entry>)
    requires Ascending(l + m + r)
    ensures Ascending(l) && Ascending(m) && Ascending(r) && Ascending(l + r)
  {
    hide Cmp;
    var s := l + m + r;
    var n, k := |l|, |m|;
    assert forall i :: 0 <= i < n ==> l[i] == s[i];
    assert forall i :: 0 <= i < k ==> m[i] == s[n + i];
    assert forall i :: 0 <= i < |r| ==> r[i] == s[n + k + i];
  }

  /** The entries before and after one entry, relative to a key at that entry or next to it. */
  lemma AroundEntry(l: seq<Entry>, e: Entry, r: seq<Entry>, key: Data)
    requires Ascending(l + [e] + r)
    ensures Cmp(e.key, key) <= 0 ==> Below(l, key)
    ensures Cmp(e.key, key) >= 0 ==> AboveKey(r, key)
  {
    hide Cmp;
    var s := l + [e] + r;
    CmpReverse(e.key, key);
    if Cmp(e.key, key) <= 0 {
      forall i | 0 <= i < |l|
        ensures Cmp(l[i].key, key) < 0
      {
        assert l[i] == s[i] && s[|l|] == e;
        CmpChain(l[i].key, e.key, key);
      }
    }
    if Cmp(e.key, key) >= 0 {
      forall i | 0 <= i < |r|
        ensures Cmp(key, r[i].key) < 0
      {
        assert r[i] == s[|l| + 1 + i] && s[|l|] == e;
        CmpChain(key, e.key, r[i].key);
      }
    }
  }

  lemma BelowAppend(l: seq<Entry>, e: Entry, key: Data)
    requires Below(l, key) && Cmp(e.key, key) < 0
    ensures Below(l + [e], key)
  {
    hide Cmp;
  }

  lemma AbovePrepend(e: Entry, r: seq<Entry>, key: Data)
    requires Cmp(e.key, key) > 0 && AboveKey(r, key)
    ensures AboveKey([e] + r, key)
  {
    hide Cmp;
    CmpReverse(e.key, key);
  }

  /** A key put between smaller and larger ones keeps the order; so does replacing a value. */
  lemma AscendingInsert(l: seq<Entry>, e: Entry, r: seq<Entry>)
    requires Ascending(l + r) && Below(l, e.key) && AboveKey(r, e.key)
    ensures Ascending(l + [e] + r)
  {
    hide Cmp;
    var s, t := l + [e] + r, l + r;
    forall i, j | 0 <= i < j < |s|
      ensures Cmp(s[i].key, s[j].key) < 0
    {
      var i', j' := if i > |l| then i - 1 else i, if j > |l| then j - 1 else j;
      if i != |l| && j != |l| { assert s[i] == t[i'] && s[j] == t[j']; }
    }
  }

  lemma AscendingReplace(l: seq<Entry>, e: Entry, value: Data, r: seq<Entry>)
    requires Ascending(l + [e] + r)
    ensures Ascending(l + [Entry(e.key, value)] + r)
  {
    hide Cmp;
    var s, t := l + [Entry(e.key, value)] + r, l + [e] + r;
    assert forall i :: 0 <= i < |s| ==> s[i].key == t[i].key;
  }

  // ---------------------------------------------------------------- the laws of a finite map

  lemma FirstNotBelow(es: seq<Entry>, key: Data) returns (k: nat)
    ensures k <= |es| && Below(es[..k], key)
    ensures k < |es| ==> Cmp(es[k].key, key) >= 0
  {
    hide Cmp;
    k := 0;
    while k < |es| && Cmp(es[k].key, key) < 0
      invariant 0 <= k <= |es| && Below(es[..k], key)
    {
      k := k + 1;
    }
  }

  /** Every key has a spot in an ascending sequence. */
  lemma FindSpot(es: seq<Entry>, key: Data) returns (l: seq<Entry>, m: seq<Entry>, r: seq<Entry>)
    requires Ascending(es)
    ensures es == l + m + r && Below(l, key) && Spot(m, key) && AboveKey(r, key)
  {
    hide Cmp, Ascending;
    var k := FirstNotBelow(es, key);
    l, m, r := es[..k], [], es[k..];
    if k < |es| {
      var e, t := es[k], es[k + 1..];
      assert es == l + [e] + t && r == [e] + t;
      AroundEntry(l, e, t, key);
      CmpReverse(e.key, key);
      if Cmp(e.key, key) == 0 {
        m, r := [e], t;
      } else {
        assert AboveKey(r, key);
      }
    }
  }

  lemma PutKeepsOrder(es: seq<Entry>, key: Data, value: Data)
    requires Ascending(es)
    ensures Ascending(Put(es, key, value))
    ensures |Put(es, key, value)| == |es| + if Get(es, key) == None then 1 else 0
  {
    hide Cmp;
    var l, m, r := FindSpot(es, key);
    AtSpot(l, m, r, key, value);
    if m == [] {
      assert es == l + r;
      AscendingInsert(l, Entry(key, value), r);
    } else {
      assert m == [m[0]];
      AscendingReplace(l, m[0], value, r);
    }
  }

  /** After a Put the key has the new value and every other key its old one. */
  lemma {:induction false} PutGet(es: seq<Entry>, key: Data, value: Data, other: Data)
    ensures Get(Put(es, key, value), other) == if Cmp(key, other) == 0 then Some(value) else Get(es, other)
  {
    hide Cmp;
    if es != [] {
      var k := es[0].key;
      CmpReverse(k, key);
      if Cmp(k, key) == 0 {
        CmpChain(k, key, other);
        CmpChain(key, k, other);
        CmpReverse(key, other);
        CmpReverse(k, other);
        CmpChain(other, key, k);
        CmpChain(other, k, key);
      } else if Cmp(k, key) < 0 {
        PutGet(es[1..], key, value, other);
        if Cmp(k, other) == 0 {
          CmpReverse(k, other);
          CmpReverse(key, other);
          CmpChain(other, k, key);
        }
      }
    }
  }

  /** Drop keeps the order, and afterwards the key is gone and every other key keeps its value. */
  lemma DropLaws(es: seq<Entry>, key: Data, other: Data)
    requires Ascending(es)
    ensures Ascending(Drop(es, key))
    ensures Get(Drop(es, key), other) == if Cmp(key, other) == 0 then None else Get(es, other)
    ensures |Drop(es, key)| == |es| - if Get(es, key) == None then 0 else 1
  {
    hide Cmp;
    var l, m, r := FindSpot(es, key);
    AtSpot(l, m, r, key, Null);
    AscendingParts(l, m, r);
    GetConcat(l, r, other);
    GetConcat(l + m, r, other);
    GetConcat(l, m, other);
    if Cmp(key, other) == 0 {
      GetBelow(l, key, other);
      forall i | 0 <= i < |r| ensures Cmp(other, r[i].key) < 0 {
        CmpReverse(key, other);
        CmpChain(other, key, r[i].key);
      }
      NotAbove(r, other);
    } else if m != [] && Cmp(m[0].key, other) == 0 {
      CmpReverse(m[0].key, key);
      CmpChain(key, m[0].key, other);
    }
  }

  lemma {:induction false} GetConcat(a: seq<Entry>, b: seq<Entry>, key: Data)
    ensures Get(a + b, key) == if Get(a, key) == None then Get(b, key) else Get(a, key)
  {
    hide Cmp;
    if a == [] {
      assert a + b == b;
    } else {
      assert (a + b)[1..] == a[1..] + b;
      GetConcat(a[1..], b, key);
    }
  }

  lemma {:induction false} GetBelow(l: seq<Entry>, key: Data, other: Data)
    requires Below(l, key) && Cmp(key, other) == 0
    ensures Get(l, other) == None
  {
    hide Cmp;
    if l != [] {
      CmpChain(l[0].key, key, other);
      GetBelow(l[1..], key, other);
    }
  }

  /** Two maps with the same bindings iterate alike: the comparison of maps may walk them in step. */
  lemma {:induction false} SameBindingsSameOrder(xs: seq<Entry>, ys: seq<Entry>)
    requires Ascending(xs) && Ascending(ys)
    requires forall e :: e in xs <==> e in ys
    ensures xs == ys
  {
    hide Cmp;
    assert xs != [] ==> xs[0] in ys;
    assert ys != [] ==> ys[0] in xs;
    if xs != [] {
      SameFirst(xs, ys);
      TailMembers(xs);
      TailMembers(ys);
      forall e
        ensures e in xs[1..] <==> e in ys[1..]
      {
        assert e in xs <==> e in ys;
      }
      SameBindingsSameOrder(xs[1..], ys[1..]);
    }
  }

  lemma SameFirst(xs: seq<Entry>, ys: seq<Entry>)
    requires Ascending(xs) && Ascending(ys) && xs != [] && ys != []
    requires xs[0] in ys && ys[0] in xs
    ensures xs[0] == ys[0]
  {
    hide Cmp;
    CmpReverse(xs[0].key, ys[0].key);
  }

  lemma TailMembers(es: seq<Entry>)
    requires Ascending(es) && es != []
    ensures Ascending(es[1..])
    ensures forall e :: e in es[1..] <==> e in es && e != es[0]
  {
    hide Cmp;
    CmpSelf(es[0].key);
    assert es == [es[0]] + es[1..];
  }
}
