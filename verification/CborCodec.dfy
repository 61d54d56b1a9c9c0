// What src/c/data-cbor.c writes, and what it makes of what it reads.
module CborCodec {
  // The items themselves are read by libcbor, whose place CborFormat.Parse takes.

  import opened Bytes
  import opened Options
  import opened Sequences
  import opened ArrayElements
  import opened DataOrder
  import opened OrderedEntries
  import opened CborFormat

  const WORD32: nat := 0x1_0000_0000

  // ---------------------------------------------------------------- what can be written

  predicate Scalar(d: Data) {
    match d
    case Int(kind, v) => InRange(kind, v)
    case Bool(_) => true
    case Null => true
    case _ => false
  }

  /** Values without floats, pointers and unset slots, of sizes that the types of the source can hold, and
      with map keys that stay distinct as CBOR values. */
  ghost predicate Encodable(d: Data)
    decreases d, 1
  {
    match d
    case Str(chars) => |chars| < WORD32 && NUL !in chars
    case Array(binary, length, element, bytes, _) =>
      && |bytes| < WORD32
      && if binary then length == |bytes| && element == 1
         else ElementType(element) && |bytes| == length * ElementSize(element)
    case Vector(slots) => |slots| < WORD32 && EncodableSeq(slots)
    case List(elements) => |elements| < WORD32 && EncodableSeq(elements)
    case Map(entries) => |entries| < WORD32 && EncodableEntries(entries) && KeysDiffer(entries)
    case _ => Scalar(d)
  }

  ghost predicate EncodableSeq(ds: seq<Data>)
    decreases ds, 0
  {
    ds != [] ==> Encodable(ds[0]) && EncodableSeq(ds[1..])
  }

  /** A map may hold NULL values, which are written as null. */
  ghost predicate EncodableEntries(es: seq<Entry>)
    decreases es, 0
  {
    es != [] ==> EncodableEntry(es[0]) && EncodableEntries(es[1..])
  }

  ghost predicate EncodableEntry(e: Entry)
    decreases e, 1
  {
    Encodable(e.key) && (e.value.Missing? || Encodable(e.value))
  }

  ghost predicate KeysDiffer(es: seq<Entry>) {
    forall i, j :: 0 <= i < j < |es| ==> Cmp(Convert(ItemOf(es[i].key)), Convert(ItemOf(es[j].key))) != 0
  }

  // ---------------------------------------------------------------- writing

  /** iot_data_cbor_write_int */
  function WriteInt(v: int): seq<Byte> {
    if v < 0 then WriteUint(-1 - v, 0x20) else WriteUint(v, 0)
  }

  /** What iot_data_dump_cbor and iot_data_dump_cbor_ptr have in common. */
  function EncodeScalar(d: Data): seq<Byte> {
    match d
    case Int(_, v) => WriteInt(v)
    case Bool(b) => [if b then 0xf5 else 0xf4]
    case Null => [0xf6]
    case Missing => [0xf6]
    case _ => []
  }

  function EncodeScalars(ds: seq<Data>): seq<Byte> {
    if ds == [] then [] else EncodeScalar(ds[0]) + EncodeScalars(ds[1..])
  }

  /** iot_data_dump_cbor; a pointer leaves no trace. */
  function Encode(d: Data): seq<Byte>
    decreases d, 1
  {
    match d
    case Str(chars) => WriteUint(|chars|, 0x60) + chars
    case Array(binary, length, _, bytes, _) =>
      if binary then WriteUint(|bytes|, 0x40) + bytes else WriteUint(length, 0x80) + EncodeScalars(Elements(d))
    case Vector(slots) => WriteUint(|slots|, 0x80) + EncodeSeq(slots)
    case List(elements) => WriteUint(|elements|, 0x80) + EncodeSeq(elements)
    case Map(entries) => WriteUint(|entries|, 0xA0) + EncodeEntries(entries)
    case _ => EncodeScalar(d)
  }

  function EncodeSeq(ds: seq<Data>): seq<Byte>
    decreases ds, 0
  {
    if ds == [] then [] else Encode(ds[0]) + EncodeSeq(ds[1..])
  }

  function EncodeEntries(es: seq<Entry>): seq<Byte>
    decreases es, 0
  {
    if es == [] then [] else EncodeEntry(es[0]) + EncodeEntries(es[1..])
  }

  function EncodeEntry(e: Entry): seq<Byte>
    decreases e, 1
  {
    Encode(e.key) + Encode(e.value)
  }

  // ---------------------------------------------------------------- the item a value stands for

  function ScalarItem(d: Data): Item {
    match d
    case Int(_, v) => if v < 0 then NegInt(Width(-1 - v), -1 - v) else UInt(Width(v), v)
    case Bool(b) => if b then True else False
    case _ => Nil
  }

  function ScalarItems(ds: seq<Data>): seq<Item> {
    if ds == [] then [] else [ScalarItem(ds[0])] + ScalarItems(ds[1..])
  }

  function ItemOf(d: Data): Item
    decreases d, 1
  {
    match d
    case Str(chars) => Text(chars)
    case Array(binary, _, _, bytes, _) => if binary then Binary(bytes) else Sequence(ScalarItems(Elements(d)))
    case Vector(slots) => Sequence(ItemsOf(slots))
    case List(elements) => Sequence(ItemsOf(elements))
    case Map(entries) => Table(PairsOf(entries))
    case _ => ScalarItem(d)
  }

  function ItemsOf(ds: seq<Data>): (items: seq<Item>)
    ensures |items| == |ds|
    decreases ds, 0
  {
    if ds == [] then [] else [ItemOf(ds[0])] + ItemsOf(ds[1..])
  }

  function PairsOf(es: seq<Entry>): (pairs: seq<Pair>)
    ensures |pairs| == |es|
    decreases es, 0
  {
    if es == [] then [] else [PairOf(es[0])] + PairsOf(es[1..])
  }

  function PairOf(e: Entry): Pair
    decreases e, 1
  {
    Pair(ItemOf(e.key), ItemOf(e.value))
  }

  // ---------------------------------------------------------------- reading back

  /** cbor_uint_to_iot_data */
  function ConvertUint(width: nat, v: nat): Data {
    match width
    case 1 => Int(UInt8, v)
    case 2 => Int(UInt16, v)
    case 4 => Int(UInt32, v)
    case _ => Int(UInt64, v)
  }

  /** cbor_negint_to_iot_data: the next type up where the width is too small for the sign. */
  function ConvertNegint(width: nat, raw: nat): Data {
    match width
    case 1 => if raw <= 0x7F then Int(Int8, -1 - raw) else Int(Int16, -1 - raw)
    case 2 => if raw <= 0x7FFF then Int(Int16, -1 - raw) else Int(Int32, -1 - raw)
    case 4 => if raw <= 0x7FFF_FFFF then Int(Int32, -1 - raw) else Int(Int64, -1 - raw)
    case _ => if raw <= 0x7FFF_FFFF_FFFF_FFFF then Int(Int64, -1 - raw) else Null
  }

  /** cbor_to_iot_data */
  function Convert(item: Item): Data
    decreases item, 1
  {
    match item
    case UInt(width, v) => ConvertUint(width, v)
    case NegInt(width, raw) => ConvertNegint(width, raw)
    case Binary(bytes) => Array(true, |bytes|, 1, bytes, true)
    case Text(chars) => Str(UpToNul(chars))
    case Sequence(items) => Vector(ConvertSeq(items))
    case Table(pairs) => Map(ConvertPairs(pairs))
    case False => Bool(false)
    case True => Bool(true)
    case Nil => Null
  }

  function ConvertSeq(items: seq<Item>): (ds: seq<Data>)
    ensures |ds| == |items|
    decreases items, 0
  {
    if items == [] then [] else [Convert(items[0])] + ConvertSeq(items[1..])
  }

  /** The pairs are added to the map one after the other. */
  function ConvertPairs(pairs: seq<Pair>): seq<Entry>
    decreases pairs, 0
  {
    if pairs == [] then []
    else
      var before := ConvertPairs(pairs[..|pairs| - 1]);
      var e := ConvertPair(pairs[|pairs| - 1]);
      Put(before, e.key, e.value)
  }

  function ConvertPair(p: Pair): Entry
    decreases p, 1
  {
    Entry(Convert(p.key), Convert(p.value))
  }

  // ---------------------------------------------------------------- the decoder reads what was written

  lemma ParseFromHead(value: nat, major: nat, body: seq<Byte>)
    requires value < WORD64 && major < 8
    ensures WriteUint(value, major * 32) + body != []
    ensures Parse(WriteUint(value, major * 32) + body) ==
      ParseBody(Head(major, Width(value), value, body), |WriteUint(value, major * 32) + body|)
  {
    HeadRoundTrip(value, major, body);
    hide ParseHead, ParseBody, WriteUint;
  }

  lemma ParseString(major: nat, chars: seq<Byte>, tail: seq<Byte>)
    requires (major == 2 || major == 3) && |chars| < WORD64
    ensures Parse(WriteUint(|chars|, major * 32) + chars + tail) ==
      Some(Parsed(if major == 2 then Binary(chars) else Text(chars), tail))
  {
    Assoc(WriteUint(|chars|, major * 32), chars, tail);
    ParseFromHead(|chars|, major, chars + tail);
    hide Parse, WriteUint;
    assert (chars + tail)[..|chars|] == chars && (chars + tail)[|chars|..] == tail;
  }

  lemma ParseInt(v: int, tail: seq<Byte>)
    requires -0x8000_0000_0000_0000 <= v < WORD64
    ensures Parse(WriteInt(v) + tail) ==
      Some(Parsed(if v < 0 then NegInt(Width(-1 - v), -1 - v) else UInt(Width(v), v), tail))
  {
    if v < 0 { ParseFromHead(-1 - v, 1, tail); } else { ParseFromHead(v, 0, tail); }
    hide Parse, WriteUint;
  }

  lemma ParseSimple(b: Byte, item: Item, tail: seq<Byte>)
    requires (b == 0xf4 && item == False) || (b == 0xf5 && item == True) || (b == 0xf6 && item == Nil)
    ensures Parse([b] + tail) == Some(Parsed(item, tail))
  {
    ShortHead(b - 0xe0, 7, tail);
    hide ParseHead;
  }

  lemma ParseScalar(d: Data, tail: seq<Byte>)
    requires Scalar(d) || d.Missing?
    ensures Parse(EncodeScalar(d) + tail) == Some(Parsed(ScalarItem(d), tail))
  {
    hide Parse, WriteInt;
    if d.Int? {
      ParseInt(d.value, tail);
    } else if d.Bool? {
      ParseSimple(if d.truth then 0xf5 else 0xf4, if d.truth then True else False, tail);
    } else {
      ParseSimple(0xf6, Nil, tail);
    }
  }

  lemma ItemsStep(n: nat, first: seq<Byte>, others: seq<Byte>, tail: seq<Byte>, item: Item, items: seq<Item>)
    requires Parse(first + (others + tail)) == Some(Parsed(item, others + tail))
    requires ParseItems(n, others + tail) == Some(Parsed(items, tail))
    ensures ParseItems(n + 1, first + others + tail) == Some(Parsed([item] + items, tail))
  {
    Assoc(first, others, tail);
    hide Parse;
  }

  lemma {:induction false} ParseScalars(ds: seq<Data>, tail: seq<Byte>)
    requires forall i :: 0 <= i < |ds| ==> Scalar(ds[i])
    ensures ParseItems(|ds|, EncodeScalars(ds) + tail) == Some(Parsed(ScalarItems(ds), tail))
  {
    if ds == [] {
      NoPrefix(tail);
    } else {
      ParseScalars(ds[1..], tail);
      ParseScalar(ds[0], EncodeScalars(ds[1..]) + tail);
      hide ParseItems, Scalar;
      ItemsStep(|ds| - 1, EncodeScalar(ds[0]), EncodeScalars(ds[1..]), tail, ScalarItem(ds[0]), ScalarItems(ds[1..]));
    }
  }

  lemma ParseSequence(n: nat, body: seq<Byte>, items: seq<Item>, tail: seq<Byte>)
    requires n < WORD64 && ParseItems(n, body + tail) == Some(Parsed(items, tail))
    ensures Parse(WriteUint(n, 0x80) + body + tail) == Some(Parsed(Sequence(items), tail))
  {
    Assoc(WriteUint(n, 0x80), body, tail);
    ParseFromHead(n, 4, body + tail);
    hide Parse, ParseItems, WriteUint;
  }

  lemma ParseTable(n: nat, body: seq<Byte>, pairs: seq<Pair>, tail: seq<Byte>)
    requires n < WORD64 && ParsePairs(n, body + tail) == Some(Parsed(pairs, tail))
    ensures Parse(WriteUint(n, 0xA0) + body + tail) == Some(Parsed(Table(pairs), tail))
  {
    Assoc(WriteUint(n, 0xA0), body, tail);
    ParseFromHead(n, 5, body + tail);
    hide Parse, ParsePairs, WriteUint;
  }

  lemma PairsStep(n: nat, key: seq<Byte>, value: seq<Byte>, others: seq<Byte>, tail: seq<Byte>, p: Pair, pairs: seq<Pair>)
    requires Parse(key + (value + (others + tail))) == Some(Parsed(p.key, value + (others + tail)))
    requires Parse(value + (others + tail)) == Some(Parsed(p.value, others + tail))
    requires ParsePairs(n, others + tail) == Some(Parsed(pairs, tail))
    ensures ParsePairs(n + 1, key + value + others + tail) == Some(Parsed([p] + pairs, tail))
  {
    Assoc(key + value, others, tail);
    Assoc(key, value, others + tail);
    hide Parse;
  }

  lemma ElementIsScalar(code: nat, bytes: seq<Byte>)
    requires ElementType(code) && |bytes| == ElementSize(code)
    ensures Scalar(ElementValue(code, bytes))
  {
    ElementBounds(bytes);
    Powers();
    hide LittleEndian, Power;
  }

  lemma {:induction false} ElementsAreScalar(code: nat, bytes: seq<Byte>, n: nat)
    requires ElementType(code) && |bytes| == n * ElementSize(code)
    ensures |ElementsFrom(code, bytes)| == n
    ensures forall i :: 0 <= i < n ==> Scalar(ElementsFrom(code, bytes)[i])
    decreases n
  {
    var size := ElementSize(code);
    assert size > 0;
    if n > 0 {
      assert |bytes| == (n - 1) * size + size;
      ElementIsScalar(code, bytes[..size]);
      ElementsAreScalar(code, bytes[size..], n - 1);
    }
  }

  /** The decoder finds in the bytes of a value its item, and leaves what follows. */
  lemma {:induction false} ParseEncoded(d: Data, tail: seq<Byte>)
    requires Encodable(d)
    ensures Parse(Encode(d) + tail) == Some(Parsed(ItemOf(d), tail))
    decreases d, 1
  {
    hide Parse, ParseItems, ParsePairs, WriteUint, EncodeScalars, ScalarItems, Elements, KeysDiffer;
    match d
    case Str(chars) => ParseString(3, chars, tail);
    case Array(binary, length, element, bytes, _) =>
      if binary {
        ParseString(2, bytes, tail);
      } else {
        ElementsOf(d);
        ParseScalars(Elements(d), tail);
        ParseSequence(length, EncodeScalars(Elements(d)), ScalarItems(Elements(d)), tail);
      }
    case Vector(slots) =>
      ParseEncodedSeq(slots, tail);
      ParseSequence(|slots|, EncodeSeq(slots), ItemsOf(slots), tail);
    case List(elements) =>
      ParseEncodedSeq(elements, tail);
      ParseSequence(|elements|, EncodeSeq(elements), ItemsOf(elements), tail);
    case Map(entries) =>
      ParseEncodedEntries(entries, tail);
      ParseTable(|entries|, EncodeEntries(entries), PairsOf(entries), tail);
    case _ => ParseScalar(d, tail);
  }

  lemma ElementsOf(d: Data)
    requires d.Array? && !d.binary && Encodable(d)
    ensures |Elements(d)| == d.length < WORD64
    ensures forall i :: 0 <= i < |Elements(d)| ==> Scalar(Elements(d)[i])
  {
    ElementsAreScalar(d.element, d.bytes, d.length);
    assert ElementSize(d.element) >= 1;
    assert d.length * ElementSize(d.element) >= d.length;
  }

  lemma {:induction false} ParseEncodedSeq(ds: seq<Data>, tail: seq<Byte>)
    requires EncodableSeq(ds)
    ensures ParseItems(|ds|, EncodeSeq(ds) + tail) == Some(Parsed(ItemsOf(ds), tail))
    decreases ds, 0
  {
    if ds == [] {
      NoPrefix(tail);
    } else {
      ParseEncodedSeq(ds[1..], tail);
      ParseEncoded(ds[0], EncodeSeq(ds[1..]) + tail);
      hide Parse, ParseItems, Encode, Encodable;
      ItemsStep(|ds| - 1, Encode(ds[0]), EncodeSeq(ds[1..]), tail, ItemOf(ds[0]), ItemsOf(ds[1..]));
    }
  }

  lemma {:induction false} ParseEncodedEntries(es: seq<Entry>, tail: seq<Byte>)
    requires EncodableEntries(es)
    ensures ParsePairs(|es|, EncodeEntries(es) + tail) == Some(Parsed(PairsOf(es), tail))
    decreases es, 0
  {
    if es == [] {
      NoPrefix(tail);
    } else {
      var rest := EncodeEntries(es[1..]);
      ParseEncodedEntries(es[1..], tail);
      ParseEncodedEntry(es[0], rest + tail);
      hide Parse, ParsePairs, Encode, Encodable;
      PairsStep(|es| - 1, Encode(es[0].key), Encode(es[0].value), rest, tail, PairOf(es[0]), PairsOf(es[1..]));
    }
  }

  lemma {:induction false} ParseEncodedEntry(e: Entry, tail: seq<Byte>)
    requires EncodableEntry(e)
    ensures Parse(Encode(e.key) + (Encode(e.value) + tail)) == Some(Parsed(ItemOf(e.key), Encode(e.value) + tail))
    ensures Parse(Encode(e.value) + tail) == Some(Parsed(ItemOf(e.value), tail))
    decreases e, 1
  {
    ParseEncoded(e.key, Encode(e.value) + tail);
    if e.value.Missing? {
      ParseScalar(e.value, tail);
    } else {
      ParseEncoded(e.value, tail);
    }
  }

  /** No encoding is a proper prefix of another: what follows one cannot be part of it. */
  lemma PrefixFree(a: Data, b: Data, s: seq<Byte>, t: seq<Byte>)
    requires Encodable(a) && Encodable(b) && Encode(a) + s == Encode(b) + t
    ensures s == t && ItemOf(a) == ItemOf(b) && Encode(a) == Encode(b)
  {
    ParseEncoded(a, s);
    ParseEncoded(b, t);
    hide Parse, Encode, ItemOf, Encodable;
    assert |Encode(a)| == |Encode(b)|;
    assert (Encode(a) + s)[..|Encode(a)|] == Encode(a);
  }

  // ---------------------------------------------------------------- the same value comes back

  /** The least type that holds the number: unsigned, or signed if it is negative. */
  function LeastType(v: int): IntType {
    if v >= 0x1_0000_0000 then UInt64
    else if v >= 0x1_0000 then UInt32
    else if v >= 0x100 then UInt16
    else if v >= 0 then UInt8
    else if v >= -0x80 then Int8
    else if v >= -0x8000 then Int16
    else if v >= -0x8000_0000 then Int32
    else Int64
  }

  /** The same text, bytes, truth, nothing, sequence or map, and the same number with the least type that holds it.
      Vectors and lists are sequences, and so is an array, of the values that its memory holds. */
  ghost predicate Same(a: Data, b: Data)
    decreases a, 1
  {
    match a
    case Int(_, v) => b == Int(LeastType(v), v)
    case Bool(truth) => b == a
    case Null => b == Null
    case Missing => b == Null
    case Str(chars) => b == a
    case Array(binary, _, element, bytes, _) =>
      if binary then b.Array? && b.binary && b.bytes == bytes
      else b.Vector? && exists ds :: Holds(element, ds, bytes) && |b.slots| == |ds| && SameScalars(ds, b.slots)
    case Vector(slots) => b.Vector? && |b.slots| == |slots| && SameSeq(slots, b.slots)
    case List(elements) => b.Vector? && |b.slots| == |elements| && SameSeq(elements, b.slots)
    case Map(entries) => b.Map? && |b.entries| == |entries| && SameEntries(entries, b.entries)
    case _ => false
  }

  ghost predicate SameScalar(a: Data, b: Data) {
    match a
    case Int(_, v) => b == Int(LeastType(v), v)
    case Bool(_) => b == a
    case _ => b == Null
  }

  ghost predicate SameScalars(xs: seq<Data>, ys: seq<Data>)
    requires |xs| == |ys|
  {
    forall i :: 0 <= i < |xs| ==> SameScalar(xs[i], ys[i])
  }

  ghost predicate SameSeq(xs: seq<Data>, ys: seq<Data>)
    requires |xs| == |ys|
    decreases xs, 0
  {
    xs != [] ==> Same(xs[0], ys[0]) && SameSeq(xs[1..], ys[1..])
  }

  /** Each entry has its counterpart; the keys on both sides are distinct. */
  ghost predicate SameEntries(xs: seq<Entry>, ys: seq<Entry>)
    decreases xs, 0
  {
    xs != [] ==> (exists j :: 0 <= j < |ys| && SameEntry(xs[0], ys[j])) && SameEntries(xs[1..], ys)
  }

  ghost predicate SameEntry(x: Entry, y: Entry)
    decreases x, 1
  {
    Same(x.key, y.key) && Same(x.value, y.value)
  }

  lemma WidthHolds(v: nat)
    requires v < WORD64
    ensures ConvertUint(Width(v), v) == Int(LeastType(v), v)
    ensures v < 0x8000_0000_0000_0000 ==> ConvertNegint(Width(v), v) == Int(LeastType(-1 - v), -1 - v)
  {
  }

  lemma ScalarConverts(d: Data)
    requires Scalar(d) || d.Missing?
    ensures SameScalar(d, Convert(ScalarItem(d)))
  {
    if d.Int? { WidthHolds(if d.value < 0 then -1 - d.value else d.value); }
  }

  lemma {:induction false} ScalarsConvert(ds: seq<Data>)
    requires forall i :: 0 <= i < |ds| ==> Scalar(ds[i])
    ensures |ScalarItems(ds)| == |ds|
    ensures SameScalars(ds, ConvertSeq(ScalarItems(ds)))
  {
    if ds != [] {
      hide SameScalar, Scalar, ScalarItem, Convert;
      ScalarConverts(ds[0]);
      ScalarsConvert(ds[1..]);
    }
  }

  lemma {:induction false} PutAbsent(es: seq<Entry>, key: Data, value: Data)
    requires forall i :: 0 <= i < |es| ==> Cmp(es[i].key, key) != 0
    ensures multiset(Put(es, key, value)) == multiset(es) + multiset{Entry(key, value)}
  {
    hide Cmp;
    if es != [] {
      PutAbsent(es[1..], key, value);
      assert es == [es[0]] + es[1..];
    }
  }

  function ConvertedPairs(pairs: seq<Pair>): seq<Entry> {
    if pairs == [] then [] else ConvertedPairs(pairs[..|pairs| - 1]) + [ConvertPair(pairs[|pairs| - 1])]
  }

  lemma {:induction false} ConvertedAt(pairs: seq<Pair>)
    ensures |ConvertedPairs(pairs)| == |pairs|
    ensures forall i :: 0 <= i < |pairs| ==> ConvertedPairs(pairs)[i] == ConvertPair(pairs[i])
  {
    if pairs != [] {
      hide ConvertPair;
      ConvertedAt(pairs[..|pairs| - 1]);
    }
  }

  /** With distinct keys nothing is overwritten. */
  lemma {:induction false} NothingLost(pairs: seq<Pair>)
    requires forall i, j :: 0 <= i < j < |pairs| ==> Cmp(ConvertPair(pairs[i]).key, ConvertPair(pairs[j]).key) != 0
    ensures multiset(ConvertPairs(pairs)) == multiset(ConvertedPairs(pairs))
  {
    if pairs != [] {
      hide Cmp, ConvertPair, Put;
      var front := pairs[..|pairs| - 1];
      var e := ConvertPair(pairs[|pairs| - 1]);
      NothingLost(front);
      ConvertedAt(front);
      forall i | 0 <= i < |ConvertPairs(front)| ensures Cmp(ConvertPairs(front)[i].key, e.key) != 0 {
        assert ConvertPairs(front)[i] in multiset(ConvertPairs(front));
        assert ConvertPairs(front)[i] in ConvertedPairs(front);
      }
      PutAbsent(ConvertPairs(front), e.key, e.value);
    }
  }

  lemma {:induction false} PairsAt(es: seq<Entry>, i: nat)
    requires i < |es|
    ensures PairsOf(es)[i] == PairOf(es[i])
  {
    if i > 0 { PairsAt(es[1..], i - 1); }
  }

  /** Every entry of the map is among the converted ones, and there are no others. */
  lemma MapConverts(es: seq<Entry>)
    requires KeysDiffer(es)
    ensures |ConvertPairs(PairsOf(es))| == |es|
    ensures forall i :: 0 <= i < |es| ==> ConvertPair(PairOf(es[i])) in ConvertPairs(PairsOf(es))
  {
    hide Cmp, Convert, ItemOf, ConvertPairs;
    var pairs := PairsOf(es);
    forall i | 0 <= i < |es| ensures pairs[i] == PairOf(es[i]) { PairsAt(es, i); }
    NothingLost(pairs);
    ConvertedAt(pairs);
    assert |multiset(ConvertPairs(pairs))| == |multiset(ConvertedPairs(pairs))|;
    forall i | 0 <= i < |es| ensures ConvertPair(PairOf(es[i])) in ConvertPairs(pairs) {
      assert ConvertedPairs(pairs)[i] in multiset(ConvertPairs(pairs));
    }
  }

  /** Writing a value and reading it back gives the same value. */
  lemma {:induction false} SameComesBack(d: Data)
    requires Encodable(d) || d.Missing?
    ensures Same(d, Convert(ItemOf(d)))
    decreases d, 1
  {
    hide Elements, ScalarItems, KeysDiffer, Cmp, Holds, SameScalars;
    match d
    case Str(chars) => NulFree(chars);
    case Array(binary, length, element, bytes, _) =>
      if !binary {
        ElementsOf(d);
        ScalarsConvert(Elements(d));
        ElementsHeld(d);
        ArrayIsSame(d, Convert(ItemOf(d)), Elements(d));
      }
    case Vector(slots) => SameSeqComesBack(slots);
    case List(elements) => SameSeqComesBack(elements);
    case Map(entries) =>
      MapConverts(entries);
      SameEntriesComeBack(entries, ConvertPairs(PairsOf(entries)));
    case _ => ScalarConverts(d);
  }

  lemma ElementsHeld(d: Data)
    requires d.Array? && !d.binary && Encodable(d)
    ensures Holds(d.element, Elements(d), d.bytes)
  {
    MemoryHoldsElements(d.element, d.length, d.bytes);
  }

  lemma ArrayIsSame(a: Data, b: Data, ds: seq<Data>)
    requires a.Array? && !a.binary && b.Vector? && |b.slots| == |ds|
    requires Holds(a.element, ds, a.bytes) && SameScalars(ds, b.slots)
    ensures Same(a, b)
  {
    hide Holds, SameScalars;
  }

  lemma {:induction false} SameSeqComesBack(ds: seq<Data>)
    requires EncodableSeq(ds)
    ensures SameSeq(ds, ConvertSeq(ItemsOf(ds)))
    decreases ds, 0
  {
    if ds != [] {
      SameComesBack(ds[0]);
      SameSeqComesBack(ds[1..]);
      hide Same, Convert, ItemOf;
    }
  }

  lemma {:induction false} SameEntriesComeBack(es: seq<Entry>, back: seq<Entry>)
    requires EncodableEntries(es)
    requires forall i :: 0 <= i < |es| ==> ConvertPair(PairOf(es[i])) in back
    ensures SameEntries(es, back)
    decreases es, 0
  {
    if es != [] {
      SameEntryComesBack(es[0]);
      SameEntriesComeBack(es[1..], back);
      hide ConvertPair, PairOf, Same;
      var j :| 0 <= j < |back| && back[j] == ConvertPair(PairOf(es[0]));
      assert SameEntry(es[0], back[j]);
    }
  }

  lemma {:induction false} SameEntryComesBack(e: Entry)
    requires EncodableEntry(e)
    ensures SameEntry(e, ConvertPair(PairOf(e)))
    decreases e, 1
  {
    SameComesBack(e.key);
    SameComesBack(e.value);
  }

  /** iot_data_from_cbor: the bytes must start with an item. */
  function Decode(bytes: seq<Byte>): Option<Data> {
    match Parse(bytes)
    case None => None
    case Some(p) => Some(Convert(p.value))
  }

  /** The round trip: decoding what was encoded, with anything behind it, gives the same value back. */
  lemma RoundTrip(d: Data, tail: seq<Byte>)
    requires Encodable(d)
    ensures Parse(Encode(d) + tail).Some? && Parse(Encode(d) + tail).value.rest == tail
    ensures Decode(Encode(d) + tail).Some? && Same(d, Decode(Encode(d) + tail).value)
  {
    ParseEncoded(d, tail);
    SameComesBack(d);
    hide Parse, Encode, Same, Convert, ItemOf, Encodable;
  }

  // ---------------------------------------------------------------- arrays and foreign numbers

  lemma {:induction false} ScalarsAsSeq(ds: seq<Data>)
    requires forall i :: 0 <= i < |ds| ==> Scalar(ds[i])
    ensures EncodeScalars(ds) == EncodeSeq(ds)
  {
    if ds != [] {
      assert Encode(ds[0]) == EncodeScalar(ds[0]);
      ScalarsAsSeq(ds[1..]);
    }
  }

  /** An array is written as the vector of the values in its memory. */
  lemma ArrayAsVector(d: Data, ds: seq<Data>)
    requires d.Array? && !d.binary && Encodable(d) && Holds(d.element, ds, d.bytes)
    ensures |ds| == d.length && Encode(d) == Encode(Vector(ds))
  {
    hide Encodable, Elements, Holds, Scalar, EncodeScalars, EncodeSeq, WriteUint;
    ElementsOf(d);
    ElementsAreTheValues(d, ds);
    ScalarsAsSeq(ds);
  }

  predicate Signed(kind: IntType) {
    kind == Int8 || kind == Int16 || kind == Int32 || kind == Int64
  }

  function Octets(kind: IntType): nat {
    if kind == Int8 || kind == UInt8 then 1
    else if kind == Int16 || kind == UInt16 then 2
    else if kind == Int32 || kind == UInt32 then 4
    else 8
  }

  /** Of a number that anybody encoded in 1, 2, 4 or 8 bytes comes the unsigned type of this width or, if it is negative,
      the least signed type from there on that holds it; what no type holds becomes null. */
  lemma TypesByWidth(width: nat, raw: nat, kind: IntType)
    requires width in [1, 2, 4, 8] && raw < Power(width)
    ensures ConvertUint(width, raw).Int? && ConvertUint(width, raw).value == raw
    ensures kind == ConvertUint(width, raw).kind <==> !Signed(kind) && Octets(kind) == width
    ensures var d := ConvertNegint(width, raw);
      if raw >= 0x8000_0000_0000_0000 then d == Null
      else
        && d.Int? && d.value == -1 - raw && Signed(d.kind) && InRange(d.kind, -1 - raw) && width <= Octets(d.kind)
        && (Signed(kind) && InRange(kind, -1 - raw) && width <= Octets(kind) ==> Octets(d.kind) <= Octets(kind))
  {
    Powers();
    hide Power;
  }
}
