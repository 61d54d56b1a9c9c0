// The elements of an array of integers or booleans: what the raw memory of src/c/data.c stands for on a machine that
// stores the least significant byte first.
module ArrayElements {
  import opened Bytes
  import opened DataOrder

  function Power(n: nat): (p: nat)
    ensures p > 0
  {
    if n == 0 then 1 else 256 * Power(n - 1)
  }

  predicate InRange(kind: IntType, v: int) {
    match kind
    case Int8 => -0x80 <= v < 0x80
    case UInt8 => 0 <= v < 0x100
    case Int16 => -0x8000 <= v < 0x8000
    case UInt16 => 0 <= v < 0x1_0000
    case Int32 => -0x8000_0000 <= v < 0x8000_0000
    case UInt32 => 0 <= v < 0x1_0000_0000
    case Int64 => -0x8000_0000_0000_0000 <= v < 0x8000_0000_0000_0000
    case UInt64 => 0 <= v < 0x1_0000_0000_0000_0000
  }

  function ElementSize(code: nat): nat {
    if code < 2 || code == 10 then 1 else if code < 4 then 2 else if code < 6 then 4 else if code < 8 then 8 else 0
  }

  /** Integers and booleans; floats are left out. */
  predicate ElementType(code: nat) {
    code < 8 || code == 10
  }

  function KindOf(code: nat): IntType {
    match code
    case 0 => Int8
    case 1 => UInt8
    case 2 => Int16
    case 3 => UInt16
    case 4 => Int32
    case 5 => UInt32
    case 6 => Int64
    case _ => UInt64
  }

  function LittleEndian(bytes: seq<Byte>): nat {
    if bytes == [] then 0 else bytes[0] + 256 * LittleEndian(bytes[1..])
  }

  /** The value in memory, in two's complement where the type is signed. */
  function ElementValue(code: nat, bytes: seq<Byte>): Data {
    var n := LittleEndian(bytes);
    if code == 10 then Bool(n != 0)
    else if code % 2 == 0 && n >= Power(|bytes|) / 2 then Int(KindOf(code), n - Power(|bytes|))
    else Int(KindOf(code), n)
  }

  function ElementsFrom(code: nat, bytes: seq<Byte>): seq<Data>
    decreases |bytes|
  {
    if !ElementType(code) || |bytes| < ElementSize(code) then []
    else [ElementValue(code, bytes[..ElementSize(code)])] + ElementsFrom(code, bytes[ElementSize(code)..])
  }

  function Elements(d: Data): seq<Data>
    requires d.Array?
  {
    ElementsFrom(d.element, d.bytes)
  }

  // ---------------------------------------------------------------- what is in memory

  /** Where the value is stored, and what it is: every byte of the memory in terms of the number, reduced to the width of
      its type, and any byte but zero for true. */
  ghost predicate StoredAs(code: nat, d: Data, bytes: seq<Byte>) {
    match code
    case 0 => Stores(Int8, 1, d, bytes)
    case 1 => Stores(UInt8, 1, d, bytes)
    case 2 => Stores(Int16, 2, d, bytes)
    case 3 => Stores(UInt16, 2, d, bytes)
    case 4 => Stores(Int32, 4, d, bytes)
    case 5 => Stores(UInt32, 4, d, bytes)
    case 6 => Stores(Int64, 8, d, bytes)
    case 7 => Stores(UInt64, 8, d, bytes)
    case 10 => |bytes| == 1 && d == Bool(bytes[0] != 0)
    case _ => false
  }

  ghost predicate Stores(kind: IntType, size: nat, d: Data, bytes: seq<Byte>) {
    && d.Int? && d.kind == kind && InRange(kind, d.value) && |bytes| == size
    && (forall k :: 0 <= k < size ==> bytes[k] == d.value % Power(size) / Power(k) % 256)
  }

  /** The memory is that of the values, one after the other. */
  ghost predicate Holds(code: nat, ds: seq<Data>, bytes: seq<Byte>)
    decreases |ds|
  {
    if ds == [] then bytes == []
    else exists size: nat :: size <= |bytes| && StoredAs(code, ds[0], bytes[..size]) && Holds(code, ds[1..], bytes[size..])
  }

  lemma {:induction false} ElementBounds(bytes: seq<Byte>)
    ensures LittleEndian(bytes) < Power(|bytes|)
  {
    if bytes != [] { ElementBounds(bytes[1..]); }
  }

  lemma Powers()
    ensures Power(0) == 1 && Power(1) == 0x100 && Power(2) == 0x1_0000 && Power(4) == 0x1_0000_0000 && Power(8) == WORD64
  {
    assert Power(3) == 256 * Power(2) && Power(5) == 256 * Power(4) && Power(6) == 256 * Power(5) && Power(7) == 256 * Power(6);
  }

  lemma DivideTwice(w: nat, p: nat)
    requires p > 0
    ensures w / (256 * p) == w / 256 / p
  {
    var a, q := w / 256, w / 256 / p;
    var r := a - q * p;
    assert 0 <= r < p by { assert a == p * (a / p) + a % p; }
    var rest := 256 * r + w % 256;
    assert w == 256 * a + w % 256;
    assert w == 256 * (q * p) + rest;
    assert 256 * (q * p) == (256 * p) * q;
    Quotient(w, 256 * p, q, rest);
  }

  lemma Quotient(w: nat, d: nat, q: nat, r: nat)
    requires d > 0 && w == d * q + r && r < d
    ensures w / d == q
  {
    var k := w / d - q;
    assert w == d * (w / d) + w % d;
    assert d * k == d * (w / d) - d * q;
    Multiple(d, k);
  }

  lemma Multiple(d: int, k: int)
    requires d > 0
    ensures k > 0 ==> d * k >= d
    ensures k < 0 ==> d * k <= -d
  {
  }

  /** The digits to the base 256 make up the number. */
  lemma {:induction false} FromDigits(bytes: seq<Byte>, w: nat)
    requires w < Power(|bytes|) && (forall k :: 0 <= k < |bytes| ==> bytes[k] == w / Power(k) % 256)
    ensures LittleEndian(bytes) == w
    decreases |bytes|
  {
    if bytes != [] {
      assert bytes[0] == w / Power(0) % 256;
      forall k | 0 <= k < |bytes| - 1
        ensures bytes[1..][k] == w / 256 / Power(k) % 256
      {
        DivideTwice(w, Power(k));
        assert bytes[1..][k] == bytes[k + 1] && Power(k + 1) == 256 * Power(k);
      }
      FromDigits(bytes[1..], w / 256);
    }
  }

  lemma {:induction false} DigitOf(bytes: seq<Byte>, k: nat)
    requires k < |bytes|
    ensures LittleEndian(bytes) / Power(k) % 256 == bytes[k]
    decreases k
  {
    var n, rest := LittleEndian(bytes), LittleEndian(bytes[1..]);
    Quotient(n, 256, rest, bytes[0]);
    if k > 0 {
      DivideTwice(n, Power(k - 1));
      DigitOf(bytes[1..], k - 1);
    }
  }

  /** The range of a type in terms of its width. */
  ghost predicate Fits(signed: bool, size: nat, v: int) {
    if signed then 0 <= 2 * v + Power(size) < 2 * Power(size) else 0 <= v < Power(size)
  }

  lemma Ranges(v: int)
    ensures InRange(Int8, v) <==> Fits(true, 1, v)
    ensures InRange(UInt8, v) <==> Fits(false, 1, v)
    ensures InRange(Int16, v) <==> Fits(true, 2, v)
    ensures InRange(UInt16, v) <==> Fits(false, 2, v)
    ensures InRange(Int32, v) <==> Fits(true, 4, v)
    ensures InRange(UInt32, v) <==> Fits(false, 4, v)
    ensures InRange(Int64, v) <==> Fits(true, 8, v)
    ensures InRange(UInt64, v) <==> Fits(false, 8, v)
  {
    Powers();
    hide Power;
  }

  lemma Residue(v: int, p: int)
    requires p > 0 && -p <= v < p
    ensures v % p == if v >= 0 then v else v + p
  {
    if v >= 0 { Quotient(v, p, 0, v); } else { QuotientBelow(v, p); }
  }

  lemma QuotientBelow(v: int, p: int)
    requires p > 0 && -p <= v < 0
    ensures v % p == v + p
  {
    assert v == p * (v / p) + v % p;
    Multiple(p, v / p + 1);
    assert p * (v / p + 1) == p * (v / p) + p;
  }

  lemma WordIsRead(signed: bool, size: nat, v: int, bytes: seq<Byte>)
    requires Fits(signed, size, v) && |bytes| == size > 0
    requires forall k :: 0 <= k < size ==> bytes[k] == v % Power(size) / Power(k) % 256
    ensures var n := LittleEndian(bytes);
      v == if signed && n >= Power(size) / 2 then n - Power(size) else n
  {
    FromDigits(bytes, v % Power(size));
    Half(size);
    SignOf(signed, v, Power(size));
    hide *;
  }

  lemma SignOf(signed: bool, v: int, p: int)
    requires p > 0 && 2 * (p / 2) == p
    requires if signed then 0 <= 2 * v + p < 2 * p else 0 <= v < p
    ensures v == if signed && v % p >= p / 2 then v % p - p else v % p
  {
    Residue(v, p);
  }

  lemma Half(size: nat)
    requires size > 0
    ensures 2 * (Power(size) / 2) == Power(size)
  {
  }

  lemma RangeOf(code: nat, v: int)
    requires code < 8
    ensures InRange(KindOf(code), v) <==> Fits(code % 2 == 0, ElementSize(code), v)
  {
    Ranges(v);
    hide InRange, Fits;
  }

  lemma StoredMeans(code: nat, d: Data, bytes: seq<Byte>)
    requires ElementType(code) && code != 10
    ensures StoredAs(code, d, bytes) <==> Stores(KindOf(code), ElementSize(code), d, bytes)
  {
    hide Stores;
  }

  lemma Word(code: nat, bytes: seq<Byte>)
    requires code < 8
    ensures var n := LittleEndian(bytes);
      ElementValue(code, bytes) ==
        Int(KindOf(code), if code % 2 == 0 && n >= Power(|bytes|) / 2 then n - Power(|bytes|) else n)
  {
    hide LittleEndian, Power, KindOf;
  }

  lemma NoOtherType(code: nat, d: Data, bytes: seq<Byte>)
    requires StoredAs(code, d, bytes)
    ensures ElementType(code)
  {
    hide Stores;
  }

  lemma StoredIsRead(code: nat, d: Data, bytes: seq<Byte>)
    requires StoredAs(code, d, bytes)
    ensures ElementType(code) && |bytes| == ElementSize(code) && ElementValue(code, bytes) == d
  {
    NoOtherType(code, d, bytes);
    if code == 10 {
      OneByte(bytes);
      hide LittleEndian;
    } else {
      StoredMeans(code, d, bytes);
      RangeOf(code, d.value);
      Word(code, bytes);
      hide InRange, LittleEndian, Fits, Power, ElementValue, KindOf, StoredAs;
      WordIsRead(code % 2 == 0, |bytes|, d.value, bytes);
    }
  }

  lemma OneByte(bytes: seq<Byte>)
    requires |bytes| == 1
    ensures LittleEndian(bytes) == bytes[0]
  {
    assert LittleEndian(bytes) == bytes[0] + 256 * LittleEndian([]);
  }

  lemma WordIsStored(signed: bool, bytes: seq<Byte>) returns (v: int)
    requires bytes != []
    ensures var n := LittleEndian(bytes);
      v == if signed && n >= Power(|bytes|) / 2 then n - Power(|bytes|) else n
    ensures Fits(signed, |bytes|, v)
    ensures forall k :: 0 <= k < |bytes| ==> bytes[k] == v % Power(|bytes|) / Power(k) % 256
  {
    var n: int, p: int := LittleEndian(bytes), Power(|bytes|);
    v := if signed && n >= p / 2 then n - p else n;
    ElementBounds(bytes);
    Half(|bytes|);
    Residue(v, p);
    forall k | 0 <= k < |bytes|
      ensures bytes[k] == v % p / Power(k) % 256
    {
      DigitOf(bytes, k);
    }
  }

  lemma ReadIsStored(code: nat, bytes: seq<Byte>)
    requires ElementType(code) && |bytes| == ElementSize(code)
    ensures StoredAs(code, ElementValue(code, bytes), bytes)
  {
    if code == 10 {
      OneByte(bytes);
      hide LittleEndian;
    } else {
      var v := WordIsStored(code % 2 == 0, bytes);
      RangeOf(code, v);
      Word(code, bytes);
      StoredMeans(code, ElementValue(code, bytes), bytes);
      hide InRange, LittleEndian, Fits, Power, ElementValue, KindOf, StoredAs;
    }
  }

  /** The elements that are read from memory are exactly the values stored there. */
  lemma {:induction false} ElementsAreStored(code: nat, ds: seq<Data>, bytes: seq<Byte>)
    requires Holds(code, ds, bytes)
    ensures ElementsFrom(code, bytes) == ds
    decreases |ds|
  {
    hide StoredAs, ElementValue;
    if ds == [] {
      SomeSize(code);
    } else {
      var size: nat :| size <= |bytes| && StoredAs(code, ds[0], bytes[..size]) && Holds(code, ds[1..], bytes[size..]);
      StoredIsRead(code, ds[0], bytes[..size]);
      ElementsAreStored(code, ds[1..], bytes[size..]);
    }
  }

  lemma SomeSize(code: nat)
    ensures ElementType(code) ==> ElementSize(code) > 0
  {
  }

  /** All memory of a whole number of elements holds values. */
  lemma {:induction false} MemoryHoldsElements(code: nat, n: nat, bytes: seq<Byte>)
    requires ElementType(code) && |bytes| == n * ElementSize(code)
    ensures Holds(code, ElementsFrom(code, bytes), bytes)
    decreases n
  {
    hide StoredAs, ElementValue;
    SomeSize(code);
    if n > 0 {
      var size := ElementSize(code);
      assert |bytes| == (n - 1) * size + size;
      ReadIsStored(code, bytes[..size]);
      MemoryHoldsElements(code, n - 1, bytes[size..]);
      assert ElementsFrom(code, bytes)[1..] == ElementsFrom(code, bytes[size..]);
    }
  }

  /** Every number of the type has its place in memory. */
  lemma NumberHasStorage(code: nat, v: int) returns (bytes: seq<Byte>)
    requires code < 8 && InRange(KindOf(code), v)
    ensures StoredAs(code, Int(KindOf(code), v), bytes)
  {
    var size := ElementSize(code);
    bytes := seq(size, k requires 0 <= k < size => v % Power(size) / Power(k) % 256);
    StoredMeans(code, Int(KindOf(code), v), bytes);
    hide InRange, Power, KindOf, StoredAs, ElementSize;
  }

  /** The array of these values: its elements are they. */
  lemma ElementsAreTheValues(d: Data, ds: seq<Data>)
    requires d.Array? && Holds(d.element, ds, d.bytes)
    ensures Elements(d) == ds
  {
    ElementsAreStored(d.element, ds, d.bytes);
  }
}
