// The part of CBOR that src/c/data-cbor.c writes.
module CborFormat {
  // A decoder for items of definite length, as sections 3 and 3.1 of RFC 8949 define them, and the heads that the
  // writer produces.

  import opened Bytes
  import opened ArrayElements
  import opened Options

  datatype Item =
    | UInt(width: nat, value: nat)
    | NegInt(width: nat, raw: nat)
    | Binary(bytes: seq<Byte>)
    | Text(chars: seq<Byte>)
    | Sequence(items: seq<Item>)
    | Table(pairs: seq<Pair>)
    | False
    | True
    | Nil

  datatype Pair = Pair(key: Item, value: Item)

  /** An initial byte and its argument, of `width` bytes, and what follows. */
  datatype Head = Head(major: nat, width: nat, argument: nat, rest: seq<Byte>)

  datatype Parsed<T> = Parsed(value: T, rest: seq<Byte>)

  // ---------------------------------------------------------------- decoding

  /** A number in network byte order. */
  function Number(bytes: seq<Byte>): nat {
    if bytes == [] then 0 else Number(bytes[..|bytes| - 1]) * 256 + bytes[|bytes| - 1]
  }

  function Argument(major: nat, width: nat, bytes: seq<Byte>): (h: Option<Head>)
    ensures h.Some? ==> width <= |bytes| && h.value.rest == bytes[width..]
  {
    if |bytes| < width then None else Some(Head(major, width, Number(bytes[..width]), bytes[width..]))
  }

  /** Section 3: the additional information is the argument or says how many bytes hold it. */
  function ParseHead(bytes: seq<Byte>): (h: Option<Head>)
    ensures h.Some? ==> |h.value.rest| < |bytes|
  {
    if bytes == [] then None
    else
      var major, info, rest := bytes[0] / 32, bytes[0] % 32, bytes[1..];
      if info < 24 then Some(Head(major, 1, info, rest))
      else if info == 24 then Argument(major, 1, rest)
      else if info == 25 then Argument(major, 2, rest)
      else if info == 26 then Argument(major, 4, rest)
      else if info == 27 then Argument(major, 8, rest)
      else None
  }

  /** Section 3.1: one item and what follows it. */
  function Parse(bytes: seq<Byte>): (p: Option<Parsed<Item>>)
    ensures p.Some? ==> |p.value.rest| < |bytes|
    decreases |bytes|, 0
  {
    match ParseHead(bytes)
    case None => None
    case Some(h) => ParseBody(h, |bytes|)
  }

  /** What a head stands for, in the first of `bound` bytes. The simple values are those of the initial byte itself:
      section 3.3 does not let a second byte hold them. */
  function ParseBody(h: Head, bound: nat): (p: Option<Parsed<Item>>)
    requires |h.rest| < bound
    ensures p.Some? ==> |p.value.rest| < bound
    decreases |h.rest|, h.argument + 2
  {
    var n := h.argument;
    if h.major == 0 then Some(Parsed(UInt(h.width, n), h.rest))
    else if h.major == 1 then Some(Parsed(NegInt(h.width, n), h.rest))
    else if h.major == 2 || h.major == 3 then
      if |h.rest| < n then None
      else Some(Parsed(if h.major == 2 then Binary(h.rest[..n]) else Text(h.rest[..n]), h.rest[n..]))
    else if h.major == 4 then
      match ParseItems(n, h.rest)
      case None => None
      case Some(p) => Some(Parsed(Sequence(p.value), p.rest))
    else if h.major == 5 then
      match ParsePairs(n, h.rest)
      case None => None
      case Some(p) => Some(Parsed(Table(p.value), p.rest))
    else if h.major == 7 && |h.rest| + 1 == bound && n == 20 then Some(Parsed(False, h.rest))
    else if h.major == 7 && |h.rest| + 1 == bound && n == 21 then Some(Parsed(True, h.rest))
    else if h.major == 7 && |h.rest| + 1 == bound && n == 22 then Some(Parsed(Nil, h.rest))
    else None
  }

  function ParseItems(n: nat, bytes: seq<Byte>): (p: Option<Parsed<seq<Item>>>)
    ensures p.Some? ==> |p.value.rest| <= |bytes|
    decreases |bytes|, n + 1
  {
    if n == 0 then Some(Parsed([], bytes))
    else
      match Parse(bytes)
      case None => None
      case Some(first) =>
        match ParseItems(n - 1, first.rest)
        case None => None
        case Some(others) => Some(Parsed([first.value] + others.value, others.rest))
  }

  function ParsePairs(n: nat, bytes: seq<Byte>): (p: Option<Parsed<seq<Pair>>>)
    ensures p.Some? ==> |p.value.rest| <= |bytes|
    decreases |bytes|, n + 1
  {
    if n == 0 then Some(Parsed([], bytes))
    else
      match Parse(bytes)
      case None => None
      case Some(key) =>
        match Parse(key.rest)
        case None => None
        case Some(value) =>
          match ParsePairs(n - 1, value.rest)
          case None => None
          case Some(others) => Some(Parsed([Pair(key.value, value.value)] + others.value, others.rest))
  }

  // ---------------------------------------------------------------- heads

  /** htobe16 and its kin: the last `n` bytes of the number, the most significant first. */
  function BigEndian(value: nat, n: nat): (bytes: seq<Byte>)
    ensures |bytes| == n
  {
    if n == 0 then [] else BigEndian(value / 256, n - 1) + [value % 256]
  }

  /** How many bytes libcbor keeps for the argument. */
  function Width(value: nat): nat {
    if value <= 0xFF then 1 else if value <= 0xFFFF then 2 else if value <= 0xFFFF_FFFF then 4 else 8
  }

  /** iot_data_cbor_write_uint */
  function WriteUint(value: nat, tag: Byte): seq<Byte>
    requires tag % 32 == 0
  {
    if value < 0x18 then [value + tag]
    else if value <= 0xFF then [0x18 + tag, value]
    else if value <= 0xFFFF then [0x19 + tag] + BigEndian(value, 2)
    else if value <= 0xFFFF_FFFF then [0x1a + tag] + BigEndian(value, 4)
    else [0x1b + tag] + BigEndian(value, 8)
  }

  lemma {:induction false} BigEndianNumber(value: nat, n: nat)
    requires value < Power(n)
    ensures Number(BigEndian(value, n)) == value
  {
    if n > 0 {
      BigEndianNumber(value / 256, n - 1);
      assert BigEndian(value, n)[..n - 1] == BigEndian(value / 256, n - 1);
    }
  }

  lemma ArgumentRoundTrip(major: nat, width: nat, value: nat, tail: seq<Byte>)
    requires value < Power(width)
    ensures Argument(major, width, BigEndian(value, width) + tail) == Some(Head(major, width, value, tail))
  {
    BigEndianNumber(value, width);
    var bytes := BigEndian(value, width);
    assert (bytes + tail)[..width] == bytes && (bytes + tail)[width..] == tail;
  }

  lemma ShortHead(value: nat, major: nat, tail: seq<Byte>)
    requires value < 24 && major < 8
    ensures ParseHead([value + major * 32] + tail) == Some(Head(major, 1, value, tail))
  {
    var bytes := [value + major * 32] + tail;
    assert bytes[1..] == tail;
    assert bytes[0] / 32 == major && bytes[0] % 32 == value;
  }

  predicate InfoFor(info: nat, width: nat) {
    (info == 24 && width == 1) || (info == 25 && width == 2) || (info == 26 && width == 4) || (info == 27 && width == 8)
  }

  lemma LongHead(info: nat, width: nat, value: nat, major: nat, tail: seq<Byte>)
    requires InfoFor(info, width) && value < Power(width) && major < 8
    ensures ParseHead([info + major * 32] + BigEndian(value, width) + tail) == Some(Head(major, width, value, tail))
  {
    ArgumentRoundTrip(major, width, value, tail);
    hide Power, Argument;
    var bytes := [info + major * 32] + BigEndian(value, width) + tail;
    assert bytes[1..] == BigEndian(value, width) + tail;
    assert bytes[0] / 32 == major && bytes[0] % 32 == info;
  }

  /** The decoder finds in a head what was written. */
  lemma HeadRoundTrip(value: nat, major: nat, tail: seq<Byte>)
    requires value < WORD64 && major < 8
    ensures ParseHead(WriteUint(value, major * 32) + tail) == Some(Head(major, Width(value), value, tail))
  {
    Powers();
    hide Power, ParseHead, BigEndian;
    if value < 0x18 {
      ShortHead(value, major, tail);
    } else if value <= 0xFF {
      OneByte(value);
      LongHead(24, 1, value, major, tail);
      assert [0x18 + major * 32, value] == [24 + major * 32] + [value];
    } else if value <= 0xFFFF {
      LongHead(25, 2, value, major, tail);
    } else if value <= 0xFFFF_FFFF {
      LongHead(26, 4, value, major, tail);
    } else {
      LongHead(27, 8, value, major, tail);
    }
  }

  lemma OneByte(value: Byte)
    ensures BigEndian(value, 1) == [value]
  {
    assert BigEndian(value / 256, 0) == [];
  }

  lemma {:induction false} NumberBound(bytes: seq<Byte>)
    ensures Number(bytes) < Power(|bytes|)
  {
    if bytes != [] { NumberBound(bytes[..|bytes| - 1]); }
  }

  /** No head with the same meaning is shorter (section 4.1 of RFC 8949). */
  lemma HeadsAreShortest(value: nat, major: nat, head: seq<Byte>)
    requires value < WORD64 && major < 8
    requires ParseHead(head).Some? && ParseHead(head).value.argument == value && ParseHead(head).value.rest == []
    ensures |WriteUint(value, major * 32)| <= |head|
  {
    Powers();
    var width := ParseHead(head).value.width;
    if head[0] % 32 >= 24 {
      assert |head| == width + 1;
      NumberBound(head[1..][..width]);
    }
  }
}
