// The Base64 codec of src/c/base64.c. Both translation tables are written by range.
module Base64 {
  import opened Bytes
  import opened Options
  import opened Sequences

  type Sextet = v: int | 0 <= v < 64

  const WHITESPACE := 64
  const EQUALS := 65
  const INVALID := 66
  const PAD: Byte := '=' as int

  /** The table enc. */
  function Enc(v: Sextet): Byte {
    if v < 26 then 'A' as int + v
    else if v < 52 then 'a' as int + (v - 26)
    else if v < 62 then '0' as int + (v - 52)
    else if v == 62 then '+' as int
    else '/' as int
  }

  /** The table dec: only a line feed counts as white space. */
  function Dec(c: Byte): (v: int)
    ensures 0 <= v <= INVALID
  {
    if 'A' as int <= c <= 'Z' as int then c - 'A' as int
    else if 'a' as int <= c <= 'z' as int then c - 'a' as int + 26
    else if '0' as int <= c <= '9' as int then c - '0' as int + 52
    else if c == '+' as int then 62
    else if c == '/' as int then 63
    else if c == '\n' as int then WHITESPACE
    else if c == PAD then EQUALS
    else INVALID
  }

  /** Each table undoes the other, and no symbol of the alphabet is padding, white space or the terminator. */
  lemma TablesAgree(v: Sextet, c: Byte)
    ensures Dec(Enc(v)) == v && Enc(v) != NUL
    ensures Dec(c) < 64 ==> Enc(Dec(c)) == c
  {
  }

  const CAPITALS := "ABCDEFGHIJKLMNOPQRSTUVWXYZ"
  const SMALL_LETTERS := "abcdefghijklmnopqrstuvwxyz"
  const OTHERS := "0123456789+/"

  /** The base 64 alphabet, table 1 of RFC 4648. */
  const ALPHABET := CAPITALS + SMALL_LETTERS + OTHERS

  lemma Letters(v: nat)
    requires v < 26
    ensures CAPITALS[v] as int == 65 + v && SMALL_LETTERS[v] as int == 97 + v
  {
    assert
      || v == 0 || v == 1 || v == 2 || v == 3 || v == 4 || v == 5 || v == 6 || v == 7 || v == 8
      || v == 9 || v == 10 || v == 11 || v == 12 || v == 13 || v == 14 || v == 15 || v == 16 || v == 17
      || v == 18 || v == 19 || v == 20 || v == 21 || v == 22 || v == 23 || v == 24 || v == 25;
  }

  lemma Digit(v: nat)
    requires v < 12
    ensures OTHERS[v] as int == (if v < 10 then 48 + v else if v == 10 then 43 else 47)
  {
    assert v == 0 || v == 1 || v == 2 || v == 3 || v == 4 || v == 5 || v == 6 || v == 7 || v == 8 || v >= 9;
  }

  /** Both tables are those of the standard, with the line feed as the only white space. */
  lemma AlphabetOfTheStandard(v: Sextet)
    ensures |ALPHABET| == 64 && Enc(v) == ALPHABET[v] as int
    ensures Dec(ALPHABET[v] as int) == v
    ensures forall c: Byte :: (Dec(c) == WHITESPACE <==> c == 10) && (Dec(c) == EQUALS <==> c == 61)
  {
    if v < 26 { Letters(v); }
    else if v < 52 { Letters(v - 26); }
    else { Digit(v - 52); }
  }

  function EncodeSize(binsize: nat): nat {
    binsize / 3 * 4 + (if binsize % 3 != 0 then 4 else 0) + 1
  }

  function MaxDecodeSize(length: nat): nat {
    if length % 4 != 0 then length / 4 * 3 + 2 else length / 4 * 3
  }

  // ---------------------------------------------------------------- encoding

  /** The symbols without the padding. */
  function Symbols(data: seq<Byte>): seq<Byte> {
    if |data| == 0 then []
    else if |data| == 1 then Pair(data[0])
    else if |data| == 2 then Trio(data[0], data[1])
    else
      Quad(data[0], data[1], data[2]) + Symbols(data[3..])
  }

  function Pair(a: Byte): (p: seq<Byte>)
    ensures |p| == 2
  {
    [Enc(a / 4), Enc(a % 4 * 16)]
  }

  function Trio(a: Byte, b: Byte): (t: seq<Byte>)
    ensures |t| == 3
  {
    [Enc(a / 4), Enc(a % 4 * 16 + b / 16), Enc(b % 16 * 4)]
  }

  function Quad(a: Byte, b: Byte, c: Byte): (q: seq<Byte>)
    ensures |q| == 4
  {
    [Enc(a / 4), Enc(a % 4 * 16 + b / 16), Enc(b % 16 * 4 + c / 64), Enc(c % 64)]
  }

  function Padding(symbols: nat): seq<Byte>
    decreases (4 - symbols % 4) % 4
  {
    if symbols % 4 == 0 then [] else [PAD] + Padding(symbols + 1)
  }

  function Encode(data: seq<Byte>): seq<Byte> {
    Symbols(data) + Padding(|Symbols(data)|)
  }

  lemma {:induction false} SymbolCount(data: seq<Byte>)
    ensures |Symbols(data)| == |data| / 3 * 4 + (if |data| % 3 == 0 then 0 else |data| % 3 + 1)
  {
    if |data| >= 3 { SymbolCount(data[3..]); }
  }

  lemma PaddingCount(symbols: nat)
    ensures |Padding(symbols)| == (4 - symbols % 4) % 4
    ensures forall i :: 0 <= i < |Padding(symbols)| ==> Padding(symbols)[i] == PAD
    decreases (4 - symbols % 4) % 4
  {
    if symbols % 4 != 0 {
      PaddingCount(symbols + 1);
    }
  }

  lemma FourTimes(q: nat, r: nat)
    requires r < 4
    ensures (q * 4 + r) % 4 == r
  {
  }

  lemma SizeSum(q: nat, n: nat)
    requires n == 3 * q || n == 3 * q + 1 || n == 3 * q + 2
    ensures n / 3 == q && n % 3 == n - 3 * q
    ensures var k := q * 4 + (if n % 3 == 0 then 0 else n % 3 + 1); k + (4 - k % 4) % 4 + 1 == EncodeSize(n)
  {
    FourTimes(q, 0);
    FourTimes(q, 2);
    FourTimes(q, 3);
  }

  /** The size function is exact, terminator included. */
  lemma EncodeLength(data: seq<Byte>)
    ensures |Encode(data)| + 1 == EncodeSize(|data|)
  {
    SymbolCount(data);
    PaddingCount(|Symbols(data)|);
    SizeSum(|data| / 3, |data|);
    hide Symbols, Padding, EncodeSize;
  }

  /** The symbols read as the digits of a number to base 64. */
  function Number(symbols: seq<Byte>): int {
    if symbols == [] then 0 else Number(symbols[..|symbols| - 1]) * 64 + Dec(symbols[|symbols| - 1])
  }

  /** Where the symbols of group k end: all groups but the last have four. */
  function GroupEnd(data: seq<Byte>, k: nat): nat {
    if 3 * k + 3 <= |data| then 4 * k + 4 else 4 * k + |data| % 3 + 1
  }

  /** The bits of the first group: 24, or those of one or two bytes followed by zeros. */
  function GroupBits(data: seq<Byte>): int
    requires data != []
  {
    var a: int := data[0];
    var b: int := if |data| > 1 then data[1] else 0;
    if |data| == 1 then a * 16
    else if |data| == 2 then (a * 256 + b) * 4
    else a * 65536 + b * 256 + data[2]
  }

  /** Every group of three bytes becomes four symbols that spell the same 24 bits; a last group of one or
      two bytes spells its bits followed by zeros (section 4 of RFC 4648). */
  lemma {:induction false} GroupsSpellTheirBits(data: seq<Byte>, k: nat)
    requires 3 * k < |data|
    ensures 4 * k <= GroupEnd(data, k) <= |Symbols(data)|
    ensures Number(Symbols(data)[4 * k..GroupEnd(data, k)]) == GroupBits(data[3 * k..])
  {
    hide *;
    if k > 0 {
      GroupEndNext(data, k);
      GroupsSpellTheirBits(data[3..], k - 1);
      SymbolsNext(data);
      SliceTail(Quad(data[0], data[1], data[2]), Symbols(data[3..]), 4 * (k - 1), GroupEnd(data, k) - 4);
      assert data[3..][3 * (k - 1)..] == data[3 * k..];
    } else {
      FirstGroup(data);
    }
  }

  lemma SymbolsNext(data: seq<Byte>)
    requires |data| >= 3
    ensures Symbols(data) == Quad(data[0], data[1], data[2]) + Symbols(data[3..])
    ensures |Quad(data[0], data[1], data[2])| == 4
  {
    hide Enc;
  }

  lemma GroupEndNext(data: seq<Byte>, k: nat)
    requires 0 < k && 3 * k < |data|
    ensures GroupEnd(data, k) == GroupEnd(data[3..], k - 1) + 4 && 4 * k <= GroupEnd(data, k)
    ensures 3 * (k - 1) < |data[3..]|
  {
  }

  lemma FirstGroup(data: seq<Byte>)
    requires data != []
    ensures GroupEnd(data, 0) <= |Symbols(data)|
    ensures Number(Symbols(data)[0..GroupEnd(data, 0)]) == GroupBits(data[0..])
  {
    assert data[0..] == data;
    hide Number, Enc, Pair, Trio, Quad;
    if |data| >= 3 {
      assert |Quad(data[0], data[1], data[2])| == 4;
      assert Symbols(data)[0..4] == Quad(data[0], data[1], data[2]);
      QuadSpells(data[0], data[1], data[2]);
    } else {
      assert Symbols(data)[0..GroupEnd(data, 0)] == Symbols(data);
      if |data| == 1 { OneSpells(data[0]); } else { TwoSpell(data[0], data[1]); }
    }
  }

  lemma SliceTail(q: seq<Byte>, s: seq<Byte>, i: nat, j: nat)
    requires i <= j <= |s|
    ensures (q + s)[|q| + i..|q| + j] == s[i..j]
  {
  }

  lemma NumberOfTwo(p: Sextet, q: Sextet)
    ensures Number([Enc(p), Enc(q)]) == p * 64 + q
  {
    TablesAgree(p, NUL);
    TablesAgree(q, NUL);
    var s := [Enc(p), Enc(q)];
    assert s[..1] == [Enc(p)] && [Enc(p)][..0] == [];
    assert Number(s[..1]) == Number([]) * 64 + p;
  }

  lemma NumberGrows(s: seq<Byte>, r: Sextet)
    ensures Number(s + [Enc(r)]) == Number(s) * 64 + r
  {
    TablesAgree(r, NUL);
    assert (s + [Enc(r)])[..|s|] == s;
  }

  lemma QuadSpells(a: Byte, b: Byte, c: Byte)
    ensures Number(Quad(a, b, c)) == a * 65536 + b * 256 + c
  {
    hide Number, Enc;
    var p, q, r, s := a / 4, a % 4 * 16 + b / 16, b % 16 * 4 + c / 64, c % 64;
    NumberOfTwo(p, q);
    NumberGrows([Enc(p), Enc(q)], r);
    NumberGrows([Enc(p), Enc(q)] + [Enc(r)], s);
    assert Quad(a, b, c) == [Enc(p), Enc(q)] + [Enc(r)] + [Enc(s)];
  }

  lemma OneSpells(a: Byte)
    ensures Number(Pair(a)) == a * 16
  {
    hide Number, Enc;
    NumberOfTwo(a / 4, a % 4 * 16);
  }

  lemma TwoSpell(a: Byte, b: Byte)
    ensures Number(Trio(a, b)) == (a * 256 + b) * 4
  {
    hide Number, Enc;
    var p, q, r := a / 4, a % 4 * 16 + b / 16, b % 16 * 4;
    NumberOfTwo(p, q);
    NumberGrows([Enc(p), Enc(q)], r);
    assert [Enc(p), Enc(q), Enc(r)] == [Enc(p), Enc(q)] + [Enc(r)];
  }

  // ---------------------------------------------------------------- decoding

  /** The values of the symbols before the first '='; line feeds are skipped. */
  function Content(text: seq<Byte>): seq<Sextet> {
    if text == [] || Dec(text[0]) == EQUALS then []
    else if Dec(text[0]) < 64 then [Dec(text[0])] + Content(text[1..])
    else Content(text[1..])
  }

  /** Some invalid character comes before the first '='. */
  predicate Broken(text: seq<Byte>) {
    if text == [] || Dec(text[0]) == EQUALS then false
    else Dec(text[0]) == INVALID || Broken(text[1..])
  }

  /** Four values are three bytes; three or two left over are two or one, and a single one is dropped. */
  function Joined(values: seq<Sextet>): seq<Byte> {
    if |values| < 2 then []
    else if |values| == 2 then [First(values[0], values[1])]
    else if |values| == 3 then
      [First(values[0], values[1]), Second(values[1], values[2])]
    else
      Triple(values[0], values[1], values[2], values[3]) + Joined(values[4..])
  }

  function Triple(p: Sextet, q: Sextet, r: Sextet, s: Sextet): (t: seq<Byte>)
    ensures |t| == 3
  {
    [First(p, q), Second(q, r), Third(r, s)]
  }

  function First(p: Sextet, q: Sextet): Byte {
    p * 4 + q / 16
  }

  function Third(r: Sextet, s: Sextet): Byte {
    r % 4 * 64 + s
  }

  function Second(q: Sextet, r: Sextet): Byte {
    q % 16 * 16 + r / 4
  }

  function Decode(text: seq<Byte>): Option<seq<Byte>> {
    if Broken(text) then None else Some(Joined(Content(text)))
  }

  lemma {:induction false} BrokenMeans(text: seq<Byte>)
    ensures Broken(text) <==> exists i :: 0 <= i < |text| && Dec(text[i]) == INVALID && PAD !in text[..i]
  {
    if text == [] || text[0] == PAD {
      forall i | 0 < i < |text| ensures text[0] in text[..i] {
        assert text[..i][0] == text[0];
      }
    } else if Dec(text[0]) == INVALID {
      assert text[..0] == [];
    } else {
      BrokenMeans(text[1..]);
      forall i | 0 < i < |text| ensures PAD in text[..i] <==> PAD in text[1..][..i - 1] {
        assert text[..i] == [text[0]] + text[1..][..i - 1];
      }
      if i :| 0 <= i < |text| && Dec(text[i]) == INVALID && PAD !in text[..i] {
        assert Dec(text[1..][i - 1]) == INVALID && PAD !in text[1..][..i - 1];
      }
      if i :| 0 <= i < |text| - 1 && Dec(text[1..][i]) == INVALID && PAD !in text[1..][..i] {
        assert Dec(text[i + 1]) == INVALID && PAD !in text[..i + 1];
      }
    }
  }

  /** Bytes may follow without decoding anything. */
  predicate Closing(tail: seq<Byte>) {
    tail == [] || tail[0] == PAD
  }

  lemma ContentStep(c: Byte, rest: seq<Byte>)
    ensures Dec(c) < 64 ==> Content([c] + rest) == [Dec(c)] + Content(rest) && Broken([c] + rest) == Broken(rest)
  {
    assert ([c] + rest)[1..] == rest;
  }

  lemma QuadContent(a: Byte, b: Byte, c: Byte, rest: seq<Byte>)
    ensures Content(Quad(a, b, c) + rest) == [a / 4, a % 4 * 16 + b / 16, b % 16 * 4 + c / 64, c % 64] + Content(rest)
    ensures Broken(Quad(a, b, c) + rest) == Broken(rest)
  {
    var p, q, r, s := a / 4, a % 4 * 16 + b / 16, b % 16 * 4 + c / 64, c % 64;
    EncContent(s, rest);
    EncContent(r, [Enc(s)] + rest);
    EncContent(q, [Enc(r)] + ([Enc(s)] + rest));
    EncContent(p, [Enc(q)] + ([Enc(r)] + ([Enc(s)] + rest)));
    hide Content, Broken, Enc;
    assert Quad(a, b, c) + rest == [Enc(p)] + ([Enc(q)] + ([Enc(r)] + ([Enc(s)] + rest)));
  }

  lemma EncContent(v: Sextet, rest: seq<Byte>)
    ensures Content([Enc(v)] + rest) == [v] + Content(rest)
    ensures Broken([Enc(v)] + rest) == Broken(rest)
  {
    TablesAgree(v, NUL);
    ContentStep(Enc(v), rest);
  }

  lemma TripleInverts(a: Byte, b: Byte, c: Byte)
    ensures Triple(a / 4, a % 4 * 16 + b / 16, b % 16 * 4 + c / 64, c % 64) == [a, b, c]
  {
  }

  /** Decoding undoes encoding, whatever the bytes and however much padding follows. */
  lemma {:induction false} SymbolsRoundTrip(data: seq<Byte>, tail: seq<Byte>)
    requires Closing(tail)
    ensures Decode(Symbols(data) + tail) == Some(data)
  {
    hide Decode, Pair, Trio, Quad, Triple, Enc;
    if data == [] {
      NoneRoundTrip(data, tail);
    } else if |data| == 1 {
      OneRoundTrip(data, tail);
    } else if |data| == 2 {
      TwoRoundTrip(data, tail);
    } else {
      SymbolsRoundTrip(data[3..], tail);
      GroupRoundTrip(data[0], data[1], data[2], data[3..], tail);
      assert data == [data[0], data[1], data[2]] + data[3..];
    }
  }

  lemma GroupRoundTrip(a: Byte, b: Byte, c: Byte, data: seq<Byte>, tail: seq<Byte>)
    requires Decode(Symbols(data) + tail) == Some(data)
    ensures Decode(Quad(a, b, c) + Symbols(data) + tail) == Some([a, b, c] + data)
  {
    hide Quad, Triple, Symbols, Content, Broken, Joined;
    var rest := Symbols(data) + tail;
    Assoc(Quad(a, b, c), Symbols(data), tail);
    QuadContent(a, b, c, rest);
    TripleInverts(a, b, c);
    BytesGroup(a / 4, a % 4 * 16 + b / 16, b % 16 * 4 + c / 64, c % 64, Content(rest));
  }

  lemma BytesGroup(p: Sextet, q: Sextet, r: Sextet, s: Sextet, rest: seq<Sextet>)
    ensures Joined([p, q, r, s] + rest) == Triple(p, q, r, s) + Joined(rest)
  {
    assert ([p, q, r, s] + rest)[4..] == rest;
  }

  lemma NoneRoundTrip(data: seq<Byte>, tail: seq<Byte>)
    requires data == [] && Closing(tail)
    ensures Decode(Symbols(data) + tail) == Some(data)
  {
    NoPrefix(tail);
  }

  lemma OneRoundTrip(data: seq<Byte>, tail: seq<Byte>)
    requires |data| == 1 && Closing(tail)
    ensures Decode(Symbols(data) + tail) == Some(data)
  {
    ClosingIsEmpty(tail);
    hide *;
    SymbolsOfFew(data);
    PairRoundTrip(data[0], tail);
    assert data == [data[0]];
  }

  lemma TwoRoundTrip(data: seq<Byte>, tail: seq<Byte>)
    requires |data| == 2 && Closing(tail)
    ensures Decode(Symbols(data) + tail) == Some(data)
  {
    ClosingIsEmpty(tail);
    hide *;
    SymbolsOfFew(data);
    TrioRoundTrip(data[0], data[1], tail);
    assert data == [data[0], data[1]];
  }

  lemma ClosingIsEmpty(tail: seq<Byte>)
    requires Closing(tail)
    ensures Content(tail) == [] && !Broken(tail)
  {
  }

  lemma SymbolsOfFew(data: seq<Byte>)
    ensures |data| == 1 ==> Symbols(data) == Pair(data[0])
    ensures |data| == 2 ==> Symbols(data) == Trio(data[0], data[1])
  {
  }

  lemma PairRoundTrip(a: Byte, tail: seq<Byte>)
    requires Content(tail) == [] && !Broken(tail)
    ensures Decode(Pair(a) + tail) == Some([a])
  {
    hide Enc, Content, Broken;
    var p, q := a / 4, a % 4 * 16;
    EncContent(q, tail);
    EncContent(p, [Enc(q)] + tail);
    assert [Enc(p), Enc(q)] + tail == [Enc(p)] + ([Enc(q)] + tail);
    assert Joined([p, q]) == [a];
  }

  lemma TrioRoundTrip(a: Byte, b: Byte, tail: seq<Byte>)
    requires Content(tail) == [] && !Broken(tail)
    ensures Decode(Trio(a, b) + tail) == Some([a, b])
  {
    hide Enc, Content, Broken;
    var p, q, r := a / 4, a % 4 * 16 + b / 16, b % 16 * 4;
    EncContent(r, tail);
    EncContent(q, [Enc(r)] + tail);
    EncContent(p, [Enc(q)] + ([Enc(r)] + tail));
    assert [Enc(p), Enc(q), Enc(r)] + tail == [Enc(p)] + ([Enc(q)] + ([Enc(r)] + tail));
    assert Joined([p, q, r]) == [a, b];
  }

  /** Decoding an encoding gives the bytes back, for every byte string. */
  lemma RoundTrip(data: seq<Byte>)
    ensures Decode(Encode(data)) == Some(data)
  {
    PaddingCount(|Symbols(data)|);
    SymbolsRoundTrip(data, Padding(|Symbols(data)|));
  }

  /** The symbols of a text: what stands before the first '=' but for line feeds. */
  function Kept(text: seq<Byte>): seq<Byte> {
    if text == [] || text[0] == 61 then [] else if text[0] == 10 then Kept(text[1..]) else [text[0]] + Kept(text[1..])
  }

  ghost predicate Spelled(symbols: seq<Byte>, values: seq<Sextet>) {
    |values| == |symbols| && forall i :: 0 <= i < |values| ==> Dec(symbols[i]) == values[i]
  }

  lemma {:induction false} KeptIsContent(text: seq<Byte>)
    requires !Broken(text)
    ensures Spelled(Kept(text), Content(text))
  {
    hide Enc, Dec;
    if text != [] {
      SkippedAndPadding(text[0]);
      if text[0] != PAD { KeptIsContent(text[1..]); }
    }
  }

  lemma SkippedAndPadding(c: Byte)
    ensures (Dec(c) == WHITESPACE <==> c == 10) && (Dec(c) == EQUALS <==> c == 61)
    ensures Dec(c) < 64 || Dec(c) == WHITESPACE || Dec(c) == EQUALS || Dec(c) == INVALID
    ensures c == PAD <==> c == 61
  {
    AlphabetOfTheStandard(0);
  }

  /** What k groups of four symbols, and then up to four more, are decoded to: the same bits, but for those of the last
      symbol that make no whole byte. */
  ghost predicate SameBits(symbols: seq<Byte>, bytes: seq<Byte>, k: nat) {
    && (4 * k + 4 <= |symbols| && 3 * k + 3 <= |bytes| ==>
        Number(symbols[4 * k..4 * k + 4]) == (bytes[3 * k] as int) * 65536 + (bytes[3 * k + 1] as int) * 256 + bytes[3 * k + 2])
    && (|symbols| == 4 * k + 3 && |bytes| == 3 * k + 2 ==>
        Number(symbols[4 * k..]) / 4 == (bytes[3 * k] as int) * 256 + bytes[3 * k + 1])
    && (|symbols| == 4 * k + 2 && |bytes| == 3 * k + 1 ==> Number(symbols[4 * k..]) / 16 == bytes[3 * k])
  }

  lemma {:induction false} NumberOfSpelled(symbols: seq<Byte>, values: seq<Sextet>)
    requires Spelled(symbols, values)
    ensures Number(symbols) == Buffer(values)
    decreases |symbols|
  {
    if symbols != [] { NumberOfSpelled(symbols[..|symbols| - 1], values[..|values| - 1]); }
  }

  lemma SpelledPart(symbols: seq<Byte>, values: seq<Sextet>, i: nat, j: nat)
    requires Spelled(symbols, values) && i <= j <= |symbols|
    ensures Spelled(symbols[i..j], values[i..j])
  {
    hide Dec;
  }

  lemma FirstGroupBits(symbols: seq<Byte>, values: seq<Sextet>)
    requires Spelled(symbols, values)
    ensures SameBits(symbols, Joined(values), 0)
  {
    hide Number, Buffer, Dec, Spelled;
    var n := |symbols|;
    LengthSpelled(symbols, values);
    if n >= 4 {
      SpelledPart(symbols, values, 0, 4);
      NumberOfSpelled(symbols[0..4], values[0..4]);
      assert values[0..4] == [values[0], values[1], values[2], values[3]];
      BufferOf(values[0], values[1], values[2], values[3]);
      SplitSum(values[0], values[1], values[2], values[3]);
    } else if n >= 2 {
      assert symbols[0..] == symbols;
      NumberOfSpelled(symbols, values);
      if n == 3 {
        assert values == [values[0], values[1], values[2]];
        BufferOf(values[0], values[1], values[2], 0);
        assert Joined(values) == [First(values[0], values[1]), Second(values[1], values[2])];
        ThreeBits(values[0], values[1], values[2]);
      } else {
        assert values == [values[0], values[1]];
        BufferOf(values[0], values[1], 0, 0);
        assert Joined(values) == [First(values[0], values[1])];
      }
    }
  }

  lemma ThreeBits(p: Sextet, q: Sextet, r: Sextet)
    ensures (p * 4096 + q * 64 + r) / 4 == (First(p, q) as int) * 256 + Second(q, r)
  {
  }

  lemma LengthSpelled(symbols: seq<Byte>, values: seq<Sextet>)
    requires Spelled(symbols, values)
    ensures |values| == |symbols|
  {
  }

  lemma BitsBehind(symbols: seq<Byte>, bytes: seq<Byte>, k: nat)
    requires 4 <= |symbols| && 3 <= |bytes| && SameBits(symbols[4..], bytes[3..], k)
    ensures SameBits(symbols, bytes, k + 1)
  {
    hide Number;
    if 4 * k + 8 <= |symbols| { assert symbols[4..][4 * k..4 * k + 4] == symbols[4 * k + 4..4 * k + 8]; }
    if 4 * k + 4 <= |symbols| { assert symbols[4..][4 * k..] == symbols[4 * k + 4..]; }
  }

  lemma {:induction false} JoinedBits(symbols: seq<Byte>, values: seq<Sextet>, k: nat)
    requires Spelled(symbols, values) && 4 * k + 1 < |symbols|
    ensures SameBits(symbols, Joined(values), k)
    decreases k
  {
    hide SameBits, Spelled;
    LengthSpelled(symbols, values);
    if k == 0 {
      FirstGroupBits(symbols, values);
    } else {
      SpelledPart(symbols, values, 4, |symbols|);
      assert symbols[4..|symbols|] == symbols[4..] && values[4..|symbols|] == values[4..];
      JoinedBits(symbols[4..], values[4..], k - 1);
      assert Joined(values) == Triple(values[0], values[1], values[2], values[3]) + Joined(values[4..]);
      assert Joined(values)[3..] == Joined(values[4..]);
      BitsBehind(symbols, Joined(values), k - 1);
    }
  }

  /** Whatever decodes, with line feeds and padding or without: the bytes have the bits of the symbols. */
  lemma DecodedBits(text: seq<Byte>, k: nat)
    requires Decode(text).Some? && 4 * k + 1 < |Kept(text)|
    ensures |Decode(text).value| == |Kept(text)| * 6 / 8
    ensures SameBits(Kept(text), Decode(text).value, k)
  {
    KeptIsContent(text);
    LengthSpelled(Kept(text), Content(text));
    BytesCount(Content(text));
    JoinedBits(Kept(text), Content(text), k);
    hide Kept, Content, Joined, SameBits;
  }

  lemma {:induction false} ContentFits(text: seq<Byte>)
    ensures |Content(text)| <= |text|
  {
    if text != [] { ContentFits(text[1..]); }
  }

  lemma {:induction false} BytesCount(values: seq<Sextet>)
    ensures |Joined(values)| == |values| * 6 / 8
  {
    if |values| >= 4 { BytesCount(values[4..]); }
  }

  /** A buffer of the advertised size holds whatever the text decodes to. */
  lemma MaxDecodeSizeSuffices(text: seq<Byte>)
    ensures |Joined(Content(text))| <= MaxDecodeSize(|text|)
  {
    ContentFits(text);
    BytesCount(Content(text));
  }

  predicate Fits(bytes: Option<seq<Byte>>, size: nat) {
    bytes.Some? && |bytes.value| <= size
  }

  /** With a buffer of the advertised size decoding fails exactly when an invalid character comes before
      the first '='. */
  lemma DecodingFailsOnInvalid(text: seq<Byte>)
    ensures !Fits(Decode(text), MaxDecodeSize(|text|)) <==>
      exists i :: 0 <= i < |text| && Dec(text[i]) == INVALID && PAD !in text[..i]
  {
    BrokenMeans(text);
    MaxDecodeSizeSuffices(text);
  }

  /** The encoded text ends only at its terminator. */
  lemma {:induction false} EncodedIsString(data: seq<Byte>)
    ensures NUL !in Symbols(data) && NUL !in Encode(data)
  {
    PaddingCount(|Symbols(data)|);
    if |data| >= 3 { EncodedIsString(data[3..]); }
  }

  // ---------------------------------------------------------------- the loops

  /** What the buffer of 32 bits holds after up to four values. */
  function Buffer(values: seq<Sextet>): int {
    if values == [] then 0 else Buffer(values[..|values| - 1]) * 64 + values[|values| - 1]
  }

  lemma BufferShift(held: seq<Sextet>, v: Sextet)
    ensures Buffer(held + [v]) == Buffer(held) * 64 + v
  {
    assert (held + [v])[..|held|] == held;
  }

  lemma BufferOf(p: Sextet, q: Sextet, r: Sextet, s: Sextet)
    ensures Buffer([p, q]) == p * 64 + q
    ensures Buffer([p, q, r]) == p * 4096 + q * 64 + r
    ensures Buffer([p, q, r, s]) == p * 262144 + q * 4096 + r * 64 + s
  {
    hide Buffer;
    assert Buffer([p]) == p by { BufferShift([], p); assert Buffer([]) == 0 by { BufferEmpty(); } assert [] + [p] == [p]; }
    BufferShift([p], q);
    BufferShift([p] + [q], r);
    BufferShift([p] + [q] + [r], s);
    assert [p] + [q] == [p, q] && [p, q] + [r] == [p, q, r] && [p, q, r] + [s] == [p, q, r, s];
  }

  lemma BufferEmpty()
    ensures Buffer([]) == 0
  {
  }

  lemma LowByte(high: int, low: Byte)
    ensures (high * 256 + low) / 256 == high && (high * 256 + low) % 256 == low
  {
  }

  lemma SplitSum(p: Sextet, q: Sextet, r: Sextet, s: Sextet)
    ensures p * 262144 + q * 4096 + r * 64 + s == ((First(p, q) as int) * 256 + Second(q, r)) * 256 + Third(r, s)
  {
  }

  lemma SplitThree(p: Sextet, q: Sextet, r: Sextet, s: Sextet, n: int)
    requires n == p * 262144 + q * 4096 + r * 64 + s
    ensures n / 65536 % 256 == First(p, q) && n / 256 % 256 == Second(q, r) && n % 256 == Third(r, s)
  {
    var f: int, e: int, t: int := First(p, q), Second(q, r), Third(r, s);
    SplitSum(p, q, r, s);
    hide *;
    LowByte(f * 256 + e, t);
    LowByte(f, e);
    LowByte(0, f);
    assert n / 65536 == n / 256 / 256;
  }

  lemma SplitTwo(p: Sextet, q: Sextet, r: Sextet, n: int)
    requires n == p * 4096 + q * 64 + r
    ensures n / 1024 % 256 == First(p, q) && n / 4 % 256 == Second(q, r)
  {
    assert n / 4 == First(p, q) * 256 + Second(q, r);
    LowByte(First(p, q), Second(q, r));
    LowByte(0, First(p, q));
    assert n / 1024 == n / 4 / 256;
  }

  /** The number of characters before the terminator. */
  function StrLen(s: seq<Byte>): (n: nat)
    requires NUL in s
    ensures n < |s| && s[n] == NUL && NUL !in s[..n]
  {
    if s[0] == NUL then 0 else 1 + StrLen(s[1..])
  }

  lemma LowDigit(high: int, low: Sextet)
    ensures (high * 64 + low) / 64 == high && (high * 64 + low) % 64 == low
  {
  }

  /** The four digits to base 64 of three bytes. */
  lemma Digits(a: Byte, b: Byte, c: Byte, n: int)
    requires n == ((a as int) * 256 + b) * 256 + c
    ensures n / 262144 % 64 == a / 4 && n / 4096 % 64 == a % 4 * 16 + b / 16
    ensures n / 64 % 64 == b % 16 * 4 + c / 64 && n % 64 == c % 64
  {
    var p: int, q: int, r: int, s: int := a / 4, a % 4 * 16 + b / 16, b % 16 * 4 + c / 64, c % 64;
    assert n == ((p * 64 + q) * 64 + r) * 64 + s;
    hide *;
    LowDigit((p * 64 + q) * 64 + r, s);
    LowDigit(p * 64 + q, r);
    LowDigit(p, q);
    LowDigit(0, p);
    assert n / 4096 == n / 64 / 64 && n / 262144 == n / 4096 / 64;
  }

  /** What one round of the encoding loop adds. */
  function Group(data: seq<Byte>): seq<Byte>
    requires data != []
  {
    if |data| == 1 then Pair(data[0])
    else if |data| == 2 then Trio(data[0], data[1])
    else Quad(data[0], data[1], data[2])
  }

  function Least(a: nat, b: nat): nat {
    if a < b then a else b
  }

  lemma SymbolsByGroup(data: seq<Byte>, x: nat)
    requires x < |data|
    ensures Symbols(data[x..]) == Group(data[x..]) + Symbols(data[Least(x + 3, |data|)..])
  {
    if x + 3 <= |data| {
      assert data[x..][3..] == data[x + 3..];
    } else {
      assert data[Least(x + 3, |data|)..] == [];
      NoSuffix(Group(data[x..]));
    }
  }

  /** Up to three bytes combined into 24 bits. */
  method Combine(data: array<Byte>, x: nat) returns (n: int)
    requires x < data.Length
    ensures n / 262144 % 64 == data[x] / 4
    ensures x + 1 >= data.Length ==> n / 4096 % 64 == data[x] % 4 * 16
    ensures x + 1 < data.Length ==> n / 4096 % 64 == data[x] % 4 * 16 + data[x + 1] / 16
    ensures x + 2 == data.Length ==> n / 64 % 64 == data[x + 1] % 16 * 4
    ensures x + 2 < data.Length ==> n / 64 % 64 == data[x + 1] % 16 * 4 + data[x + 2] / 64
    ensures x + 2 < data.Length ==> n % 64 == data[x + 2] % 64
  {
    var a: int := data[x];
    n := a * 65536;
    if x + 1 < data.Length {
      var b: int := data[x + 1];
      n := n + b * 256;
    }
    if x + 2 < data.Length { n := n + data[x + 2]; }
    Digits(data[x], if x + 1 < data.Length then data[x + 1] else 0, if x + 2 < data.Length then data[x + 2] else 0, n);
  }

  /** One round of the loop: the 24 bits split into symbols. */
  method EncodeGroup(data: array<Byte>, x: nat, out: array<Byte>, start: nat) returns (resultIndex: nat)
    modifies out
    requires data != out && x < data.Length
    requires start + |Group(data[x..])| <= out.Length
    ensures resultIndex == start + |Group(data[x..])|
    ensures out[..resultIndex] == old(out[..start]) + Group(data[x..])
  {
    var n := Combine(data, x);
    hide Enc;
    out[start] := Enc(n / 262144 % 64);
    out[start + 1] := Enc(n / 4096 % 64);
    resultIndex := start + 2;
    if x + 1 < data.Length {
      out[resultIndex] := Enc(n / 64 % 64);
      resultIndex := resultIndex + 1;
    }
    if x + 2 < data.Length {
      out[resultIndex] := Enc(n % 64);
      resultIndex := resultIndex + 1;
    }
  }

  /** The loop over the input. */
  method EncodeGroups(data: array<Byte>, out: array<Byte>) returns (resultIndex: nat)
    modifies out
    requires data != out && |Symbols(data[..])| <= out.Length
    ensures resultIndex <= out.Length && out[..resultIndex] == Symbols(data[..])
  {
    hide *;
    ghost var bytes := data[..];
    resultIndex := 0;
    var x := 0;
    assert bytes[0..] == bytes;
    NoPrefix(Symbols(bytes));
    ghost var rest := bytes;
    while x < data.Length
      invariant rest == if x < |bytes| then bytes[x..] else []
      invariant data[..] == bytes
      invariant resultIndex + |Symbols(rest)| <= out.Length
      invariant out[..resultIndex] + Symbols(rest) == Symbols(bytes)
    {
      rest := RestOf(bytes, x);
      ghost var was := out[..resultIndex];
      resultIndex := EncodeGroup(data, x, out, resultIndex);
      Assoc(was, Group(bytes[x..]), Symbols(rest));
      x := x + 3;
    }
    assert Symbols(rest) == [] by { SymbolCount(rest); }
    NoSuffix(out[..resultIndex]);
  }

  lemma RestOf(data: seq<Byte>, x: nat) returns (rest: seq<Byte>)
    requires x < |data|
    ensures rest == if x + 3 < |data| then data[x + 3..] else []
    ensures Symbols(data[x..]) == Group(data[x..]) + Symbols(rest)
  {
    rest := if x + 3 < |data| then data[x + 3..] else [];
    SymbolsByGroup(data, x);
  }

  /** The loop that pads to a multiple of four. */
  method Pad(out: array<Byte>, start: nat) returns (resultIndex: nat)
    modifies out
    requires start + |Padding(start)| <= out.Length
    ensures resultIndex == start + |Padding(start)|
    ensures out[..resultIndex] == old(out[..start]) + Padding(start)
  {
    hide Padding;
    resultIndex := start;
    while resultIndex % 4 != 0
      invariant start <= resultIndex && resultIndex + |Padding(resultIndex)| == start + |Padding(start)|
      invariant out[..resultIndex] + Padding(resultIndex) == old(out[..start]) + Padding(start)
      decreases |Padding(resultIndex)|
    {
      PaddingNext(resultIndex);
      ghost var was := out[..resultIndex];
      out[resultIndex] := PAD;
      Assoc(was, [PAD], Padding(resultIndex + 1));
      assert out[..resultIndex + 1] == was + [PAD];
      resultIndex := resultIndex + 1;
    }
    PaddingNext(resultIndex);
    NoSuffix(out[..resultIndex]);
  }

  lemma PaddingNext(n: nat)
    ensures Padding(n) == if n % 4 == 0 then [] else [PAD] + Padding(n + 1)
  {
  }

  /** iot_b64_encode. The text is exactly as long as the size function says, terminator included. */
  method EncodeInto(data: array<Byte>, out: array<Byte>) returns (ok: bool)
    modifies out
    requires data != out
    ensures ok <==> EncodeSize(data.Length) <= out.Length
    ensures ok ==> EncodeSize(data.Length) == |Encode(data[..])| + 1
    ensures ok ==> out[..|Encode(data[..])|] == Encode(data[..]) && out[|Encode(data[..])|] == NUL
    ensures ok ==> NUL !in out[..|Encode(data[..])|]
    ensures !ok ==> out[..] == old(out[..])
  {
    EncodeLength(data[..]);
    ok := out.Length >= EncodeSize(data.Length);
    hide EncodeSize, Symbols, Padding;
    if ok {
      var resultIndex := EncodeGroups(data, out);
      resultIndex := Pad(out, resultIndex);
      out[resultIndex] := NUL;
      EncodedIsString(data[..]);
    }
  }

  /** The decoding loop so far: what was written, the values held back and the text to come make up the whole. */
  ghost predicate Progress(text: seq<Byte>, rest: seq<Byte>, held: seq<Sextet>, done: seq<Byte>) {
    && Broken(rest) == Broken(text)
    && done + Joined(held + Content(rest)) == Joined(Content(text))
  }

  lemma ProgressStarts(text: seq<Byte>)
    ensures Progress(text, text, [], [])
  {
    NoPrefix(Content(text));
    NoPrefix(Joined(Content(text)));
  }

  lemma ProgressSkips(text: seq<Byte>, rest: seq<Byte>, held: seq<Sextet>, done: seq<Byte>)
    requires rest != [] && Dec(rest[0]) == WHITESPACE && Progress(text, rest, held, done)
    ensures Progress(text, rest[1..], held, done)
  {
  }

  lemma ProgressHolds(text: seq<Byte>, rest: seq<Byte>, held: seq<Sextet>, done: seq<Byte>)
    requires rest != [] && Dec(rest[0]) < 64 && Progress(text, rest, held, done)
    ensures Progress(text, rest[1..], held + [Dec(rest[0])], done)
  {
    Assoc(held, [Dec(rest[0])], Content(rest[1..]));
  }

  lemma ProgressWrites(text: seq<Byte>, rest: seq<Byte>, held: seq<Sextet>, done: seq<Byte>)
    requires |held| == 4 && Progress(text, rest, held, done)
    ensures Progress(text, rest, [], done + Joined(held))
    ensures |Joined(held)| == 3
    ensures Decode(text).Some? ==> |Decode(text).value| >= |done| + 3
  {
    var p, q, r, s := held[0], held[1], held[2], held[3];
    hide Triple, Content, Broken;
    assert held == [p, q, r, s] && held == held + [];
    BytesGroup(p, q, r, s, []);
    BytesGroup(p, q, r, s, Content(rest));
    assert Joined(held) == Triple(p, q, r, s);
    hide Joined;
    NoPrefix(Content(rest));
    Assoc(done, Joined(held), Joined(Content(rest)));
  }

  lemma ProgressBreaks(text: seq<Byte>, rest: seq<Byte>, held: seq<Sextet>, done: seq<Byte>)
    requires Progress(text, rest, held, done) && rest != [] && Dec(rest[0]) == INVALID
    ensures Decode(text) == None
  {
  }

  lemma ProgressEnds(text: seq<Byte>, rest: seq<Byte>, held: seq<Sextet>, done: seq<Byte>)
    requires Progress(text, rest, held, done) && (rest == [] || Dec(rest[0]) == EQUALS)
    ensures Decode(text) == Some(done + Joined(held))
  {
    NoSuffix(held);
  }

  method PutThree(out: array<Byte>, len: nat, buf: int, ghost held: seq<Sextet>)
    modifies out
    requires len + 3 <= out.Length && |held| == 4 && buf == Buffer(held)
    ensures out[..len + 3] == old(out[..len]) + Joined(held)
    ensures out[len + 3..] == old(out[len + 3..])
  {
    ghost var p, q, r, s := held[0], held[1], held[2], held[3];
    assert held == [p, q, r, s];
    BufferOf(p, q, r, s);
    SplitThree(p, q, r, s, buf);
    hide First, Second, Third, Buffer;
    out[len], out[len + 1], out[len + 2] := buf / 65536 % 256, buf / 256 % 256, buf % 256;
  }

  lemma LastTwo(p: Sextet, q: Sextet, r: Sextet, buf: int)
    requires buf == Buffer([p, q, r])
    ensures Joined([p, q, r]) == [buf / 1024 % 256, buf / 4 % 256]
  {
    BufferOf(p, q, r, 0);
    SplitTwo(p, q, r, buf);
  }

  lemma LastOne(p: Sextet, q: Sextet, buf: int)
    requires buf == Buffer([p, q])
    ensures Joined([p, q]) == [buf / 16 % 256]
  {
    BufferOf(p, q, 0, 0);
    hide Buffer;
    SplitOne(p, q, buf);
  }

  lemma SplitOne(p: Sextet, q: Sextet, n: int)
    requires n == p * 64 + q
    ensures n / 16 % 256 == First(p, q)
  {
    assert n / 16 == First(p, q);
  }

  lemma LastBytes(held: seq<Sextet>, buf: int)
    requires |held| < 4 && buf == Buffer(held)
    ensures |held| == 3 ==> Joined(held) == [buf / 1024 % 256, buf / 4 % 256]
    ensures |held| == 2 ==> Joined(held) == [buf / 16 % 256]
    ensures |held| < 2 ==> Joined(held) == []
  {
    hide Buffer;
    if |held| == 3 {
      assert held == [held[0], held[1], held[2]];
      hide Joined;
      LastTwo(held[0], held[1], held[2], buf);
    } else if |held| == 2 {
      assert held == [held[0], held[1]];
      hide Joined;
      LastOne(held[0], held[1], buf);
    }
  }

  /** What is written after the loop. */
  method PutLast(out: array<Byte>, start: nat, iter: nat, buf: int, outLen: nat, ghost held: seq<Sextet>)
    returns (ok: bool, len: nat)
    modifies out
    requires start <= outLen <= out.Length && iter == |held| < 4 && buf == Buffer(held)
    ensures ok <==> start + |Joined(held)| <= outLen
    ensures ok ==> len == start + |Joined(held)| && out[..len] == old(out[..start]) + Joined(held)
    ensures out[outLen..] == old(out[outLen..])
  {
    LastBytes(held, buf);
    hide *;
    len := start;
    if iter == 3 {
      len := len + 2;
      if len > outLen { return false, len; }
      out[len - 2], out[len - 1] := buf / 1024 % 256, buf / 4 % 256;
    } else if iter == 2 {
      len := len + 1;
      if len > outLen { return false, len; }
      out[len - 1] := buf / 16 % 256;
    } else {
      NoSuffix(out[..start]);
    }
    ok := true;
  }

  /** One symbol joins the buffer, which is emptied into three bytes when it is full. */
  method TakeSymbol(out: array<Byte>, start: nat, outLen: nat, iter: nat, shifted: int, c: Sextet, ghost held: seq<Sextet>)
    returns (ok: bool, len: nat, iter': nat, buf: int, ghost held': seq<Sextet>)
    modifies out
    requires start <= outLen <= out.Length && iter == |held| < 4 && shifted == Buffer(held)
    ensures iter' == |held'| < 4 && buf == Buffer(held')
    ensures iter < 3 ==> ok && len == start && held' == held + [c] && out[..] == old(out[..])
    ensures iter == 3 && ok ==> len == start + 3 <= outLen && held' == [] && out[..len] == old(out[..start]) + Joined(held + [c])
    ensures !ok <==> iter == 3 && start + 3 > outLen
    ensures out[outLen..] == old(out[outLen..])
  {
    BufferShift(held, c);
    BufferEmpty();
    hide *;
    len := start;
    held' := held + [c];
    buf := shifted * 64 + c;
    iter' := iter + 1;
    ok := true;
    if iter' == 4 {
      if len + 3 > outLen {
        buf, iter', held', ok := 0, 0, [], false;
      } else {
        PutThree(out, len, buf, held');
        len := len + 3;
        buf, iter', held' := 0, 0, [];
      }
    }
  }

  /** iot_b64_decode. `size` is what is left in *outLen. */
  method DecodeInto(input: array<Byte>, out: array<Byte>, outLen: nat) returns (ok: bool, size: nat)
    modifies out
    requires input != out && NUL in input[..] && outLen <= out.Length
    ensures ok <==> Fits(Decode(input[..StrLen(input[..])]), outLen)
    ensures ok ==> size <= outLen && Decode(input[..StrLen(input[..])]) == Some(out[..size])
    ensures !ok ==> size == outLen
    ensures out[outLen..] == old(out[outLen..])
  {
    ghost var text := input[..StrLen(input[..])];
    ghost var rest := text;
    ghost var held: seq<Sextet> := [];
    var i: nat, iter: nat, buf: int, len: nat := 0, 0, 0, 0;
    ProgressStarts(text);
    BufferEmpty();
    size := outLen;
    ghost var whole := input[..];
    assert Fits(Decode(text), outLen) <==> Decode(text).Some? && |Decode(text).value| <= outLen;
    hide *;
    while input[i] != NUL
      invariant input[..] == whole
      invariant i <= |text| && rest == text[i..]
      invariant iter == |held| < 4 && buf == Buffer(held)
      invariant len <= outLen && Progress(text, rest, held, out[..len])
      invariant out[outLen..] == old(out[outLen..])
      decreases |text| - i
    {
      var c := Dec(input[i]);
      assert rest[0] == input[i] && rest[1..] == text[i + 1..];
      i := i + 1;
      if c == WHITESPACE {
        ProgressSkips(text, rest, held, out[..len]);
        rest := rest[1..];
        continue;
      }
      if c == INVALID {
        ProgressBreaks(text, rest, held, out[..len]);
        return false, outLen;
      }
      if c == EQUALS { break; }
      ProgressHolds(text, rest, held, out[..len]);
      rest := rest[1..];
      if iter == 3 { ProgressWrites(text, rest, held + [c], out[..len]); }
      ok, len, iter, buf, held := TakeSymbol(out, len, outLen, iter, buf, c, held);
      if !ok { return false, outLen; }
    }
    ProgressEnds(text, rest, held, out[..len]);
    var last: nat;
    ok, last := PutLast(out, len, iter, buf, outLen, held);
    if ok { size := last; }
  }
}
