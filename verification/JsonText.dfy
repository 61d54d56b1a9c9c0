// The text that src/c/data-json.c prints for a value, and the escapes of its strings (section 7 of
// RFC 8259).
module JsonText {
  import opened Bytes
  import opened ArrayElements
  import opened DataOrder
  import opened JsonTokens
  import Base64

  function Ch(c: char): Byte
    requires c as int < 256
  {
    c as int
  }

  // ---------------------------------------------------------------- escapes

  /** iot_data_repr_size */
  function ReprSize(c: Byte): nat {
    if c == 8 || c == 9 || c == 10 || c == 12 || c == 13 || c == QUOTE || c == BACKSLASH then 2
    else if c < 32 then 6
    else 1
  }

  /** The letter after the backslash. */
  function Letter(c: Byte): Byte {
    match c
    case 8 => Ch('b')
    case 9 => Ch('t')
    case 10 => Ch('n')
    case 12 => Ch('f')
    case 13 => Ch('r')
    case _ => c
  }

  function HexChar(n: nat): Byte
    requires n < 16
  {
    if n < 10 then 48 + n else 97 + (n - 10)
  }

  function EscapeChar(c: Byte): (e: seq<Byte>)
    ensures |e| == ReprSize(c)
  {
    if ReprSize(c) == 1 then [c]
    else if ReprSize(c) == 2 then [BACKSLASH, Letter(c)]
    else [BACKSLASH, Ch('u'), 48, 48, if c >= 16 then 49 else 48, HexChar(c % 16)]
  }

  function Escape(s: seq<Byte>): seq<Byte> {
    if s == [] then [] else EscapeChar(s[0]) + Escape(s[1..])
  }

  /** A string without a backslash in its escaped form is its own escaped form. */
  lemma {:induction false} PlainIsItself(s: seq<Byte>)
    requires BACKSLASH !in Escape(s)
    ensures Escape(s) == s
  {
    if s != [] {
      assert Escape(s) == EscapeChar(s[0]) + Escape(s[1..]);
      assert EscapeChar(s[0])[0] in Escape(s);
      PlainIsItself(s[1..]);
    }
  }

  // ---------------------------------------------------------------- numbers

  function Digits(n: nat): (s: seq<Byte>)
    ensures s != [] && forall i :: 0 <= i < |s| ==> 48 <= s[i] <= 57
  {
    if n < 10 then [48 + n] else Digits(n / 10) + [48 + n % 10]
  }

  function Decimal(v: int): seq<Byte> {
    if v < 0 then [Ch('-')] + Digits(-v) else Digits(v)
  }

  // ---------------------------------------------------------------- printing

  const TRUE: seq<Byte> := [116, 114, 117, 101]
  const FALSE: seq<Byte> := [102, 97, 108, 115, 101]
  const NULL: seq<Byte> := [110, 117, 108, 108]

  /** iot_data_dump_json_ptr, without floats. */
  function PrintScalar(d: Data): seq<Byte> {
    match d
    case Int(_, v) => Decimal(v)
    case Bool(b) => if b then TRUE else FALSE
    case Null => NULL
    case _ => []
  }

  function Quoted(s: seq<Byte>): seq<Byte> {
    [QUOTE] + s + [QUOTE]
  }

  function PrintScalars(ds: seq<Data>): seq<Byte> {
    if ds == [] then []
    else PrintScalar(ds[0]) + (if |ds| > 1 then [COMMA] + PrintScalars(ds[1..]) else [])
  }

  /** iot_data_dump_json, for maps without an explicit order of their keys. */
  function Print(d: Data): seq<Byte>
    decreases d, 1
  {
    match d
    case Str(chars) => Quoted(Escape(chars))
    case Array(binary, _, _, bytes, _) =>
      if binary then Quoted(if bytes == [] then [] else Base64.Encode(bytes))
      else [Ch('[')] + PrintScalars(Elements(d)) + [Ch(']')]
    case Map(entries) => [Ch('{')] + PrintEntries(entries, true) + [Ch('}')]
    case Vector(slots) => [Ch('[')] + PrintSeq(slots) + [Ch(']')]
    case List(elements) => [Ch('[')] + PrintSeq(elements) + [Ch(']')]
    case _ => PrintScalar(d)
  }

  function PrintSeq(ds: seq<Data>): seq<Byte>
    decreases ds, 0
  {
    if ds == [] then [] else Print(ds[0]) + (if |ds| > 1 then [COMMA] + PrintSeq(ds[1..]) else [])
  }

  /** Entries whose value is NULL are left out. */
  function PrintEntries(es: seq<Entry>, first: bool): seq<Byte>
    decreases es, 0
  {
    if es == [] then []
    else if es[0].value.Missing? then PrintEntries(es[1..], first)
    else (if first then [] else [COMMA]) + PrintEntry(es[0]) + PrintEntries(es[1..], false)
  }

  /** A key that is not a string is put in quotes. */
  function PrintEntry(e: Entry): seq<Byte>
    decreases e, 1
  {
    (if e.key.Str? then Print(e.key) else Quoted(Print(e.key))) + [COLON] + Print(e.value)
  }
}
