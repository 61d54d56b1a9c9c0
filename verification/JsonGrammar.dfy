// JSON texts as section 2 to 7 of RFC 8259 define them, with all the choices a writer has, and what they mean to
// src/c/data-json.c.
module JsonGrammar {
  import opened Bytes
  import opened Options
  import opened CLibrary
  import opened DataOrder
  import opened OrderedEntries

  // ---------------------------------------------------------------- the texts

  /** A character of a string: itself, an escape of two characters, or a universal escape with four digits. */
  datatype Piece =
    | Raw(c: Byte)
    | Short(letter: Byte)
    | Universal(code: nat, digits: seq<Byte>)

  /** `fraction` and `exponent` begin with their point or letter, if they are there. */
  datatype Atom = True | False | Nothing | Number(minus: bool, whole: seq<Byte>, fraction: seq<Byte>, exponent: seq<Byte>)

  /** A JSON value. White space is part of the tree: behind an opening bracket and around each item. */
  datatype Node =
    | Word(atom: Atom)
    | Text(pieces: seq<Piece>)
    | Items(gap: seq<Byte>, items: seq<Item>)
    | Members(gap: seq<Byte>, members: seq<Member>)

  datatype Item = Item(before: seq<Byte>, node: Node, after: seq<Byte>)

  /** `behind` is the white space between the name and its colon. */
  datatype Member = Member(before: seq<Byte>, name: seq<Piece>, behind: seq<Byte>, item: Item)

  // ---------------------------------------------------------------- the grammar

  /** Section 2: white space. */
  predicate Gap(s: seq<Byte>) {
    forall i :: 0 <= i < |s| ==> s[i] == 0x20 || s[i] == 0x09 || s[i] == 0x0A || s[i] == 0x0D
  }

  predicate Numeral(s: seq<Byte>) {
    forall i :: 0 <= i < |s| ==> 0x30 <= s[i] <= 0x39
  }

  /** Section 6: numbers. */
  predicate Grammatical(a: Atom) {
    a.Number? ==>
      && a.whole != [] && Numeral(a.whole) && (|a.whole| > 1 ==> a.whole[0] != 0x30)
      && (a.fraction != [] ==> |a.fraction| > 1 && a.fraction[0] == 0x2E && Numeral(a.fraction[1..]))
      && (a.exponent != [] ==> ExponentPart(a.exponent))
  }

  predicate ExponentPart(s: seq<Byte>) {
    && |s| > 1 && (s[0] == 0x65 || s[0] == 0x45)
    && if s[1] == 0x2B || s[1] == 0x2D then |s| > 2 && Numeral(s[2..]) else Numeral(s[1..])
  }

  /** Section 7: strings. Whether bytes above ASCII form UTF-8 is not looked at. */
  predicate PieceFits(p: Piece) {
    match p
    case Raw(c) => c >= 0x20 && c != 0x22 && c != 0x5C
    case Short(letter) => Stands(letter).Some?
    case Universal(code, digits) => HexNumber(digits) == Some(code)
  }

  /** What the short escapes stand for. */
  function Stands(letter: Byte): Option<Byte> {
    if letter == 0x22 || letter == 0x5C || letter == 0x2F then Some(letter)
    else if letter == 0x62 then Some(8)
    else if letter == 0x66 then Some(12)
    else if letter == 0x6E then Some(10)
    else if letter == 0x72 then Some(13)
    else if letter == 0x74 then Some(9)
    else None
  }

  function HexDigit(c: Byte): (v: Option<nat>)
    ensures v.Some? ==> v.value < 16
  {
    if 0x30 <= c <= 0x39 then Some(c - 0x30)
    else if 0x41 <= c <= 0x46 then Some(c - 0x41 + 10)
    else if 0x61 <= c <= 0x66 then Some(c - 0x61 + 10)
    else None
  }

  /** The number that four hexadecimal digits spell. */
  function HexNumber(digits: seq<Byte>): Option<nat> {
    if |digits| != 4 then None
    else
      var a, b, c, d := HexDigit(digits[0]), HexDigit(digits[1]), HexDigit(digits[2]), HexDigit(digits[3]);
      if a.Some? && b.Some? && c.Some? && d.Some? then Some(4096 * a.value + 256 * b.value + 16 * c.value + d.value)
      else None
  }

  predicate PiecesFit(ps: seq<Piece>) {
    forall i :: 0 <= i < |ps| ==> PieceFits(ps[i])
  }

  predicate Valid(n: Node)
    decreases n, 1
  {
    match n
    case Word(atom) => Grammatical(atom)
    case Text(pieces) => PiecesFit(pieces)
    case Items(gap, items) => Gap(gap) && ValidItems(items)
    case Members(gap, members) => Gap(gap) && ValidMembers(members)
  }

  predicate ValidItems(items: seq<Item>)
    decreases items, 0
  {
    items != [] ==> ValidItem(items[0]) && ValidItems(items[1..])
  }

  predicate ValidItem(x: Item)
    decreases x, 2
  {
    Gap(x.before) && Valid(x.node) && Gap(x.after)
  }

  predicate ValidMembers(members: seq<Member>)
    decreases members, 0
  {
    members != [] ==> ValidMember(members[0]) && ValidMembers(members[1..])
  }

  predicate ValidMember(m: Member)
    decreases m, 3
  {
    Gap(m.before) && PiecesFit(m.name) && Gap(m.behind) && ValidItem(m.item)
  }

  // ---------------------------------------------------------------- their bytes

  function SpellPiece(p: Piece): seq<Byte> {
    match p
    case Raw(c) => [c]
    case Short(letter) => [0x5C, letter]
    case Universal(_, digits) => [0x5C, 0x75] + digits
  }

  function Spell(ps: seq<Piece>): seq<Byte> {
    if ps == [] then [] else SpellPiece(ps[0]) + Spell(ps[1..])
  }

  function InQuotes(ps: seq<Piece>): seq<Byte> {
    [0x22] + Spell(ps) + [0x22]
  }

  function SpellAtom(a: Atom): seq<Byte> {
    match a
    case True => [0x74, 0x72, 0x75, 0x65]
    case False => [0x66, 0x61, 0x6C, 0x73, 0x65]
    case Nothing => [0x6E, 0x75, 0x6C, 0x6C]
    case Number(minus, whole, fraction, exponent) => (if minus then [0x2D] else []) + whole + (fraction + exponent)
  }

  function Render(n: Node): seq<Byte>
    decreases n, 1
  {
    match n
    case Word(atom) => SpellAtom(atom)
    case Text(pieces) => InQuotes(pieces)
    case Items(gap, items) => [0x5B] + (gap + RenderItems(items)) + [0x5D]
    case Members(gap, members) => [0x7B] + (gap + RenderMembers(members)) + [0x7D]
  }

  function RenderItems(items: seq<Item>): seq<Byte>
    decreases items, 0
  {
    if items == [] then []
    else RenderItem(items[0]) + (if |items| > 1 then [0x2C] + RenderItems(items[1..]) else [])
  }

  function RenderItem(x: Item): seq<Byte>
    decreases x, 2
  {
    x.before + (Render(x.node) + x.after)
  }

  function RenderMembers(members: seq<Member>): seq<Byte>
    decreases members, 0
  {
    if members == [] then []
    else RenderMember(members[0]) + (if |members| > 1 then [0x2C] + RenderMembers(members[1..]) else [])
  }

  function RenderMember(m: Member): seq<Byte>
    decreases m, 3
  {
    m.before + (InQuotes(m.name) + (m.behind + ([0x3A] + RenderItem(m.item))))
  }

  // ---------------------------------------------------------------- their meaning

  /** What a string becomes: the characters, in the encoding of the locale, up to a character 0. */
  function StringMeaning(lib: Library, ps: seq<Piece>): seq<Byte> {
    UpToNul(Characters(lib, ps))
  }

  function Characters(lib: Library, ps: seq<Piece>): seq<Byte> {
    if ps == [] then [] else Character(lib, ps[0]) + Characters(lib, ps[1..])
  }

  function Character(lib: Library, p: Piece): seq<Byte> {
    match p
    case Raw(c) => [c]
    case Short(letter) => if Stands(letter).Some? then [Stands(letter).value] else []
    case Universal(code, _) => if lib.c32rtomb(code).Some? then lib.c32rtomb(code).value else []
  }

  /** The number that the digits spell. */
  function DigitsValue(s: seq<Byte>): int {
    if s == [] then 0
    else
      var last: int := s[|s| - 1];
      DigitsValue(s[..|s| - 1]) * 10 + (last - 0x30)
  }

  /** Integers are signed if they can be; one that is out of range has no meaning. The rest is left to strtod. */
  function AtomMeaning(lib: Library, a: Atom): Data {
    match a
    case True => Bool(true)
    case False => Bool(false)
    case Nothing => Null
    case Number(minus, whole, fraction, exponent) =>
      if fraction != [] || exponent != [] then lib.strtod(SpellAtom(a))
      else
        var v := if minus then -DigitsValue(whole) else DigitsValue(whole);
        if -0x8000_0000_0000_0000 <= v < 0x8000_0000_0000_0000 then Int(Int64, v)
        else if 0 < v < 0x1_0000_0000_0000_0000 then Int(UInt64, v)
        else Missing
  }

  /** Items without a meaning take no slot, so that the last slots stay unset; of members with the same name the last
      one counts. */
  function Meaning(lib: Library, n: Node): Data
    decreases n, 1
  {
    match n
    case Word(atom) => AtomMeaning(lib, atom)
    case Text(pieces) => Str(StringMeaning(lib, pieces))
    case Items(_, items) =>
      var values := Values(lib, items);
      Vector(values + Unset(|items| - |values|))
    case Members(_, members) => Map(Bindings(lib, members, []))
  }

  function Values(lib: Library, items: seq<Item>): (ds: seq<Data>)
    ensures |ds| <= |items|
    decreases items, 0
  {
    if items == [] then []
    else
      var v := ItemMeaning(lib, items[0]);
      (if v == Missing then [] else [v]) + Values(lib, items[1..])
  }

  function ItemMeaning(lib: Library, x: Item): Data
    decreases x, 2
  {
    Meaning(lib, x.node)
  }

  function Bindings(lib: Library, members: seq<Member>, es: seq<Entry>): seq<Entry>
    decreases members, 0
  {
    if members == [] then es
    else
      var v := MemberMeaning(lib, members[0]);
      Bindings(lib, members[1..], if v == Missing then es else Put(es, Str(StringMeaning(lib, members[0].name)), v))
  }

  function MemberMeaning(lib: Library, m: Member): Data
    decreases m, 3
  {
    ItemMeaning(lib, m.item)
  }

  // ---------------------------------------------------------------- universal escapes in the locale

  /** Every universal escape names a character that the locale has. */
  ghost predicate Representable(lib: Library, n: Node)
    decreases n, 1
  {
    match n
    case Word(_) => true
    case Text(pieces) => PiecesConvert(lib, pieces)
    case Items(_, items) => ItemsConvert(lib, items)
    case Members(_, members) => MembersConvert(lib, members)
  }

  ghost predicate PiecesConvert(lib: Library, ps: seq<Piece>) {
    forall i :: 0 <= i < |ps| && ps[i].Universal? ==> lib.c32rtomb(ps[i].code).Some?
  }

  ghost predicate ItemsConvert(lib: Library, items: seq<Item>)
    decreases items, 0
  {
    items != [] ==> ItemConverts(lib, items[0]) && ItemsConvert(lib, items[1..])
  }

  ghost predicate ItemConverts(lib: Library, x: Item)
    decreases x, 2
  {
    Representable(lib, x.node)
  }

  ghost predicate MembersConvert(lib: Library, members: seq<Member>)
    decreases members, 0
  {
    members != [] ==> MemberConverts(lib, members[0]) && MembersConvert(lib, members[1..])
  }

  ghost predicate MemberConverts(lib: Library, m: Member)
    decreases m, 3
  {
    PiecesConvert(lib, m.name) && ItemConverts(lib, m.item)
  }
}
