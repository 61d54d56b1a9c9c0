// What is printed comes back: parsing the text printed for a value gives the value, with any white space between the
// tokens.
module JsonRoundTrip {
  import opened Bytes
  import opened Options
  import opened CLibrary
  import opened Sequences
  import opened ArrayElements
  import opened DataOrder
  import opened OrderedEntries
  import opened JsonTokens
  import opened JsonText
  import opened JsonGrammar
  import opened JsonReading
  import opened JsonBuilder
  import Base64
  import CborCodec

  // ---------------------------------------------------------------- the values that have a text

  /** Values without pointers and unset slots, with strings that are C strings, numbers of their type, arrays of whole
      elements, and keys that are strings or scalars. */
  ghost predicate Textual(d: Data)
    decreases d, 1
  {
    match d
    case Str(chars) => NUL !in chars
    case Int(kind, v) => InRange(kind, v)
    case Bool(_) => true
    case Null => true
    case Array(binary, length, element, bytes, _) =>
      binary || (ElementType(element) && |bytes| == length * ElementSize(element))
    case Vector(slots) => TextualSeq(slots)
    case List(elements) => TextualSeq(elements)
    case Map(entries) => TextualEntries(entries)
    case _ => false
  }

  ghost predicate TextualSeq(ds: seq<Data>)
    decreases ds, 0
  {
    ds != [] ==> Textual(ds[0]) && TextualSeq(ds[1..])
  }

  ghost predicate TextualEntries(es: seq<Entry>)
    decreases es, 0
  {
    es != [] ==> TextualEntry(es[0]) && TextualEntries(es[1..])
  }

  /** An entry may have no value. */
  ghost predicate TextualEntry(e: Entry)
    decreases e, 1
  {
    && (e.key.Str? ==> NUL !in e.key.chars) && (e.key.Str? || Simple(e.key))
    && (e.value.Missing? || Textual(e.value))
  }

  predicate Simple(d: Data) {
    (d.Int? && InRange(d.kind, d.value)) || d.Bool? || d.Null?
  }

  // ---------------------------------------------------------------- what comes back

  /** Numbers come back as 64-bit integers, signed if they can be; arrays and lists as vectors, an array as that of the
      values in its memory; binary data as its base64 text; map entries without a value not at all, and all keys as
      strings. */
  function Back(d: Data): Data
    decreases d, 1
  {
    match d
    case Int(_, v) => Int(if v < 0x8000_0000_0000_0000 then Int64 else UInt64, v)
    case Array(binary, _, _, bytes, _) =>
      if binary then Str(Base64.Encode(bytes)) else Vector(BackScalars(Elements(d)))
    case Vector(slots) => Vector(BackSeq(slots))
    case List(elements) => Vector(BackSeq(elements))
    case Map(entries) => Map(BackEntries(entries, []))
    case _ => d
  }

  function BackScalars(ds: seq<Data>): seq<Data> {
    if ds == [] then []
    else [if ds[0].Int? then Int(if ds[0].value < 0x8000_0000_0000_0000 then Int64 else UInt64, ds[0].value) else ds[0]] +
         BackScalars(ds[1..])
  }

  function BackSeq(ds: seq<Data>): seq<Data>
    decreases ds, 0
  {
    if ds == [] then [] else [Back(ds[0])] + BackSeq(ds[1..])
  }

  function BackEntries(es: seq<Entry>, done: seq<Entry>): seq<Entry>
    decreases es, 0
  {
    if es == [] then done
    else if es[0].value.Missing? then BackEntries(es[1..], done)
    else BackEntries(es[1..], Put(done, Str(KeyText(es[0].key)), BackValue(es[0])))
  }

  function BackValue(e: Entry): Data
    decreases e, 1
  {
    Back(e.value)
  }

  function KeyText(key: Data): seq<Byte> {
    if key.Str? then key.chars else PrintScalar(key)
  }

  // ---------------------------------------------------------------- the text that is printed, as a tree

  /** How the printer writes a character of a string. */
  function PieceOf(c: Byte): Piece {
    if ReprSize(c) == 1 then Raw(c)
    else if ReprSize(c) == 2 then Short(Letter(c))
    else Universal(c, [48, 48, if c >= 16 then 49 else 48, HexChar(c % 16)])
  }

  function PiecesOf(s: seq<Byte>): seq<Piece> {
    if s == [] then [] else [PieceOf(s[0])] + PiecesOf(s[1..])
  }

  function AtomOf(d: Data): Atom {
    match d
    case Int(_, v) => Number(v < 0, Digits(if v < 0 then -v else v), [], [])
    case Bool(b) => if b then True else False
    case _ => Nothing
  }

  function NodeOf(d: Data): Node
    decreases d, 1
  {
    match d
    case Str(chars) => Text(PiecesOf(chars))
    case Array(binary, _, _, bytes, _) =>
      if binary then Text(PiecesOf(Base64.Encode(bytes))) else Items([], ScalarItems(Elements(d)))
    case Vector(slots) => Items([], ItemsOf(slots))
    case List(elements) => Items([], ItemsOf(elements))
    case Map(entries) => Members([], MembersOf(entries))
    case _ => Word(AtomOf(d))
  }

  function ScalarItems(ds: seq<Data>): seq<Item> {
    if ds == [] then [] else [Item([], Word(AtomOf(ds[0])), [])] + ScalarItems(ds[1..])
  }

  function ItemsOf(ds: seq<Data>): seq<Item>
    decreases ds, 0
  {
    if ds == [] then [] else [Item([], NodeOf(ds[0]), [])] + ItemsOf(ds[1..])
  }

  function MembersOf(es: seq<Entry>): seq<Member>
    decreases es, 0
  {
    if es == [] then []
    else if es[0].value.Missing? then MembersOf(es[1..])
    else [MemberOf(es[0])] + MembersOf(es[1..])
  }

  function MemberOf(e: Entry): Member
    decreases e, 1
  {
    Member([], PiecesOf(KeyText(e.key)), [], Item([], NodeOf(e.value), []))
  }

  // ---------------------------------------------------------------- strings

  lemma PieceIsPrinted(lib: Library, c: Byte)
    requires c != NUL
    ensures PieceFits(PieceOf(c)) && SpellPiece(PieceOf(c)) == EscapeChar(c) && Character(lib, PieceOf(c)) == [c]
    ensures PieceOf(c).Universal? ==> PieceOf(c).code < 0x80
  {
    if ReprSize(c) == 6 {
      var digits := PieceOf(c).digits;
      assert HexDigit(HexChar(c % 16)) == Some(c % 16);
      assert HexNumber(digits) == Some(c);
    }
  }

  /** The piece stands for the character. */
  ghost predicate StandsFor(p: Piece, c: Byte) {
    match p
    case Raw(b) => b == c
    case Short(letter) => Stands(letter) == Some(c)
    case Universal(code, _) => code == c
  }

  predicate NoCapitals(s: seq<Byte>) { forall i :: 0 <= i < |s| ==> !(0x41 <= s[i] <= 0x5A) }

  /** Of the ways in which section 7 of RFC 8259 lets a character be written, the printer takes the shortest, and small
      letters as digits. */
  lemma EscapeIsShortest(c: Byte, p: Piece)
    requires c != NUL && PieceFits(p) && StandsFor(p, c)
    ensures |EscapeChar(c)| <= |SpellPiece(p)| && (|EscapeChar(c)| == 6 ==> NoCapitals(EscapeChar(c)))
    ensures |EscapeChar(c)| == |SpellPiece(p)| && NoCapitals(SpellPiece(p)) ==> SpellPiece(p) == EscapeChar(c)
  {
    if p.Universal? && |EscapeChar(c)| == 6 && NoCapitals(SpellPiece(p)) {
      assert p.digits == SpellPiece(p)[2..];
      LowDigits(p.digits, c);
    }
  }

  lemma LowDigits(digits: seq<Byte>, c: Byte)
    requires HexNumber(digits) == Some(c as nat) && c < 32 && NoCapitals(digits)
    ensures digits == [48, 48, if c >= 16 then 49 else 48, HexChar(c % 16)]
  {
  }

  lemma {:induction false} PiecesArePrinted(lib: Library, s: seq<Byte>)
    requires NUL !in s
    ensures PiecesFit(PiecesOf(s)) && PiecesConvert(lib, PiecesOf(s))
    ensures Spell(PiecesOf(s)) == Escape(s) && Characters(lib, PiecesOf(s)) == s
  {
    hide PieceFits, SpellPiece, Character, PieceOf, EscapeChar;
    if s != [] {
      PieceIsPrinted(lib, s[0]);
      PiecesArePrinted(lib, s[1..]);
    }
  }

  /** The text of a string. */
  lemma StringIsPrinted(lib: Library, s: seq<Byte>)
    requires NUL !in s
    ensures PiecesFit(PiecesOf(s)) && PiecesConvert(lib, PiecesOf(s))
    ensures InQuotes(PiecesOf(s)) == Quoted(Escape(s)) && StringMeaning(lib, PiecesOf(s)) == s
  {
    PiecesArePrinted(lib, s);
    NulFree(s);
    hide PiecesFit, PiecesConvert, Spell, Escape, Characters;
  }

  predicate NeedsNoEscape(s: seq<Byte>) {
    forall i :: 0 <= i < |s| ==> s[i] >= 32 && s[i] != 34 && s[i] != 92
  }

  lemma {:induction false} EscapesNothing(s: seq<Byte>)
    requires NeedsNoEscape(s)
    ensures Escape(s) == s && NUL !in s
  {
    if s != [] {
      EscapesNothing(s[1..]);
      assert s == [s[0]] + s[1..];
    }
  }

  lemma NoEscapeConcat(a: seq<Byte>, b: seq<Byte>)
    requires NeedsNoEscape(a) && NeedsNoEscape(b)
    ensures NeedsNoEscape(a + b)
  {
  }

  lemma EncIsPlain(v: Base64.Sextet)
    ensures Base64.Enc(v) >= 32 && Base64.Enc(v) != 34 && Base64.Enc(v) != 92
  {
  }

  lemma {:induction false} SymbolsArePlain(data: seq<Byte>)
    ensures NeedsNoEscape(Base64.Symbols(data))
    decreases |data|
  {
    forall v: Base64.Sextet
      ensures Base64.Enc(v) >= 32 && Base64.Enc(v) != 34 && Base64.Enc(v) != 92
    {
      EncIsPlain(v);
    }
    hide Base64.Enc;
    if |data| >= 3 {
      SymbolsArePlain(data[3..]);
      NoEscapeConcat(Base64.Quad(data[0], data[1], data[2]), Base64.Symbols(data[3..]));
    }
  }

  lemma Base64IsPlain(data: seq<Byte>)
    ensures NeedsNoEscape(Base64.Encode(data)) && (data == [] ==> Base64.Encode(data) == [])
  {
    SymbolsArePlain(data);
    Base64.PaddingCount(|Base64.Symbols(data)|);
    NoEscapeConcat(Base64.Symbols(data), Base64.Padding(|Base64.Symbols(data)|));
  }

  // ---------------------------------------------------------------- numbers

  lemma {:induction false} DigitsAreNumeral(n: nat)
    ensures Digits(n) != [] && Numeral(Digits(n)) && (|Digits(n)| > 1 ==> Digits(n)[0] != 0x30 && n >= 10)
    ensures n > 0 ==> Digits(n)[0] != 0x30
    ensures DigitsValue(Digits(n)) == n
  {
    if n < 10 {
      assert [48 + n][..0] == [];
    } else {
      DigitsAreNumeral(n / 10);
      var front := Digits(n / 10);
      assert (front + [48 + n % 10])[..|front|] == front;
    }
  }

  lemma SpelledInteger(minus: bool, whole: seq<Byte>)
    ensures SpellAtom(Number(minus, whole, [], [])) == (if minus then [0x2D] + whole else whole)
  {
    var sign: seq<Byte> := if minus then [0x2D] else [];
    var none: seq<Byte> := [];
    assert none + none == [];
    NoPrefix(whole);
    NoSuffix(sign + whole);
  }

  lemma WidestRange(kind: IntType, v: int)
    requires InRange(kind, v)
    ensures -0x8000_0000_0000_0000 <= v < 0x1_0000_0000_0000_0000
  {
  }

  lemma IntegerIsGrammatical(minus: bool, n: nat)
    ensures Grammatical(Number(minus, Digits(n), [], []))
  {
    DigitsAreNumeral(n);
    hide Digits, DigitsValue, Numeral;
  }

  lemma IntegerMeans(lib: Library, v: int)
    requires -0x8000_0000_0000_0000 <= v < 0x1_0000_0000_0000_0000
    ensures var n := if v < 0 then -v else v;
      AtomMeaning(lib, Number(v < 0, Digits(n), [], [])) == Int(if v < 0x8000_0000_0000_0000 then Int64 else UInt64, v)
  {
    DigitsAreNumeral(if v < 0 then -v else v);
    hide Digits, DigitsValue, SpellAtom;
  }

  lemma IntegerIsPrinted(lib: Library, d: Data)
    requires d.Int? && InRange(d.kind, d.value)
    ensures Grammatical(AtomOf(d)) && SpellAtom(AtomOf(d)) == PrintScalar(d) && AtomMeaning(lib, AtomOf(d)) == Back(d)
  {
    var n := if d.value < 0 then -d.value else d.value;
    WidestRange(d.kind, d.value);
    IntegerIsGrammatical(d.value < 0, n);
    IntegerMeans(lib, d.value);
    SpelledInteger(d.value < 0, Digits(n));
    hide Digits, SpellAtom, Grammatical, AtomMeaning, InRange;
  }

  /** The text of a scalar. */
  lemma AtomIsPrinted(lib: Library, d: Data)
    requires Simple(d)
    ensures Grammatical(AtomOf(d)) && SpellAtom(AtomOf(d)) == PrintScalar(d) && AtomMeaning(lib, AtomOf(d)) == Back(d)
    ensures Back(d) != Missing
  {
    if d.Int? {
      IntegerIsPrinted(lib, d);
      hide AtomOf, SpellAtom, PrintScalar, AtomMeaning, Grammatical;
    }
  }

  lemma ScalarNeedsNoEscape(d: Data)
    requires Simple(d)
    ensures NeedsNoEscape(PrintScalar(d))
  {
    if d.Int? { DigitsAreNumeral(if d.value < 0 then -d.value else d.value); }
    hide Digits;
  }

  // ---------------------------------------------------------------- values

  lemma BareItem(n: Node)
    ensures RenderItem(Item([], n, [])) == Render(n)
  {
    NoPrefix(Render(n));
    NoSuffix(Render(n));
  }

  lemma NoGap()
    ensures Gap([])
  {
  }

  /** The text that is printed for a value is that of its tree, which is grammatical and means what comes back. */
  lemma {:induction false} IsPrinted(lib: Library, d: Data)
    requires Textual(d)
    ensures Render(NodeOf(d)) == Print(d) && Valid(NodeOf(d)) && Representable(lib, NodeOf(d))
    ensures Meaning(lib, NodeOf(d)) == Back(d) != Missing
    decreases d, 1
  {
    hide RenderItems, RenderMembers, PrintSeq, PrintEntries, PrintScalars, Values, Bindings, SpellAtom, Grammatical;
    hide PiecesOf, PiecesFit, PiecesConvert, InQuotes, StringMeaning, Escape, Quoted, AtomOf, AtomMeaning, Elements, PrintScalar;
    match d
    case Str(chars) => StringIsPrinted(lib, chars);
    case Array(binary, length, element, bytes, _) =>
      if binary {
        BinaryIsPrinted(lib, d);
      } else {
        ElementsAreSimple(d);
        ScalarsArePrinted(lib, Elements(d));
        Bracketed(Ch('['), PrintScalars(Elements(d)), Ch(']'));
        AllSet(BackScalars(Elements(d)));
      }
    case Vector(slots) =>
      SeqIsPrinted(lib, slots);
      Bracketed(Ch('['), PrintSeq(slots), Ch(']'));
      AllSet(BackSeq(slots));
    case List(elements) =>
      SeqIsPrinted(lib, elements);
      Bracketed(Ch('['), PrintSeq(elements), Ch(']'));
      AllSet(BackSeq(elements));
    case Map(entries) =>
      EntriesArePrinted(lib, entries, true, []);
      Bracketed(Ch('{'), PrintEntries(entries, true), Ch('}'));
    case _ => AtomIsPrinted(lib, d);
  }

  lemma Bracketed(open: Byte, body: seq<Byte>, close: Byte)
    ensures [open] + ([] + body) + [close] == [open] + body + [close]
  {
    NoPrefix(body);
  }

  lemma AllSet(ds: seq<Data>)
    ensures ds + Unset(0) == ds
  {
    NoSuffix(ds);
  }

  lemma BinaryIsPrinted(lib: Library, d: Data)
    requires d.Array? && d.binary
    ensures Print(d) == Render(NodeOf(d)) && Valid(NodeOf(d)) && Representable(lib, NodeOf(d))
    ensures Meaning(lib, NodeOf(d)) == Back(d)
  {
    var text := Base64.Encode(d.bytes);
    Base64IsPlain(d.bytes);
    EscapesNothing(text);
    StringIsPrinted(lib, text);
    hide Base64.Encode, Escape, PiecesOf, PiecesFit, PiecesConvert, InQuotes, StringMeaning, Quoted, NeedsNoEscape;
  }

  lemma ElementsAreSimple(d: Data)
    requires d.Array? && !d.binary && Textual(d)
    ensures forall i :: 0 <= i < |Elements(d)| ==> Simple(Elements(d)[i])
  {
    CborCodec.ElementsAreScalar(d.element, d.bytes, d.length);
    NoNulls(d.element, d.bytes);
    hide ElementsFrom, InRange;
  }

  lemma {:induction false} NoNulls(code: nat, bytes: seq<Byte>)
    ensures forall i :: 0 <= i < |ElementsFrom(code, bytes)| ==> !ElementsFrom(code, bytes)[i].Null?
    decreases |bytes|
  {
    if ElementType(code) && |bytes| >= ElementSize(code) { NoNulls(code, bytes[ElementSize(code)..]); }
  }

  lemma ItemsJoin(lib: Library, x: Item, rest: seq<Item>)
    ensures RenderItems([x] + rest) == RenderItem(x) + (if rest != [] then [COMMA] + RenderItems(rest) else [])
    ensures ValidItems([x] + rest) <==> ValidItem(x) && ValidItems(rest)
    ensures ItemsConvert(lib, [x] + rest) <==> ItemConverts(lib, x) && ItemsConvert(lib, rest)
    ensures ItemMeaning(lib, x) != Missing ==> Values(lib, [x] + rest) == [ItemMeaning(lib, x)] + Values(lib, rest)
  {
    assert ([x] + rest)[1..] == rest;
    hide RenderItem, ValidItem, ItemConverts, ItemMeaning;
  }

  lemma {:induction false} ScalarsArePrinted(lib: Library, ds: seq<Data>)
    requires forall i :: 0 <= i < |ds| ==> Simple(ds[i])
    ensures RenderItems(ScalarItems(ds)) == PrintScalars(ds)
    ensures ValidItems(ScalarItems(ds)) && ItemsConvert(lib, ScalarItems(ds))
    ensures Values(lib, ScalarItems(ds)) == BackScalars(ds) && |ScalarItems(ds)| == |ds| == |BackScalars(ds)|
  {
    if ds != [] {
      var x := Item([], Word(AtomOf(ds[0])), []);
      ScalarIsItem(lib, ds[0], x);
      ScalarsArePrinted(lib, ds[1..]);
      ItemsJoin(lib, x, ScalarItems(ds[1..]));
      hide RenderItem, Simple, ValidItem, ItemConverts, ItemMeaning, RenderItems, ValidItems, ItemsConvert, Values, PrintScalar, AtomOf;
    }
  }

  lemma ScalarIsItem(lib: Library, d: Data, x: Item)
    requires Simple(d) && x == Item([], Word(AtomOf(d)), [])
    ensures RenderItem(x) == PrintScalar(d) && ValidItem(x) && ItemConverts(lib, x)
    ensures ItemMeaning(lib, x) == (if d.Int? then Int(if d.value < 0x8000_0000_0000_0000 then Int64 else UInt64, d.value) else d)
  {
    AtomIsPrinted(lib, d);
    BareItem(Word(AtomOf(d)));
    ScalarBack(d);
    hide RenderItem, SpellAtom, PrintScalar, Grammatical, AtomMeaning, AtomOf, Back;
  }

  lemma ScalarBack(d: Data)
    requires Simple(d)
    ensures Back(d) == if d.Int? then Int(if d.value < 0x8000_0000_0000_0000 then Int64 else UInt64, d.value) else d
  {
  }

  lemma {:induction false} SeqIsPrinted(lib: Library, ds: seq<Data>)
    requires TextualSeq(ds)
    ensures RenderItems(ItemsOf(ds)) == PrintSeq(ds)
    ensures ValidItems(ItemsOf(ds)) && ItemsConvert(lib, ItemsOf(ds))
    ensures Values(lib, ItemsOf(ds)) == BackSeq(ds) && |ItemsOf(ds)| == |ds| == |BackSeq(ds)|
    decreases ds, 0
  {
    if ds != [] {
      IsPrinted(lib, ds[0]);
      BareItem(NodeOf(ds[0]));
      NoGap();
      SeqIsPrinted(lib, ds[1..]);
      hide NodeOf, Print, Render, Valid, Representable, Meaning, Back, RenderItem, Textual;
    }
  }

  /** The printed entries, behind others or first. */
  lemma {:induction false} EntriesArePrinted(lib: Library, es: seq<Entry>, first: bool, done: seq<Entry>)
    requires TextualEntries(es)
    ensures var members := MembersOf(es);
      && PrintEntries(es, first) == (if first || members == [] then [] else [COMMA]) + RenderMembers(members)
      && ValidMembers(members) && MembersConvert(lib, members)
      && Bindings(lib, members, done) == BackEntries(es, done)
    decreases es, 0
  {
    hide *;
    if es == [] {
      NoEntries(lib, es, first, done);
    } else {
      EntriesParts(es, first);
      if es[0].value.Missing? {
        EntriesArePrinted(lib, es[1..], first, done);
        SkippedEntry(lib, es, done);
      } else {
        EntryIsPrinted(lib, es[0]);
        var done' := Put(done, Str(KeyText(es[0].key)), BackValue(es[0]));
        EntriesArePrinted(lib, es[1..], false, done');
        FirstEntry(lib, es, done);
        JoinedMembers(MemberOf(es[0]), MembersOf(es[1..]));
        Joined(if first then [] else [COMMA], PrintEntry(es[0]), PrintEntries(es[1..], false));
      }
    }
  }

  lemma NoEntries(lib: Library, es: seq<Entry>, first: bool, done: seq<Entry>)
    requires es == []
    ensures MembersOf(es) == [] && PrintEntries(es, first) == [] == [] + RenderMembers(MembersOf(es))
    ensures ValidMembers(MembersOf(es)) && MembersConvert(lib, MembersOf(es))
    ensures Bindings(lib, MembersOf(es), done) == done == BackEntries(es, done)
  {
  }

  lemma EntriesParts(es: seq<Entry>, first: bool)
    requires TextualEntries(es) && es != []
    ensures TextualEntry(es[0]) && TextualEntries(es[1..])
    ensures PrintEntries(es, first) ==
              if es[0].value.Missing? then PrintEntries(es[1..], first)
              else (if first then [] else [COMMA]) + PrintEntry(es[0]) + PrintEntries(es[1..], false)
  {
    hide TextualEntry, PrintEntry;
  }

  lemma SkippedEntry(lib: Library, es: seq<Entry>, done: seq<Entry>)
    requires es != [] && es[0].value.Missing?
    ensures MembersOf(es) == MembersOf(es[1..]) && BackEntries(es, done) == BackEntries(es[1..], done)
  {
    hide Put;
  }

  lemma Joined(comma: seq<Byte>, one: seq<Byte>, rest: seq<Byte>)
    ensures comma + one + rest == comma + (one + rest)
  {
    Assoc(comma, one, rest);
  }

  lemma JoinedMembers(m: Member, rest: seq<Member>)
    ensures RenderMembers([m] + rest) == RenderMember(m) + ((if rest == [] then [] else [COMMA]) + RenderMembers(rest))
    ensures [m] + rest != []
  {
    assert ([m] + rest)[1..] == rest;
    NoPrefix(RenderMembers(rest));
    hide RenderMember;
  }

  lemma FirstEntry(lib: Library, es: seq<Entry>, done: seq<Entry>)
    requires es != [] && !es[0].value.Missing? && MemberMeaning(lib, MemberOf(es[0])) == BackValue(es[0]) != Missing
    requires StringMeaning(lib, MemberOf(es[0]).name) == KeyText(es[0].key)
    ensures MembersOf(es) == [MemberOf(es[0])] + MembersOf(es[1..])
    ensures var done' := Put(done, Str(KeyText(es[0].key)), BackValue(es[0]));
      && BackEntries(es, done) == BackEntries(es[1..], done')
      && Bindings(lib, MembersOf(es), done) == Bindings(lib, MembersOf(es[1..]), done')
    ensures ValidMember(MemberOf(es[0])) && ValidMembers(MembersOf(es[1..])) ==> ValidMembers(MembersOf(es))
    ensures MemberConverts(lib, MemberOf(es[0])) && MembersConvert(lib, MembersOf(es[1..])) ==> MembersConvert(lib, MembersOf(es))
  {
    hide Put, KeyText, BackValue, MemberMeaning, StringMeaning, MemberOf, ValidMember, MemberConverts;
    assert MembersOf(es)[1..] == MembersOf(es[1..]);
  }

  lemma {:induction false} EntryIsPrinted(lib: Library, e: Entry)
    requires TextualEntry(e) && !e.value.Missing?
    ensures RenderMember(MemberOf(e)) == PrintEntry(e) && ValidMember(MemberOf(e)) && MemberConverts(lib, MemberOf(e))
    ensures MemberMeaning(lib, MemberOf(e)) == BackValue(e) != Missing
    ensures StringMeaning(lib, MemberOf(e).name) == KeyText(e.key)
    decreases e, 1
  {
    IsPrinted(lib, e.value);
    BareItem(NodeOf(e.value));
    NoGap();
    KeyIsPrinted(lib, e);
    var name, value := InQuotes(PiecesOf(KeyText(e.key))), [COLON] + Print(e.value);
    NoPrefix(value);
    NoPrefix(name + value);
    Assoc(name, [COLON], Print(e.value));
    hide NodeOf, Print, Render, Valid, Representable, Meaning, Back, RenderItem, Textual, PiecesOf, KeyText, InQuotes, Gap;
    hide PiecesFit, PiecesConvert, StringMeaning;
  }

  lemma KeyIsPrinted(lib: Library, e: Entry)
    requires TextualEntry(e)
    ensures PrintEntry(e) == InQuotes(PiecesOf(KeyText(e.key))) + [COLON] + Print(e.value)
    ensures PiecesFit(PiecesOf(KeyText(e.key))) && PiecesConvert(lib, PiecesOf(KeyText(e.key)))
    ensures StringMeaning(lib, PiecesOf(KeyText(e.key))) == KeyText(e.key)
  {
    if e.key.Str? {
      StringIsPrinted(lib, e.key.chars);
    } else {
      ScalarNeedsNoEscape(e.key);
      EscapesNothing(PrintScalar(e.key));
      StringIsPrinted(lib, PrintScalar(e.key));
    }
    hide PiecesOf, PiecesFit, PiecesConvert, InQuotes, StringMeaning, Escape, Quoted, NeedsNoEscape, PrintScalar, Textual;
  }

  // ---------------------------------------------------------------- white space

  /** The tree without its white space. */
  function Strip(n: Node): Node
    decreases n, 1
  {
    match n
    case Items(_, items) => Items([], StripItems(items))
    case Members(_, members) => Members([], StripMembers(members))
    case _ => n
  }

  function StripItems(items: seq<Item>): (stripped: seq<Item>)
    ensures |stripped| == |items|
    decreases items, 0
  {
    if items == [] then [] else [StripItem(items[0])] + StripItems(items[1..])
  }

  function StripItem(x: Item): Item
    decreases x, 2
  {
    Item([], Strip(x.node), [])
  }

  function StripMembers(members: seq<Member>): seq<Member>
    decreases members, 0
  {
    if members == [] then [] else [StripMember(members[0])] + StripMembers(members[1..])
  }

  function StripMember(m: Member): Member
    decreases m, 3
  {
    Member([], m.name, [], StripItem(m.item))
  }

  /** White space has no meaning. */
  lemma {:induction false} StripMeans(lib: Library, n: Node)
    ensures Meaning(lib, Strip(n)) == Meaning(lib, n)
    ensures Representable(lib, Strip(n)) <==> Representable(lib, n)
    decreases n, 1
  {
    match n
    case Items(_, items) => StripItemsMean(lib, items);
    case Members(_, members) => StripMembersMean(lib, members, []);
    case _ =>
  }

  lemma {:induction false} StripItemsMean(lib: Library, items: seq<Item>)
    ensures Values(lib, StripItems(items)) == Values(lib, items)
    ensures ItemsConvert(lib, StripItems(items)) <==> ItemsConvert(lib, items)
    decreases items, 0
  {
    if items != [] {
      StripItemMeans(lib, items[0]);
      StripItemsMean(lib, items[1..]);
      hide StripItem, ItemMeaning, ItemConverts;
    }
  }

  lemma {:induction false} StripItemMeans(lib: Library, x: Item)
    ensures ItemMeaning(lib, StripItem(x)) == ItemMeaning(lib, x)
    ensures ItemConverts(lib, StripItem(x)) <==> ItemConverts(lib, x)
    decreases x, 2
  {
    StripMeans(lib, x.node);
  }

  lemma {:induction false} StripMembersMean(lib: Library, members: seq<Member>, es: seq<Entry>)
    ensures Bindings(lib, StripMembers(members), es) == Bindings(lib, members, es)
    ensures MembersConvert(lib, StripMembers(members)) <==> MembersConvert(lib, members)
    decreases members, 0
  {
    if members != [] {
      StripMemberMeans(lib, members[0]);
      var v := MemberMeaning(lib, members[0]);
      StripMembersMean(lib, members[1..], if v == Missing then es else Put(es, Str(StringMeaning(lib, members[0].name)), v));
      hide StripMember, MemberMeaning, MemberConverts, StringMeaning, Put;
    }
  }

  lemma {:induction false} StripMemberMeans(lib: Library, m: Member)
    ensures MemberMeaning(lib, StripMember(m)) == MemberMeaning(lib, m) && StripMember(m).name == m.name
    ensures MemberConverts(lib, StripMember(m)) <==> MemberConverts(lib, m)
    decreases m, 3
  {
    StripItemMeans(lib, m.item);
  }

  /** The text consists of the tokens printed for the value, with any white space before, between and after them. */
  ghost predicate Spaced(d: Data, text: seq<Byte>) {
    exists before, n, after ::
      Gap(before) && Gap(after) && Valid(n) && Strip(n) == NodeOf(d) && text == before + (Render(n) + after)
  }

  /** Such a text is read as the value that comes back, in every locale. */
  lemma SpacedRoundTrip(lib: Library, d: Data, text: seq<Byte>)
    requires Textual(d) && Spaced(d, text)
    ensures FromJson(lib, text) == Some(Back(d))
  {
    hide *;
    var before, n, after := SpacedParts(d, text);
    IsPrinted(lib, d);
    StripMeans(lib, n);
    EveryJsonText(lib, before, n, after);
    AnswerIs(Back(d));
  }

  lemma SpacedParts(d: Data, text: seq<Byte>) returns (before: seq<Byte>, n: Node, after: seq<Byte>)
    requires Spaced(d, text)
    ensures Gap(before) && Gap(after) && Valid(n) && Strip(n) == NodeOf(d) && text == before + (Render(n) + after)
  {
    hide Gap, Valid, Strip, NodeOf, Render;
    before, n, after :| Gap(before) && Gap(after) && Valid(n) && Strip(n) == NodeOf(d) && text == before + (Render(n) + after);
  }

  lemma AnswerIs(d: Data)
    requires d != Missing
    ensures Answer(d) == d
  {
  }

  // ---------------------------------------------------------------- the round trip

  /** Parsing the text printed for a value gives what comes back of it. */
  lemma PrintedComesBack(lib: Library, d: Data)
    requires Textual(d)
    ensures FromJson(lib, Print(d)) == Some(Back(d))
  {
    hide *;
    IsPrinted(lib, d);
    NoGap();
    EveryJsonText(lib, [], NodeOf(d), []);
    NoSuffix(Print(d));
    NoPrefix(Print(d));
    AnswerIs(Back(d));
  }

  // ---------------------------------------------------------------- the values that come back as they are

  /** Text keys, no unset slots, no NULL values, and the integer types the builder chooses. */
  ghost predicate Printable(d: Data)
    decreases d, 1
  {
    match d
    case Str(chars) => NUL !in chars
    case Int(kind, v) =>
      (kind == Int64 && -0x8000_0000_0000_0000 <= v < 0x8000_0000_0000_0000) ||
      (kind == UInt64 && 0x8000_0000_0000_0000 <= v < 0x1_0000_0000_0000_0000)
    case Bool(_) => true
    case Null => true
    case Vector(slots) => PrintableSeq(slots)
    case Map(entries) => PrintableEntries(entries) && Ascending(entries)
    case _ => false
  }

  ghost predicate PrintableSeq(ds: seq<Data>)
    decreases ds, 0
  {
    ds != [] ==> Printable(ds[0]) && PrintableSeq(ds[1..])
  }

  ghost predicate PrintableEntries(es: seq<Entry>)
    decreases es, 0
  {
    es != [] ==> PrintableEntry(es[0]) && PrintableEntries(es[1..])
  }

  ghost predicate PrintableEntry(e: Entry)
    decreases e, 1
  {
    e.key.Str? && NUL !in e.key.chars && Printable(e.value)
  }

  lemma {:induction false} PrintableIsTextual(d: Data)
    requires Printable(d)
    ensures Textual(d) && Back(d) == d
    decreases d, 1
  {
    hide Ascending;
    match d
    case Vector(slots) => SeqStays(slots);
    case Map(entries) =>
      NoPrefix(entries);
      EntriesStay(entries, []);
    case _ =>
  }

  lemma {:induction false} SeqStays(ds: seq<Data>)
    requires PrintableSeq(ds)
    ensures TextualSeq(ds) && BackSeq(ds) == ds
    decreases ds, 0
  {
    if ds != [] {
      PrintableIsTextual(ds[0]);
      SeqStays(ds[1..]);
      assert [ds[0]] + ds[1..] == ds;
      hide Printable, Textual, Back;
    }
  }

  lemma {:induction false} EntriesStay(es: seq<Entry>, done: seq<Entry>)
    requires PrintableEntries(es) && Ascending(done + es)
    ensures TextualEntries(es) && BackEntries(es, done) == done + es
    decreases es, 0
  {
    hide *;
    if es == [] {
      NoneStay(es, done);
    } else {
      PrintableRest(es);
      EntryStays(es[0]);
      assert es == [es[0]] + es[1..];
      Assoc(done, [es[0]], es[1..]);
      AscendingFront(done + [es[0]], es[1..]);
      PutLast(done, es[0].key, es[0].value);
      EntriesStay(es[1..], done + [es[0]]);
      FirstStays(es, done);
    }
  }

  lemma NoneStay(es: seq<Entry>, done: seq<Entry>)
    requires es == []
    ensures TextualEntries(es) && BackEntries(es, done) == done + es
  {
    NoSuffix(done);
  }

  lemma PrintableRest(es: seq<Entry>)
    requires PrintableEntries(es) && es != []
    ensures PrintableEntry(es[0]) && PrintableEntries(es[1..])
  {
    hide PrintableEntry;
  }

  lemma FirstStays(es: seq<Entry>, done: seq<Entry>)
    requires es != [] && TextualEntry(es[0]) && TextualEntries(es[1..]) && es[0].key.Str? && BackValue(es[0]) == es[0].value
    requires !es[0].value.Missing? && Put(done, es[0].key, es[0].value) == done + [es[0]]
    ensures TextualEntries(es) && BackEntries(es, done) == BackEntries(es[1..], done + [es[0]])
  {
    hide TextualEntry, Put, BackValue;
  }

  lemma {:induction false} EntryStays(e: Entry)
    requires PrintableEntry(e)
    ensures TextualEntry(e) && BackValue(e) == e.value && !e.value.Missing? && e.key.Str? && e == Entry(e.key, e.value)
    decreases e, 1
  {
    PrintableIsTextual(e.value);
    hide Textual, Back;
  }

  lemma PutLast(es: seq<Entry>, key: Data, value: Data)
    requires Ascending(es + [Entry(key, value)])
    ensures Put(es, key, value) == es + [Entry(key, value)]
  {
    hide Cmp;
    if es != [] {
      assert (es + [Entry(key, value)])[1..] == es[1..] + [Entry(key, value)];
      assert Cmp((es + [Entry(key, value)])[0].key, (es + [Entry(key, value)])[|es|].key) < 0;
      CmpSigns(es[0].key, key);
      PutLast(es[1..], key, value);
      assert es == [es[0]] + es[1..];
    }
  }

  lemma CmpSigns(a: Data, b: Data)
    requires Cmp(a, b) < 0
    ensures Cmp(b, a) > 0
  {
    CmpReverse(a, b);
    hide Cmp;
  }

  lemma AscendingFront(a: seq<Entry>, b: seq<Entry>)
    requires Ascending(a + b)
    ensures Ascending(a)
  {
    hide Cmp;
    forall i, j | 0 <= i < j < |a| ensures Cmp(a[i].key, a[j].key) < 0 {
      assert Cmp((a + b)[i].key, (a + b)[j].key) < 0;
    }
  }

  /** Parsing the text printed for such a value gives the value, in every locale and with any white space. */
  lemma RoundTrip(lib: Library, d: Data, text: seq<Byte>)
    requires Printable(d) && (text == Print(d) || Spaced(d, text))
    ensures FromJson(lib, text) == Some(d)
  {
    hide *;
    PrintableIsTextual(d);
    if Spaced(d, text) { SpacedRoundTrip(lib, d, text); } else { PrintedComesBack(lib, d); }
  }

  // ---------------------------------------------------------------- arrays

  /** An array is printed as the vector of the values in its memory, and comes back as that. */
  lemma ArrayAsVector(lib: Library, d: Data, ds: seq<Data>)
    requires d.Array? && !d.binary && Textual(d) && Holds(d.element, ds, d.bytes)
    ensures Print(d) == Print(Vector(ds)) && FromJson(lib, Print(d)) == Some(Vector(BackScalars(ds)))
  {
    hide *;
    ElementsAreTheValues(d, ds);
    ElementsAreSimple(d);
    ScalarsArePrinted(lib, ds);
    ScalarsAsSeq(ds);
    ArrayText(d, ds);
    PrintedComesBack(lib, d);
  }

  lemma {:induction false} ScalarsAsSeq(ds: seq<Data>)
    requires forall i :: 0 <= i < |ds| ==> Simple(ds[i])
    ensures PrintScalars(ds) == PrintSeq(ds)
  {
    hide PrintScalar;
    if ds != [] {
      assert Print(ds[0]) == PrintScalar(ds[0]);
      ScalarsAsSeq(ds[1..]);
    }
  }

  lemma ArrayText(d: Data, ds: seq<Data>)
    requires d.Array? && !d.binary && Elements(d) == ds && PrintScalars(ds) == PrintSeq(ds)
    ensures Print(d) == Print(Vector(ds)) && Back(d) == Vector(BackScalars(ds))
  {
    hide Elements, PrintScalars, PrintSeq, BackScalars;
  }
}
