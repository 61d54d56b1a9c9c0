// Values from tokens (src/c/data-json.c): every JSON text is read as what it means.
module JsonBuilder {
  import opened Bytes
  import opened Options
  import opened CLibrary
  import opened Sequences
  import opened DataOrder
  import opened OrderedEntries
  import opened JsonTokens
  import opened JsonText
  import opened JsonEscapes
  import opened JsonGrammar
  import opened JsonReading

  // ---------------------------------------------------------------- strings and primitives

  function TokenText(js: seq<Byte>, t: Token): seq<Byte> {
    if 0 <= t.start <= t.end <= |js| then js[t.start..t.end] else []
  }

  /** iot_data_string_from_json_token; none if the escapes lead out of its buffer. */
  function StringOf(lib: Library, js: seq<Byte>, t: Token): Option<seq<Byte>> {
    if t.kind != Escaped then Some(UpToNul(TokenText(js, t)))
    else
      match Unescape(lib, TokenText(js, t))
      case None => None
      case Some(str) => Some(UpToNul(str))
  }

  predicate IsDigit(c: Byte) { 48 <= c <= 57 }

  /** The number the leading digits spell, after what has been read. */
  function Horner(s: seq<Byte>, value: nat): nat {
    if s == [] || !IsDigit(s[0]) then value else Horner(s[1..], value * 10 + (s[0] - 48))
  }

  /** strtoull in base 10: an optional sign and digits; none if the number is out of range. */
  function Strtoull(s: seq<Byte>): Option<nat> {
    var digits := if s != [] && (s[0] == Ch('-') || s[0] == Ch('+')) then s[1..] else s;
    var n := Horner(digits, 0);
    if n >= WORD64 then None
    else if s != [] && s[0] == Ch('-') then Some((WORD64 - n) % WORD64)
    else Some(n)
  }

  /** iot_data_primitive_from_json; Missing is NULL. */
  function PrimitiveOf(lib: Library, str: seq<Byte>): Data {
    if str != [] && (str[0] == Ch('t') || str[0] == Ch('f')) then Bool(str[0] == Ch('t'))
    else if str != [] && str[0] == Ch('n') then Null
    else if Ch('.') in str || Ch('e') in str || Ch('E') in str then lib.strtod(str)
    else if Ch('-') in str then
      match Strtoull(str[1..])
      case None => Missing
      case Some(n) => if n > 0x8000_0000_0000_0000 then Missing else Int(Int64, 0 - n)
    else
      match Strtoull(str)
      case None => Missing
      case Some(n) => if n < 0x8000_0000_0000_0000 then Int(Int64, n) else Int(UInt64, n)
  }

  // ---------------------------------------------------------------- values

  datatype Built = Built(data: Data, next: nat)

  datatype BuiltMembers = BuiltMembers(entries: seq<Entry>, next: nat)

  datatype BuiltItems = BuiltItems(values: seq<Data>, next: nat)

  /** iot_data_value_from_json at token k of those allocated; none if a read leaves the allocation or a string its
      buffer. */
  function Value(lib: Library, toks: seq<Token>, k: nat, js: seq<Byte>): (b: Option<Built>)
    ensures b.Some? ==> k < b.value.next
    decreases |toks| - k, 0
  {
    if k >= |toks| then None
    else
      var t := toks[k];
      match t.kind
      case Object =>
        (match MembersFrom(lib, toks, k + 1, t.size, js, [])
         case None => None
         case Some(m) => Some(Built(Map(m.entries), m.next)))
      case Arr =>
        (match ItemsFrom(lib, toks, k + 1, t.size, js)
         case None => None
         case Some(i) => Some(Built(Vector(i.values + Unset(t.size - |i.values|)), i.next)))
      case _ =>
        (match StringOf(lib, js, t)
         case None => None
         case Some(str) => Some(Built(if t.kind == Primitive then PrimitiveOf(lib, str) else Str(str), k + 1)))
  }

  /** The loop of iot_data_map_from_json: a key and a value, n times. */
  function MembersFrom(lib: Library, toks: seq<Token>, k: nat, n: nat, js: seq<Byte>, es: seq<Entry>): (m: Option<BuiltMembers>)
    ensures m.Some? ==> k <= m.value.next
    decreases |toks| - k, n + 1
  {
    if n == 0 then Some(BuiltMembers(es, k))
    else if k >= |toks| then None
    else
      match StringOf(lib, js, toks[k])
      case None => None
      case Some(str) =>
        match Value(lib, toks, k + 1, js)
        case None => None
        case Some(v) =>
          MembersFrom(lib, toks, v.next, n - 1, js, if v.data == Missing then es else Put(es, Str(str), v.data))
  }

  /** The loop of iot_data_vector_from_json: NULL values take no slot. */
  function ItemsFrom(lib: Library, toks: seq<Token>, k: nat, n: nat, js: seq<Byte>): (i: Option<BuiltItems>)
    ensures i.Some? ==> k <= i.value.next && |i.value.values| <= n
    decreases |toks| - k, n + 1
  {
    if n == 0 then Some(BuiltItems([], k))
    else
      match Value(lib, toks, k, js)
      case None => None
      case Some(v) =>
        match ItemsFrom(lib, toks, v.next, n - 1, js)
        case None => None
        case Some(others) =>
          Some(BuiltItems(if v.data == Missing then others.values else [v.data] + others.values, others.next))
  }

  function Zeros(n: nat): seq<Token> {
    if n == 0 then [] else [ZERO] + Zeros(n - 1)
  }

  /** The token array: the tokens made, and behind them what calloc left. */
  function Allocated(toks: seq<Token>, max: nat): seq<Token> {
    toks + Zeros(if |toks| <= max then max - |toks| else 0)
  }

  /** iot_data_from_json: null for text that cannot be parsed, none where memory is accessed that was not allocated. */
  function FromJson(lib: Library, js: seq<Byte>): Option<Data> {
    if js == [] then Some(Null)
    else
      match Tokenize(js, Estimate(js), START)
      case Error(_) => Some(Null)
      case Tokens(toks, count) =>
        if count == 0 || count > Estimate(js) then Some(Null)
        else
          match Value(lib, Allocated(toks, Estimate(js)), 0, js)
          case None => None
          case Some(b) => Some(if b.data == Missing then Null else b.data)
  }

  // ---------------------------------------------------------------- numbers

  lemma {:induction false} HornerNext(s: seq<Byte>, c: Byte, value: nat)
    requires IsDigit(c) && forall i :: 0 <= i < |s| ==> IsDigit(s[i])
    ensures Horner(s + [c], value) == Horner(s, value) * 10 + (c - 48)
    decreases |s|
  {
    if s == [] {
      assert [c][1..] == [];
      assert Horner([], value * 10 + (c - 48)) == value * 10 + (c - 48);
    } else {
      assert (s + [c])[1..] == s[1..] + [c];
      HornerNext(s[1..], c, value * 10 + (s[0] - 48));
    }
  }

  lemma {:induction false} HornerIsValue(s: seq<Byte>)
    requires Numeral(s)
    ensures Horner(s, 0) == DigitsValue(s) >= 0
    decreases |s|
  {
    if s != [] {
      var front := s[..|s| - 1];
      assert s == front + [s[|s| - 1]];
      assert Numeral(front);
      HornerIsValue(front);
      hide Horner;
      HornerNext(front, s[|s| - 1], 0);
    }
  }

  lemma UnsignedIsNumber(lib: Library, s: seq<Byte>)
    requires s != [] && Numeral(s) && Horner(s, 0) == DigitsValue(s) >= 0
    ensures PrimitiveOf(lib, s) == var v := DigitsValue(s);
      if v < 0x8000_0000_0000_0000 then Int(Int64, v) else if v < WORD64 then Int(UInt64, v) else Missing
  {
    assert IsDigit(s[0]);
    hide Horner, DigitsValue;
  }

  lemma NegativeIsNumber(lib: Library, s: seq<Byte>)
    requires s != [] && Numeral(s) && Horner(s, 0) == DigitsValue(s) >= 0
    ensures PrimitiveOf(lib, [Ch('-')] + s) == var v := DigitsValue(s);
      if v <= 0x8000_0000_0000_0000 then Int(Int64, -v) else Missing
  {
    var text := [Ch('-')] + s;
    assert IsDigit(s[0]) && text[1..] == s;
    hide Horner, DigitsValue;
    assert text[0] == Ch('-');
    assert forall i :: 1 <= i < |text| ==> text[i] == s[i - 1];
  }

  lemma IntegerIsRead(lib: Library, a: Atom)
    requires Grammatical(a) && a.Number? && a.fraction == [] && a.exponent == []
    ensures PrimitiveOf(lib, SpellAtom(a)) == AtomMeaning(lib, a)
  {
    HornerIsValue(a.whole);
    assert SpellAtom(a) == (if a.minus then [Ch('-')] else []) + a.whole;
    NoPrefix(a.whole);
    if a.minus { NegativeIsNumber(lib, a.whole); } else { UnsignedIsNumber(lib, a.whole); }
    hide PrimitiveOf, DigitsValue, Horner;
  }

  lemma RealIsRead(lib: Library, a: Atom)
    requires Grammatical(a) && a.Number? && (a.fraction != [] || a.exponent != [])
    ensures PrimitiveOf(lib, SpellAtom(a)) == AtomMeaning(lib, a)
  {
    var sign: seq<Byte> := if a.minus then [0x2D] else [];
    var text, tail := SpellAtom(a), a.fraction + a.exponent;
    assert text == sign + a.whole + tail;
    assert tail[0] == 0x2E || tail[0] == 0x65 || tail[0] == 0x45;
    assert text[|sign| + |a.whole|] == tail[0];
    assert text[0] == if a.minus then 0x2D else a.whole[0];
    hide SpellAtom, Strtoull;
  }

  /** A literal or number is read as what it means. */
  lemma AtomIsRead(lib: Library, a: Atom)
    requires Grammatical(a)
    ensures PrimitiveOf(lib, SpellAtom(a)) == AtomMeaning(lib, a) && UpToNul(SpellAtom(a)) == SpellAtom(a)
  {
    hide *;
    AtomsAreBare(a);
    BareIsString(SpellAtom(a));
    NulFree(SpellAtom(a));
    if a.Number? {
      if a.fraction == [] && a.exponent == [] { IntegerIsRead(lib, a); } else { RealIsRead(lib, a); }
    } else {
      LiteralIsRead(lib, a);
    }
  }

  lemma BareIsString(s: seq<Byte>)
    requires AllBare(s)
    ensures NUL !in s
  {
  }

  lemma LiteralIsRead(lib: Library, a: Atom)
    requires !a.Number?
    ensures PrimitiveOf(lib, SpellAtom(a)) == AtomMeaning(lib, a)
  {
  }

  // ---------------------------------------------------------------- strings

  lemma HexAgrees(c: Byte)
    requires HexDigit(c).Some?
    ensures HexValue(c) == HexDigit(c).value
  {
  }

  /** One round of the loop takes one piece and writes its character. */
  lemma PieceIsRead(lib: Library, p: Piece, rest: seq<Byte>)
    requires PieceFits(p) && (p.Universal? ==> lib.c32rtomb(p.code).Some?)
    ensures RoundOf(lib, SpellPiece(p) + rest) == Round(|SpellPiece(p)|, Some(Character(lib, p)))
    ensures (SpellPiece(p) + rest)[|SpellPiece(p)|..] == rest
  {
    var t := SpellPiece(p) + rest;
    if p.Universal? {
      var digits := p.digits;
      HexAgrees(digits[0]);
      HexAgrees(digits[1]);
      HexAgrees(digits[2]);
      HexAgrees(digits[3]);
      assert t[2] == digits[0] && t[3] == digits[1] && t[4] == digits[2] && t[5] == digits[3];
      hide HexValue, HexDigit;
    }
  }

  lemma {:induction false} PiecesAreRead(lib: Library, ps: seq<Piece>, buf: seq<Byte>)
    requires PiecesFit(ps) && PiecesConvert(lib, ps)
    ensures Rewrite(lib, Spell(ps), buf, |buf|) == Some(buf + Characters(lib, ps))
    decreases |ps|
  {
    hide RoundOf, SpellPiece, Overlay, PieceFits, Character;
    if ps == [] {
      NoSuffix(buf);
    } else {
      var p, out := ps[0], Character(lib, ps[0]);
      PieceIsRead(lib, p, Spell(ps[1..]));
      AtTheEnd(buf, out);
      PiecesAreRead(lib, ps[1..], buf + out);
      Assoc(buf, out, Characters(lib, ps[1..]));
    }
  }

  lemma {:induction false} PlainIsRead(lib: Library, ps: seq<Piece>)
    requires !HasEscape(ps)
    ensures Spell(ps) == Characters(lib, ps)
  {
    if ps != [] { PlainIsRead(lib, ps[1..]); }
  }

  // ---------------------------------------------------------------- the builder undoes the tokens

  /** The token list holds ts from token k on. */
  ghost predicate TokensAt(toks: seq<Token>, k: nat, ts: seq<Token>) {
    k + |ts| <= |toks| && toks[k..k + |ts|] == ts
  }

  lemma TokensParts(toks: seq<Token>, k: nat, a: seq<Token>, b: seq<Token>)
    requires TokensAt(toks, k, a + b)
    ensures TokensAt(toks, k, a) && TokensAt(toks, k + |a|, b)
  {
    assert toks[k..k + |a|] == toks[k..k + |a + b|][..|a|];
    assert toks[k + |a|..k + |a| + |b|] == toks[k..k + |a + b|][|a|..];
  }

  lemma TokenHere(toks: seq<Token>, k: nat, t: Token)
    requires TokensAt(toks, k, [t])
    ensures k < |toks| && toks[k] == t
  {
    assert toks[k..k + 1][0] == t;
  }

  lemma TextHere(js: seq<Byte>, i: nat, text: seq<Byte>, kind: Kind, size: nat, parent: int)
    requires HasAt(js, i, text)
    ensures TokenText(js, Token(kind, i, i + |text|, size, parent)) == text
  {
  }

  /** The text of a string's token is read as the string. */
  lemma StringIsRead(lib: Library, js: seq<Byte>, off: nat, ps: seq<Piece>, size: nat, parent: int)
    requires PiecesFit(ps) && PiecesConvert(lib, ps) && HasAt(js, off, InQuotes(ps))
    ensures StringOf(lib, js, Token(TextKind(ps), off + 1, off + 1 + |Spell(ps)|, size, parent)) == Some(StringMeaning(lib, ps))
  {
    hide *;
    InQuotesIs(ps);
    HasParts(js, off, [QUOTE] + Spell(ps), [QUOTE]);
    HasParts(js, off, [QUOTE], Spell(ps));
    TextHere(js, off + 1, Spell(ps), TextKind(ps), size, parent);
    PiecesAreRead(lib, ps, []);
    NoPrefix(Characters(lib, ps));
    if !HasEscape(ps) { PlainIsRead(lib, ps); }
    StringMeans(lib, js, Token(TextKind(ps), off + 1, off + 1 + |Spell(ps)|, size, parent), ps);
  }

  lemma InQuotesIs(ps: seq<Piece>)
    ensures InQuotes(ps) == [QUOTE] + Spell(ps) + [QUOTE]
  {
    hide Spell;
  }

  lemma StringMeans(lib: Library, js: seq<Byte>, t: Token, ps: seq<Piece>)
    requires t.kind == TextKind(ps) && TokenText(js, t) == Spell(ps)
    requires HasEscape(ps) ==> Rewrite(lib, Spell(ps), [], 0) == Some(Characters(lib, ps))
    requires !HasEscape(ps) ==> Spell(ps) == Characters(lib, ps)
    ensures StringOf(lib, js, t) == Some(StringMeaning(lib, ps))
  {
    hide Rewrite, TokenText, UpToNul, Spell, Characters, HasEscape;
  }

  // ---------------------------------------------------------------- values

  /** At the tokens of a text the builder makes what the text means, and goes on behind them. */
  lemma {:induction false} Builds(lib: Library, n: Node, js: seq<Byte>, off: nat, toks: seq<Token>, k: nat, parent: int)
    requires Valid(n) && Representable(lib, n) && HasAt(js, off, Render(n)) && TokensAt(toks, k, TokensOf(n, off, k, parent))
    ensures Value(lib, toks, k, js) == Some(Built(Meaning(lib, n), k + TokenCount(n)))
    decreases n, 1
  {
    hide *;
    ValidParts(n);
    ConvertParts(lib, n);
    if n.Text? {
      TextBuilds(lib, n, js, off, toks, k, parent);
    } else if n.Items? {
      VectorBuilds(lib, n.gap, n.items, js, off, toks, k, parent);
    } else if n.Members? {
      MapBuilds(lib, n.gap, n.members, js, off, toks, k, parent);
    } else {
      WordBuilds(lib, n, js, off, toks, k, parent);
    }
  }

  lemma ConvertParts(lib: Library, n: Node)
    requires Representable(lib, n)
    ensures n.Text? ==> PiecesConvert(lib, n.pieces)
    ensures n.Items? ==> ItemsConvert(lib, n.items)
    ensures n.Members? ==> MembersConvert(lib, n.members)
  {
    hide PiecesConvert;
  }

  lemma TextBuilds(lib: Library, n: Node, js: seq<Byte>, off: nat, toks: seq<Token>, k: nat, parent: int)
    requires n.Text? && PiecesFit(n.pieces) && PiecesConvert(lib, n.pieces)
    requires HasAt(js, off, Render(n)) && TokensAt(toks, k, TokensOf(n, off, k, parent))
    ensures Value(lib, toks, k, js) == Some(Built(Meaning(lib, n), k + TokenCount(n)))
  {
    hide *;
    TextToken(lib, n, off, k, parent);
    TokenHere(toks, k, Token(TextKind(n.pieces), off + 1, off + 1 + |Spell(n.pieces)|, 0, parent));
    StringIsRead(lib, js, off, n.pieces, 0, parent);
    ValueOfString(lib, toks, k, js, StringMeaning(lib, n.pieces));
  }

  lemma TextToken(lib: Library, n: Node, off: nat, k: nat, parent: int)
    requires n.Text?
    ensures TokensOf(n, off, k, parent) == [Token(TextKind(n.pieces), off + 1, off + 1 + |Spell(n.pieces)|, 0, parent)]
    ensures TokenCount(n) == 1 && Render(n) == InQuotes(n.pieces) && Meaning(lib, n) == Str(StringMeaning(lib, n.pieces))
    ensures TextKind(n.pieces) == Escaped || TextKind(n.pieces) == Kind.Plain
  {
    hide Spell, InQuotes, HasEscape, StringMeaning;
  }

  lemma ValueOfString(lib: Library, toks: seq<Token>, k: nat, js: seq<Byte>, chars: seq<Byte>)
    requires k < |toks| && (toks[k].kind == Escaped || toks[k].kind == Kind.Plain) && StringOf(lib, js, toks[k]) == Some(chars)
    ensures Value(lib, toks, k, js) == Some(Built(Str(chars), k + 1))
  {
    hide StringOf;
  }

  lemma WordBuilds(lib: Library, n: Node, js: seq<Byte>, off: nat, toks: seq<Token>, k: nat, parent: int)
    requires n.Word? && Grammatical(n.atom) && HasAt(js, off, Render(n)) && TokensAt(toks, k, TokensOf(n, off, k, parent))
    ensures Value(lib, toks, k, js) == Some(Built(Meaning(lib, n), k + TokenCount(n)))
  {
    hide *;
    var text := SpellAtom(n.atom);
    WordToken(lib, n, off, k, parent);
    TokenHere(toks, k, Token(Primitive, off, off + |text|, 0, parent));
    TextHere(js, off, text, Primitive, 0, parent);
    AtomIsRead(lib, n.atom);
    ValueOfPrimitive(lib, toks, k, js, text, AtomMeaning(lib, n.atom));
  }

  lemma WordToken(lib: Library, n: Node, off: nat, k: nat, parent: int)
    requires n.Word?
    ensures TokensOf(n, off, k, parent) == [Token(Primitive, off, off + |SpellAtom(n.atom)|, 0, parent)] && TokenCount(n) == 1
    ensures Render(n) == SpellAtom(n.atom) && Meaning(lib, n) == AtomMeaning(lib, n.atom)
  {
    hide SpellAtom, AtomMeaning;
  }

  lemma ValueOfPrimitive(lib: Library, toks: seq<Token>, k: nat, js: seq<Byte>, text: seq<Byte>, d: Data)
    requires k < |toks| && toks[k].kind == Primitive && TokenText(js, toks[k]) == text == UpToNul(text)
    requires PrimitiveOf(lib, text) == d
    ensures Value(lib, toks, k, js) == Some(Built(d, k + 1))
  {
    hide PrimitiveOf, TokenText, UpToNul;
  }

  lemma {:induction false} VectorBuilds(lib: Library, gap: seq<Byte>, items: seq<Item>, js: seq<Byte>, off: nat, toks: seq<Token>, k: nat, parent: int)
    requires ValidItems(items) && ItemsConvert(lib, items) && HasAt(js, off, Render(Items(gap, items)))
    requires TokensAt(toks, k, TokensOf(Items(gap, items), off, k, parent))
    ensures Value(lib, toks, k, js) == Some(Built(Meaning(lib, Items(gap, items)), k + TokenCount(Items(gap, items))))
    decreases items, 1
  {
    hide *;
    var n := Items(gap, items);
    var t := Token(Arr, off, off + |Render(n)|, |items|, parent);
    VectorIs(lib, gap, items, off, k, parent);
    BracketParts(js, off, 0x5B, gap, RenderItems(items), 0x5D);
    TokensParts(toks, k, [t], SeqTokens(items, off + 1 + |gap|, k + 1, k));
    TokenHere(toks, k, t);
    SeqBuilds(lib, items, js, off + 1 + |gap|, toks, k + 1, k);
    ValueOfArray(lib, toks, k, js, BuiltItems(Values(lib, items), k + 1 + SeqCount(items)));
  }

  lemma VectorIs(lib: Library, gap: seq<Byte>, items: seq<Item>, off: nat, k: nat, parent: int)
    ensures var n := Items(gap, items);
      && Render(n) == [0x5B] + (gap + RenderItems(items)) + [0x5D]
      && TokensOf(n, off, k, parent) ==
        [Token(Arr, off, off + |Render(n)|, |items|, parent)] + SeqTokens(items, off + 1 + |gap|, k + 1, k)
      && TokenCount(n) == 1 + SeqCount(items)
      && |Values(lib, items)| <= |items|
      && Meaning(lib, n) == Vector(Values(lib, items) + Unset(|items| - |Values(lib, items)|))
  {
    hide RenderItems, SeqTokens, SeqCount, Values;
  }

  lemma ValueOfArray(lib: Library, toks: seq<Token>, k: nat, js: seq<Byte>, i: BuiltItems)
    requires k < |toks| && toks[k].kind == Arr && |i.values| <= toks[k].size
    requires ItemsFrom(lib, toks, k + 1, toks[k].size, js) == Some(i)
    ensures Value(lib, toks, k, js) == Some(Built(Vector(i.values + Unset(toks[k].size - |i.values|)), i.next))
  {
    hide ItemsFrom;
  }

  lemma {:induction false} SeqBuilds(lib: Library, items: seq<Item>, js: seq<Byte>, off: nat, toks: seq<Token>, k: nat, parent: int)
    requires ValidItems(items) && ItemsConvert(lib, items) && (items == [] || HasAt(js, off, RenderItems(items)))
    requires items == [] || TokensAt(toks, k, SeqTokens(items, off, k, parent))
    ensures ItemsFrom(lib, toks, k, |items|, js) == Some(BuiltItems(Values(lib, items), k + SeqCount(items)))
    decreases items, 0
  {
    hide *;
    if items == [] {
      NoItems(lib, toks, k, js, items);
    } else {
      var x, rest := items[0], items[1..];
      var off', k' := off + |RenderItem(x)| + 1, k + ItemCount(x);
      ValidTail(items);
      ConvertTail(lib, items);
      FirstItem(js, off, items);
      FirstTokens(toks, k, items, off, parent);
      ItemBuilds(lib, x, js, off, toks, k, parent);
      SeqBuilds(lib, rest, js, off', toks, k', parent);
      SeqCountIs(items);
      ItemsNext(lib, toks, k, |items|, js, Built(ItemMeaning(lib, x), k'), BuiltItems(Values(lib, rest), k' + SeqCount(rest)));
      ValuesIs(lib, items);
    }
  }

  lemma {:induction false} ItemBuilds(lib: Library, x: Item, js: seq<Byte>, off: nat, toks: seq<Token>, k: nat, parent: int)
    requires ValidItem(x) && ItemConverts(lib, x) && HasAt(js, off, RenderItem(x))
    requires TokensAt(toks, k, ItemTokens(x, off, k, parent))
    ensures Value(lib, toks, k, js) == Some(Built(ItemMeaning(lib, x), k + ItemCount(x)))
    decreases x, 2
  {
    ItemParts(js, off, x);
    Builds(lib, x.node, js, off + |x.before|, toks, k, parent);
    hide Value, HasAt, Render, Meaning;
  }

  lemma ConvertTail(lib: Library, items: seq<Item>)
    requires ItemsConvert(lib, items) && items != []
    ensures ItemConverts(lib, items[0]) && ItemsConvert(lib, items[1..])
  {
    hide ItemConverts;
  }

  lemma ValuesIs(lib: Library, items: seq<Item>)
    requires items != []
    ensures var v := ItemMeaning(lib, items[0]);
      Values(lib, items) == if v == Missing then Values(lib, items[1..]) else [v] + Values(lib, items[1..])
  {
    hide ItemMeaning;
    NoPrefix(Values(lib, items[1..]));
  }

  lemma NoItems(lib: Library, toks: seq<Token>, k: nat, js: seq<Byte>, items: seq<Item>)
    requires items == []
    ensures ItemsFrom(lib, toks, k, 0, js) == Some(BuiltItems(Values(lib, items), k + SeqCount(items)))
  {
  }

  lemma SeqTokensIs(items: seq<Item>, off: nat, k: nat, parent: int)
    requires items != []
    ensures var first := ItemTokens(items[0], off, k, parent);
      SeqTokens(items, off, k, parent) == first + SeqTokens(items[1..], off + |RenderItem(items[0])| + 1, k + |first|, parent)
  {
    hide ItemTokens, RenderItem;
  }

  /** Where the items of a sequence are. */
  lemma FirstItem(js: seq<Byte>, off: nat, items: seq<Item>)
    requires items != [] && HasAt(js, off, RenderItems(items))
    ensures HasAt(js, off, RenderItem(items[0]))
    ensures |items| > 1 ==> HasAt(js, off + |RenderItem(items[0])| + 1, RenderItems(items[1..]))
  {
    hide *;
    if |items| > 1 {
      SeveralElements(items);
      ManyParts(js, off, RenderItem(items[0]), RenderItems(items[1..]));
    } else {
      OneElement(items);
    }
  }

  lemma FirstTokens(toks: seq<Token>, k: nat, items: seq<Item>, off: nat, parent: int)
    requires items != [] && TokensAt(toks, k, SeqTokens(items, off, k, parent))
    ensures TokensAt(toks, k, ItemTokens(items[0], off, k, parent))
    ensures var k' := k + ItemCount(items[0]);
      TokensAt(toks, k', SeqTokens(items[1..], off + |RenderItem(items[0])| + 1, k', parent))
  {
    hide *;
    var first := ItemTokens(items[0], off, k, parent);
    SeqTokensIs(items, off, k, parent);
    ItemCounted(items[0], off, k, parent);
    TokensParts(toks, k, first, SeqTokens(items[1..], off + |RenderItem(items[0])| + 1, k + |first|, parent));
  }

  lemma ItemsNext(lib: Library, toks: seq<Token>, k: nat, n: nat, js: seq<Byte>, b: Built, i: BuiltItems)
    requires n > 0 && Value(lib, toks, k, js) == Some(b) && ItemsFrom(lib, toks, b.next, n - 1, js) == Some(i)
    ensures ItemsFrom(lib, toks, k, n, js) ==
              Some(BuiltItems(if b.data == Missing then i.values else [b.data] + i.values, i.next))
  {
    hide Value;
  }

  lemma {:induction false} MapBuilds(lib: Library, gap: seq<Byte>, members: seq<Member>, js: seq<Byte>, off: nat, toks: seq<Token>, k: nat, parent: int)
    requires ValidMembers(members) && MembersConvert(lib, members) && HasAt(js, off, Render(Members(gap, members)))
    requires TokensAt(toks, k, TokensOf(Members(gap, members), off, k, parent))
    ensures Value(lib, toks, k, js) == Some(Built(Meaning(lib, Members(gap, members)), k + TokenCount(Members(gap, members))))
    decreases members, 1
  {
    hide *;
    var n := Members(gap, members);
    var t := Token(Object, off, off + |Render(n)|, |members|, parent);
    MapIs(lib, gap, members, off, k, parent);
    BracketParts(js, off, 0x7B, gap, RenderMembers(members), 0x7D);
    TokensParts(toks, k, [t], MembersTokens(members, off + 1 + |gap|, k + 1, k));
    TokenHere(toks, k, t);
    MembersBuild(lib, members, js, off + 1 + |gap|, toks, k + 1, k, []);
    ValueOfObject(lib, toks, k, js, BuiltMembers(Bindings(lib, members, []), k + 1 + MembersCount(members)));
  }

  lemma MapIs(lib: Library, gap: seq<Byte>, members: seq<Member>, off: nat, k: nat, parent: int)
    ensures var n := Members(gap, members);
      && Render(n) == [0x7B] + (gap + RenderMembers(members)) + [0x7D]
      && TokensOf(n, off, k, parent) ==
        [Token(Object, off, off + |Render(n)|, |members|, parent)] + MembersTokens(members, off + 1 + |gap|, k + 1, k)
      && TokenCount(n) == 1 + MembersCount(members) && Meaning(lib, n) == Map(Bindings(lib, members, []))
  {
    hide RenderMembers, MembersTokens, MembersCount, Bindings;
  }

  lemma ValueOfObject(lib: Library, toks: seq<Token>, k: nat, js: seq<Byte>, m: BuiltMembers)
    requires k < |toks| && toks[k].kind == Object
    requires MembersFrom(lib, toks, k + 1, toks[k].size, js, []) == Some(m)
    ensures Value(lib, toks, k, js) == Some(Built(Map(m.entries), m.next))
  {
    hide MembersFrom;
  }

  lemma {:induction false} MembersBuild(lib: Library, members: seq<Member>, js: seq<Byte>, off: nat, toks: seq<Token>, k: nat, parent: int, acc: seq<Entry>)
    requires ValidMembers(members) && MembersConvert(lib, members)
    requires members == [] || HasAt(js, off, RenderMembers(members))
    requires members == [] || TokensAt(toks, k, MembersTokens(members, off, k, parent))
    ensures MembersFrom(lib, toks, k, |members|, js, acc) ==
              Some(BuiltMembers(Bindings(lib, members, acc), k + MembersCount(members)))
    decreases members, 0
  {
    hide *;
    if members == [] {
      NoMembers(lib, toks, k, js, members, acc);
    } else {
      var m, rest := members[0], members[1..];
      var off', k' := off + |RenderMember(m)| + 1, k + PairCount(m);
      ValidMembersTail(members);
      ConvertMembersTail(lib, members);
      FirstMember(js, off, members);
      FirstPairTokens(toks, k, members, off, parent);
      PairBuilds(lib, m, js, off, toks, k, parent);
      var v := MemberMeaning(lib, m);
      var acc' := if v == Missing then acc else Put(acc, Str(StringMeaning(lib, m.name)), v);
      MembersBuild(lib, rest, js, off', toks, k', parent, acc');
      MembersCountIs(members);
      BindingsIs(lib, members, acc);
      MembersReadNext(lib, toks, k, |members|, js, acc, Built(v, k'),
                      BuiltMembers(Bindings(lib, rest, acc'), k' + MembersCount(rest)));
    }
  }

  lemma ConvertMembersTail(lib: Library, members: seq<Member>)
    requires MembersConvert(lib, members) && members != []
    ensures MemberConverts(lib, members[0]) && MembersConvert(lib, members[1..])
  {
    hide MemberConverts;
  }

  lemma BindingsIs(lib: Library, members: seq<Member>, acc: seq<Entry>)
    requires members != []
    ensures var m := members[0];
      var v := MemberMeaning(lib, m);
      Bindings(lib, members, acc) ==
        Bindings(lib, members[1..], if v == Missing then acc else Put(acc, Str(StringMeaning(lib, m.name)), v))
  {
    hide MemberMeaning, StringMeaning, Put;
  }

  lemma NoMembers(lib: Library, toks: seq<Token>, k: nat, js: seq<Byte>, members: seq<Member>, acc: seq<Entry>)
    requires members == []
    ensures MembersFrom(lib, toks, k, 0, js, acc) == Some(BuiltMembers(Bindings(lib, members, acc), k + MembersCount(members)))
  {
  }

  /** Where the members of an object are. */
  lemma FirstMember(js: seq<Byte>, off: nat, members: seq<Member>)
    requires members != [] && HasAt(js, off, RenderMembers(members))
    ensures HasAt(js, off, RenderMember(members[0]))
    ensures |members| > 1 ==> HasAt(js, off + |RenderMember(members[0])| + 1, RenderMembers(members[1..]))
  {
    hide *;
    SeveralMembers(members);
    if |members| > 1 { ManyParts(js, off, RenderMember(members[0]), RenderMembers(members[1..])); }
  }

  lemma FirstPairTokens(toks: seq<Token>, k: nat, members: seq<Member>, off: nat, parent: int)
    requires members != [] && TokensAt(toks, k, MembersTokens(members, off, k, parent))
    ensures TokensAt(toks, k, PairTokens(members[0], off, k, parent))
    ensures var k' := k + PairCount(members[0]);
      TokensAt(toks, k', MembersTokens(members[1..], off + |RenderMember(members[0])| + 1, k', parent))
  {
    hide *;
    var first := PairTokens(members[0], off, k, parent);
    MembersTokensIs(members, off, k, parent);
    PairCounted(members[0], off, k, parent);
    TokensParts(toks, k, first, MembersTokens(members[1..], off + |RenderMember(members[0])| + 1, k + |first|, parent));
  }

  lemma {:induction false} PairBuilds(lib: Library, m: Member, js: seq<Byte>, off: nat, toks: seq<Token>, k: nat, parent: int)
    requires ValidMember(m) && MemberConverts(lib, m) && HasAt(js, off, RenderMember(m))
    requires TokensAt(toks, k, PairTokens(m, off, k, parent))
    ensures k < |toks| && StringOf(lib, js, toks[k]) == Some(StringMeaning(lib, m.name))
    ensures Value(lib, toks, k + 1, js) == Some(Built(MemberMeaning(lib, m), k + PairCount(m)))
    decreases m, 3
  {
    hide *;
    MemberIsValid(m);
    PairTokensIs(lib, m, off, k, parent);
    MemberParts(js, off, m);
    TokensParts(toks, k, [NameToken(m, off, 1, parent)], ItemTokens(m.item, off + NameLength(m), k + 1, k));
    TokenHere(toks, k, NameToken(m, off, 1, parent));
    StringIsRead(lib, js, off + |m.before|, m.name, 1, parent);
    ItemBuilds(lib, m.item, js, off + NameLength(m), toks, k + 1, k);
    PairCountIs(m);
  }

  lemma PairTokensIs(lib: Library, m: Member, off: nat, k: nat, parent: int)
    requires MemberConverts(lib, m)
    ensures PairTokens(m, off, k, parent) ==
              [NameToken(m, off, 1, parent)] + ItemTokens(m.item, off + NameLength(m), k + 1, k)
    ensures NameToken(m, off, 1, parent) ==
              Token(TextKind(m.name), off + |m.before| + 1, off + |m.before| + 1 + |Spell(m.name)|, 1, parent)
    ensures PiecesConvert(lib, m.name) && ItemConverts(lib, m.item) && MemberMeaning(lib, m) == ItemMeaning(lib, m.item)
  {
    hide ItemTokens, Spell, TextKind, NameLength, PiecesConvert, ItemConverts, ItemMeaning;
  }

  lemma MembersReadNext(lib: Library, toks: seq<Token>, k: nat, n: nat, js: seq<Byte>, acc: seq<Entry>, b: Built, m: BuiltMembers)
    requires n > 0 && k < |toks| && Value(lib, toks, k + 1, js) == Some(b) && StringOf(lib, js, toks[k]).Some?
    requires MembersFrom(lib, toks, b.next, n - 1, js,
               if b.data == Missing then acc else Put(acc, Str(StringOf(lib, js, toks[k]).value), b.data)) == Some(m)
    ensures MembersFrom(lib, toks, k, n, js, acc) == Some(m)
  {
    hide Value, Put, StringOf;
  }

  // ---------------------------------------------------------------- every text is a C string

  lemma {:induction false} SpellIsString(ps: seq<Piece>)
    requires PiecesFit(ps)
    ensures NUL !in Spell(ps)
  {
    if ps != [] {
      assert PieceFits(ps[0]);
      SpellIsString(ps[1..]);
    }
  }

  lemma GapIsString(gap: seq<Byte>)
    requires Gap(gap)
    ensures NUL !in gap
  {
  }

  lemma {:induction false} TextIsString(n: Node)
    requires Valid(n)
    ensures NUL !in Render(n) && Render(n) != []
    decreases n, 1
  {
    hide RenderItems, RenderMembers, Gap, SpellAtom, Spell, PiecesFit, Grammatical;
    match n
    case Word(atom) =>
      AtomsAreBare(atom);
      BareIsString(SpellAtom(atom));
    case Text(ps) => SpellIsString(ps);
    case Items(gap, items) =>
      GapIsString(gap);
      ItemsAreString(items);
    case Members(gap, members) =>
      GapIsString(gap);
      MembersAreString(members);
  }

  lemma {:induction false} ItemsAreString(items: seq<Item>)
    requires ValidItems(items)
    ensures NUL !in RenderItems(items)
    decreases items, 0
  {
    if items != [] {
      ItemIsString(items[0]);
      ItemsAreString(items[1..]);
      hide RenderItem;
    }
  }

  lemma {:induction false} ItemIsString(x: Item)
    requires ValidItem(x)
    ensures NUL !in RenderItem(x)
    decreases x, 2
  {
    TextIsString(x.node);
    GapIsString(x.before);
    GapIsString(x.after);
    hide Render, Gap;
  }

  lemma {:induction false} MembersAreString(members: seq<Member>)
    requires ValidMembers(members)
    ensures NUL !in RenderMembers(members)
    decreases members, 0
  {
    if members != [] {
      MemberIsString(members[0]);
      MembersAreString(members[1..]);
      hide RenderMember;
    }
  }

  lemma {:induction false} MemberIsString(m: Member)
    requires ValidMember(m)
    ensures NUL !in RenderMember(m)
    decreases m, 3
  {
    ItemIsString(m.item);
    GapIsString(m.before);
    GapIsString(m.behind);
    SpellIsString(m.name);
    hide RenderItem, Gap, Spell;
  }

  // ---------------------------------------------------------------- every text is read

  /** What the reader answers: NULL stands for a value without a meaning. */
  function Answer(d: Data): Data {
    if d == Missing then Null else d
  }

  /** Every JSON text, with white space around it, is read as what it means, and the estimate of its tokens suffices, in
      every locale that has the characters of its universal escapes. */
  lemma EveryJsonText(lib: Library, before: seq<Byte>, n: Node, after: seq<Byte>)
    requires Gap(before) && Valid(n) && Gap(after) && Representable(lib, n)
    ensures var text := before + (Render(n) + after);
      FromJson(lib, text) == Some(Answer(Meaning(lib, n))) && TokenCount(n) <= Estimate(text)
  {
    hide *;
    var x := Item(before, n, after);
    var js := RenderItem(x);
    var max := Estimate(js);
    var toks := TokensOf(n, |before|, 0, -1);
    WholeText(lib, x);
    TextIsString(n);
    GapIsString(before);
    GapIsString(after);
    WholeIsString(x);
    WholeEstimate(x);
    Starts(js, max, x);
    NodeFits(js, max, START, x);
    var p := START.(pos := |before|);
    Reads(js, max, n, p);
    ReadsItem(js, max, x, START, p);
    TokensCounted(n, |before|, 0, -1);
    TokensSettled(n, |before|, 0, -1);
    Ends(js, max, AfterItem(START, x));
    AllocatedAt(toks, max);
    ItemParts(js, 0, x);
    Builds(lib, n, js, |before|, Allocated(toks, max), 0, -1);
    Finished(lib, js, Meaning(lib, n), toks, TokenCount(n));
  }

  lemma WholeText(lib: Library, x: Item)
    requires Gap(x.before) && Valid(x.node) && Gap(x.after)
    ensures RenderItem(x) == x.before + (Render(x.node) + x.after) && ValidItem(x) && ItemCount(x) == TokenCount(x.node)
  {
    hide Gap, Valid, Render, TokenCount;
  }

  lemma WholeIsString(x: Item)
    requires NUL !in x.before && NUL !in Render(x.node) && NUL !in x.after && Render(x.node) != []
    ensures NUL !in RenderItem(x) && RenderItem(x) != []
  {
    hide Render;
  }

  lemma WholeEstimate(x: Item)
    ensures TokenCount(x.node) <= Estimate(RenderItem(x))
  {
    ItemEstimate(x);
    hide Weights, RenderItem, TokenCount;
  }

  lemma Starts(js: seq<Byte>, max: nat, x: Item)
    requires js == RenderItem(x) && NUL !in js && ItemCount(x) <= max
    ensures Fits(js, max, START, RenderItem(x), ItemCount(x)) && HasAt(js, 0, RenderItem(x))
    ensures START.pos == 0 && -1 == START.super && START.toks == [] && START.(pos := |x.before|).pos == |x.before|
    ensures AfterItem(START, x) == Parser(|js|, TokensOf(x.node, |x.before|, 0, -1), -1, ItemCount(x))
    ensures After(START.(pos := |x.before|), x.node) ==
              Parser(|x.before| + |Render(x.node)|, TokensOf(x.node, |x.before|, 0, -1), -1, TokenCount(x.node))
  {
    NoPrefix(TokensOf(x.node, |x.before|, 0, -1));
    hide Render, RenderItem, TokensOf, TokenCount;
  }

  lemma AllocatedAt(toks: seq<Token>, max: nat)
    ensures TokensAt(Allocated(toks, max), 0, toks)
  {
  }

  lemma Ends(js: seq<Byte>, max: nat, p: Parser)
    requires Settled(p.toks, 0, -1) && p.pos == |js| && Comes(js, max, START, p)
    ensures Tokenize(js, max, START) == Tokens(p.toks, p.count)
  {
  }

  lemma Finished(lib: Library, js: seq<Byte>, d: Data, toks: seq<Token>, count: nat)
    requires js != [] && 0 < count <= Estimate(js)
    requires Tokenize(js, Estimate(js), START) == Tokens(toks, count)
    requires Value(lib, Allocated(toks, Estimate(js)), 0, js) == Some(Built(d, count))
    ensures FromJson(lib, js) == Some(Answer(d))
  {
    hide Tokenize, Estimate, Value;
  }
}
